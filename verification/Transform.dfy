/** The discrete Fourier transform as polynomial evaluation, and its decimation-in-time recursion. */
module Transform {
  import opened BitReversal
  import opened Rings

  /** Output k of the transform of x with root w, over the first m samples: the sum of x[t] * w^(k*t). */
  function Dft<T>(r: Ring<T>, x: seq<T>, w: T, k: nat, m: nat): T
    requires m <= |x|
  {
    if m == 0 then r.zero else r.add(Dft(r, x, w, k, m - 1), r.mul(x[m - 1], r.Power(w, k * (m - 1))))
  }

  /** The polynomial with coefficients x[..m], at z. */
  function Eval<T>(r: Ring<T>, x: seq<T>, z: T, m: nat): T
    requires m <= |x|
  {
    if m == 0 then r.zero else r.add(Eval(r, x, z, m - 1), r.mul(x[m - 1], r.Power(z, m - 1)))
  }

  /** The transform evaluates the polynomial of the samples at the powers of the root. */
  lemma {:induction false} DftIsEval<T(!new)>(r: Ring<T>, x: seq<T>, w: T, k: nat, m: nat)
    requires IsRing(r) && m <= |x|
    ensures Dft(r, x, w, k, m) == Eval(r, x, r.Power(w, k), m)
  {
    if m > 0 {
      DftIsEval(r, x, w, k, m - 1);
      PowerOfPower(r, w, k, m - 1);
    }
  }

  ghost predicate Interleaves<T>(x: seq<T>, even: seq<T>, odd: seq<T>) {
    && |x| == 2 * |even| && |odd| == |even|
    && forall t :: 0 <= t < |even| ==> even[t] == x[2 * t] && odd[t] == x[2 * t + 1]
  }

  lemma OddTerm<T(!new)>(r: Ring<T>, z: T, c: T, t: nat)
    requires IsRing(r)
    ensures r.mul(c, r.Power(z, 2 * t + 1)) == r.mul(z, r.mul(c, r.Power(r.mul(z, z), t)))
  {
    var q := r.Power(r.mul(z, z), t);
    PowerOfSquare(r, z, t);
    assert r.Power(z, 2 * t + 1) == r.mul(q, z);
    assert r.Laws(q, z, z) && r.Laws(c, z, q) && r.Laws(z, c, q);
  }

  /** Even and odd coefficients can be evaluated apart, at the square. */
  lemma {:induction false} SplitEvenOdd<T(!new)>(r: Ring<T>, x: seq<T>, even: seq<T>, odd: seq<T>, z: T, h: nat)
    requires IsRing(r) && Interleaves(x, even, odd) && h <= |even|
    ensures Eval(r, x, z, 2 * h)
            == r.add(Eval(r, even, r.mul(z, z), h), r.mul(z, Eval(r, odd, r.mul(z, z), h)))
  {
    var zz := r.mul(z, z);
    if h == 0 {
      Regroup(r, r.zero, r.zero, z, r.zero, r.zero);
    } else {
      var t := h - 1;
      SplitEvenOdd(r, x, even, odd, z, t);
      var q := r.Power(zz, t);
      PowerOfSquare(r, z, t);
      OddTerm(r, z, odd[t], t);
      assert Eval(r, x, z, 2 * t + 1) == r.add(Eval(r, x, z, 2 * t), r.mul(even[t], q));
      assert Eval(r, x, z, 2 * t + 2) == r.add(Eval(r, x, z, 2 * t + 1), r.mul(odd[t], r.Power(z, 2 * t + 1)));
      Regroup(r, Eval(r, even, zz, t), r.mul(even[t], q), z, Eval(r, odd, zz, t), r.mul(odd[t], q));
    }
  }

  lemma Regroup<T(!new)>(r: Ring<T>, even: T, e: T, p: T, odd: T, o: T)
    requires IsRing(r)
    ensures r.add(r.add(r.add(even, r.mul(p, odd)), e), r.mul(p, o)) == r.add(r.add(even, e), r.mul(p, r.add(odd, o)))
    ensures r.add(r.zero, r.mul(p, r.zero)) == r.zero
  {
    var po, qo := r.mul(p, odd), r.mul(p, o);
    assert r.Laws(p, odd, o);
    assert r.Laws(even, po, e) && r.Laws(po, e, qo) && r.Laws(even, e, po);
    assert r.add(r.add(even, po), e) == r.add(r.add(even, e), po);
    assert r.Laws(r.add(even, e), po, qo);
    TimesZero(r, p);
    assert r.Laws(r.zero, r.zero, r.zero);
  }

  /** One butterfly: evaluating at z and at -z from the two halves at z squared. */
  lemma ButterflyPair<T(!new)>(r: Ring<T>, x: seq<T>, even: seq<T>, odd: seq<T>, z: T)
    requires IsRing(r) && Interleaves(x, even, odd)
    ensures var u := Eval(r, even, r.mul(z, z), |even|);
            var v := r.mul(Eval(r, odd, r.mul(z, z), |odd|), z);
            && Eval(r, x, z, |x|) == r.add(u, v)
            && Eval(r, x, r.neg(z), |x|) == r.Sub(u, v)
  {
    var o, n := Eval(r, odd, r.mul(z, z), |odd|), r.neg(z);
    SplitEvenOdd(r, x, even, odd, z, |even|);
    SplitEvenOdd(r, x, even, odd, n, |even|);
    assert r.mul(n, n) == r.mul(z, z) by {
      NegTimes(r, z, n);
      NegTimes(r, z, z);
      NegNeg(r, r.mul(z, z));
      assert r.Laws(z, n, z);
    }
    assert r.Laws(z, o, z) && r.Laws(n, o, z);
    NegTimes(r, z, o);
  }

  /** The roots the stages use: wlen(2) = -1, and wlen(2m) squares to wlen(m). */
  ghost predicate RootsOfUnity<T>(r: Ring<T>, wlen: nat -> T, bits: nat) {
    && (bits >= 1 ==> wlen(2) == r.neg(r.one))
    && (forall e: nat {:trigger SquaresTo(r, wlen, e)} :: 1 <= e < bits ==> SquaresTo(r, wlen, e))
  }

  ghost predicate SquaresTo<T>(r: Ring<T>, wlen: nat -> T, e: nat) {
    r.mul(wlen(2 * Pow2(e)), wlen(2 * Pow2(e))) == wlen(Pow2(e))
  }

  function Root<T>(r: Ring<T>, wlen: nat -> T, e: nat): T {
    if e == 0 then r.one else wlen(Pow2(e))
  }

  lemma RootSquare<T(!new)>(r: Ring<T>, wlen: nat -> T, bits: nat, e: nat)
    requires IsRing(r) && RootsOfUnity(r, wlen, bits) && e < bits
    ensures r.mul(Root(r, wlen, e + 1), Root(r, wlen, e + 1)) == Root(r, wlen, e)
  {
    if e == 0 {
      TimesMinusOne(r, r.one);
      assert Pow2(1) == 2 * Pow2(0) == 2;
    } else {
      assert SquaresTo(r, wlen, e);
    }
  }

  /** Half way round the circle the root reaches -1. */
  lemma {:induction false} RootHalfway<T(!new)>(r: Ring<T>, wlen: nat -> T, bits: nat, e: nat)
    requires IsRing(r) && RootsOfUnity(r, wlen, bits) && e < bits
    ensures r.Power(Root(r, wlen, e + 1), Pow2(e)) == r.neg(r.one)
  {
    var w := Root(r, wlen, e + 1);
    if e == 0 {
      assert Pow2(1) == 2 * Pow2(0) == 2;
      assert r.Power(w, 1) == r.mul(r.Power(w, 0), w);
      assert r.Laws(w, r.one, w) && r.Laws(r.one, w, w);
    } else {
      RootSquare(r, wlen, bits, e);
      RootHalfway(r, wlen, bits, e - 1);
      PowerOfSquare(r, w, Pow2(e - 1));
    }
  }

  function Evens<T>(x: seq<T>): (y: seq<T>)
    ensures |y| == |x| / 2
  {
    seq(|x| / 2, t requires 0 <= t < |x| / 2 => x[2 * t])
  }

  function Odds<T>(x: seq<T>): (y: seq<T>)
    ensures |y| == |x| / 2
  {
    seq(|x| / 2, t requires 0 <= t < |x| / 2 => x[2 * t + 1])
  }

  /** The samples that block b of size 2^e collects: those of its parent block with the parity of b. */
  function Collected<T>(x: seq<T>, bits: nat, e: nat, b: nat): (y: seq<T>)
    requires |x| == Pow2(bits) && e <= bits
    ensures |y| == Pow2(e)
    decreases bits - e
  {
    if e == bits then x
    else if b % 2 == 0 then Evens(Collected(x, bits, e + 1, b / 2))
    else Odds(Collected(x, bits, e + 1, b / 2))
  }

  lemma CollectedInterleaves<T>(x: seq<T>, bits: nat, e: nat, b: nat)
    requires |x| == Pow2(bits) && e < bits
    ensures Interleaves(Collected(x, bits, e + 1, b), Collected(x, bits, e, 2 * b), Collected(x, bits, e, 2 * b + 1))
  {
    assert (2 * b) / 2 == b && (2 * b + 1) / 2 == b;
  }

  /** b * 2^e by doubling. */
  function Start(b: nat, e: nat): nat
    decreases e
  {
    if e == 0 then b else Start(2 * b, e - 1)
  }

  lemma {:induction false} StartNext(b: nat, e: nat)
    ensures Start(b + 1, e) == Start(b, e) + Pow2(e)
    decreases e
  {
    if e > 0 {
      StartNext(2 * b, e - 1);
      StartNext(2 * b + 1, e - 1);
    }
  }

  lemma {:induction false} StartOfNone(e: nat)
    ensures Start(0, e) == 0
  {
    if e > 0 {
      StartOfNone(e - 1);
    }
  }

  /** Block b collects every 2^(bits-e)-th sample from the bit-reversed index of b on. */
  lemma {:induction false} CollectedAt<T>(x: seq<T>, bits: nat, e: nat, b: nat, t: nat)
    requires |x| == Pow2(bits) && e <= bits && b < Pow2(bits - e) && t < Pow2(e)
    ensures Start(t, bits - e) + Reverse(bits - e, b) < |x|
    ensures Collected(x, bits, e, b)[t] == x[Start(t, bits - e) + Reverse(bits - e, b)]
    decreases bits - e
  {
    if e < bits {
      CollectedAt(x, bits, e + 1, b / 2, 2 * t + b % 2);
      StartNext(2 * t, bits - e - 1);
    }
  }
}
