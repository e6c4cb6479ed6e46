/**
 * fft_inplace, the in-place radix-2 FFT of the E100 spectrum view, over an arbitrary
 * commutative ring: the reversal counter, the swaps and the butterfly stages
 * are proved to leave the discrete Fourier transform of the input in the array.
 */
module Fft {
  import opened BitReversal
  import opened Rings
  import opened Transform

  /** p / 2^e and p % 2^e, and the start of block b of size 2^e, by halving and doubling. */
  function Block(p: nat, e: nat): nat {
    if e == 0 then p else Block(p, e - 1) / 2
  }

  function Offset(p: nat, e: nat): nat {
    if e == 0 then 0 else Offset(p, e - 1) + (if Block(p, e - 1) % 2 == 1 then Pow2(e - 1) else 0)
  }

  lemma {:induction false} StartOfAll(a: nat, e: nat)
    ensures Start(Pow2(a), e) == Pow2(a + e)
    decreases e
  {
    if e > 0 {
      StartOfAll(a + 1, e - 1);
    }
  }

  lemma {:induction false} BlockAndOffset(b: nat, e: nat, j: nat)
    requires j < Pow2(e)
    ensures Block(Start(b, e) + j, e) == b && Offset(Start(b, e) + j, e) == j
    decreases e
  {
    if e > 0 {
      var h := Pow2(e - 1);
      StartNext(2 * b, e - 1);
      if j < h {
        BlockAndOffset(2 * b, e - 1, j);
      } else {
        BlockAndOffset(2 * b + 1, e - 1, j - h);
      }
    }
  }

  lemma {:induction false} BlockInRange(bits: nat, e: nat, p: nat)
    requires e <= bits && p < Pow2(bits)
    ensures Block(p, e) < Pow2(bits - e)
  {
    if e > 0 {
      BlockInRange(bits, e - 1, p);
    }
  }

  /** The block that starts inside the array also ends inside it. */
  lemma BlockFits(bits: nat, e: nat, b: nat)
    requires e <= bits && Start(b, e) < Pow2(bits)
    ensures b < Pow2(bits - e) && Start(b + 1, e) <= Pow2(bits)
  {
    BlockAndOffset(b, e, 0);
    BlockInRange(bits, e, Start(b, e));
    StartOfAll(bits - e, e);
    StartMonotone(b + 1, Pow2(bits - e), e);
  }

  lemma {:induction false} StartMonotone(b: nat, c: nat, e: nat)
    requires b <= c
    ensures Start(b, e) <= Start(c, e)
    decreases e
  {
    if e > 0 {
      StartMonotone(2 * b, 2 * c, e - 1);
    }
  }

  /** What position p holds once sub-transforms of size 2^e are done: one output of one sub-transform. */
  ghost function Stage<T>(r: Ring<T>, wlen: nat -> T, x: seq<T>, bits: nat, e: nat, p: nat): T
    requires |x| == Pow2(bits) && e <= bits && p < |x|
  {
    StageOf(r, wlen, x, bits, e, Block(p, e), Offset(p, e))
  }

  /** Output k of the sub-transform of the samples that block b of size 2^e collects. */
  ghost function StageOf<T>(r: Ring<T>, wlen: nat -> T, x: seq<T>, bits: nat, e: nat, b: nat, k: nat): T
    requires |x| == Pow2(bits) && e <= bits
  {
    Eval(r, Collected(x, bits, e, b), r.Power(Root(r, wlen, e), k), Pow2(e))
  }

  /** Positions of one butterfly, seen as (block, offset) before and after the stage. */
  lemma ButterflyPositions(e: nat, b: nat, j: nat)
    requires j < Pow2(e)
    ensures var p, q := Start(b, e + 1) + j, Start(b, e + 1) + j + Pow2(e);
            && Block(p, e) == 2 * b && Offset(p, e) == j
            && Block(q, e) == 2 * b + 1 && Offset(q, e) == j
            && Block(p, e + 1) == b && Offset(p, e + 1) == j
            && Block(q, e + 1) == b && Offset(q, e + 1) == j + Pow2(e)
  {
    StartNext(2 * b, e);
    BlockAndOffset(2 * b, e, j);
    BlockAndOffset(2 * b + 1, e, j);
  }

  /** One butterfly: outputs j and j + 2^e of a block come from output j of its two sub-blocks. */
  lemma StageOfStep<T(!new)>(r: Ring<T>, wlen: nat -> T, x: seq<T>, bits: nat, e: nat, b: nat, j: nat)
    requires IsRing(r) && RootsOfUnity(r, wlen, bits)
    requires |x| == Pow2(bits) && e < bits
    ensures var u := StageOf(r, wlen, x, bits, e, 2 * b, j);
            var v := r.mul(StageOf(r, wlen, x, bits, e, 2 * b + 1, j), r.Power(Root(r, wlen, e + 1), j));
            && StageOf(r, wlen, x, bits, e + 1, b, j) == r.add(u, v)
            && StageOf(r, wlen, x, bits, e + 1, b, j + Pow2(e)) == r.Sub(u, v)
  {
    var h, w := Pow2(e), Root(r, wlen, e + 1);
    var z := r.Power(w, j);
    CollectedInterleaves(x, bits, e, b);
    ButterflyPair(r, Collected(x, bits, e + 1, b), Collected(x, bits, e, 2 * b), Collected(x, bits, e, 2 * b + 1), z);
    RootPowers(r, wlen, bits, e, j);
  }

  lemma RootPowers<T(!new)>(r: Ring<T>, wlen: nat -> T, bits: nat, e: nat, j: nat)
    requires IsRing(r) && RootsOfUnity(r, wlen, bits) && e < bits
    ensures var z := r.Power(Root(r, wlen, e + 1), j);
            r.Power(Root(r, wlen, e), j) == r.mul(z, z) && r.Power(Root(r, wlen, e + 1), j + Pow2(e)) == r.neg(z)
  {
    var w := Root(r, wlen, e + 1);
    RootSquare(r, wlen, bits, e);
    PowerOfSquare(r, w, j);
    PowerSum(r, w, j, j);
    PowerSum(r, w, j, Pow2(e));
    RootHalfway(r, wlen, bits, e);
    TimesMinusOne(r, r.Power(w, j));
  }

  /** The same, by position in the array. */
  lemma StageStep<T(!new)>(r: Ring<T>, wlen: nat -> T, x: seq<T>, bits: nat, e: nat, b: nat, j: nat, p: nat, q: nat)
    requires IsRing(r) && RootsOfUnity(r, wlen, bits)
    requires |x| == Pow2(bits) && e < bits && j < Pow2(e)
    requires p == Start(b, e + 1) + j && q == p + Pow2(e) && q < |x|
    ensures var u := Stage(r, wlen, x, bits, e, p);
            var v := r.mul(Stage(r, wlen, x, bits, e, q), r.Power(Root(r, wlen, e + 1), j));
            && Stage(r, wlen, x, bits, e + 1, p) == r.add(u, v)
            && Stage(r, wlen, x, bits, e + 1, q) == r.Sub(u, v)
  {
    StagePositions(r, wlen, x, bits, e, b, j, p, q);
    StageOfStep(r, wlen, x, bits, e, b, j);
  }

  lemma StagePositions<T>(r: Ring<T>, wlen: nat -> T, x: seq<T>, bits: nat, e: nat, b: nat, j: nat, p: nat, q: nat)
    requires |x| == Pow2(bits) && e < bits && j < Pow2(e)
    requires p == Start(b, e + 1) + j && q == p + Pow2(e) && q < |x|
    ensures Stage(r, wlen, x, bits, e, p) == StageOf(r, wlen, x, bits, e, 2 * b, j)
    ensures Stage(r, wlen, x, bits, e, q) == StageOf(r, wlen, x, bits, e, 2 * b + 1, j)
    ensures Stage(r, wlen, x, bits, e + 1, p) == StageOf(r, wlen, x, bits, e + 1, b, j)
    ensures Stage(r, wlen, x, bits, e + 1, q) == StageOf(r, wlen, x, bits, e + 1, b, j + Pow2(e))
  {
    hide Stage, StageOf, Start, Block, Offset;
    ButterflyPositions(e, b, j);
    StageAt(r, wlen, x, bits, e, p, 2 * b, j);
    StageAt(r, wlen, x, bits, e, q, 2 * b + 1, j);
    StageAt(r, wlen, x, bits, e + 1, p, b, j);
    StageAt(r, wlen, x, bits, e + 1, q, b, j + Pow2(e));
  }

  lemma StageAt<T>(r: Ring<T>, wlen: nat -> T, x: seq<T>, bits: nat, e: nat, p: nat, b: nat, k: nat)
    requires |x| == Pow2(bits) && e <= bits && p < |x|
    requires Block(p, e) == b && Offset(p, e) == k
    ensures Stage(r, wlen, x, bits, e, p) == StageOf(r, wlen, x, bits, e, b, k)
  {
  }

  lemma FirstStage<T(!new)>(r: Ring<T>, wlen: nat -> T, x: seq<T>, bits: nat, p: nat)
    requires IsRing(r) && |x| == Pow2(bits) && p < |x|
    ensures Reverse(bits, p) < |x|
    ensures Stage(r, wlen, x, bits, 0, p) == x[Reverse(bits, p)]
  {
    ReverseRange(bits, p);
    StartOfNone(bits);
    CollectedAt(x, bits, 0, p, 0);
    var y, z, v := Collected(x, bits, 0, p), r.one, x[Reverse(bits, p)];
    assert r.Laws(v, r.one, v) && r.Laws(r.zero, v, v) && r.Laws(v, r.zero, v);
    assert r.Power(z, 0) == r.one;
    assert Eval(r, y, z, 1) == r.add(Eval(r, y, z, 0), r.mul(y[0], r.Power(z, 0)));
  }

  lemma LastStage<T(!new)>(r: Ring<T>, wlen: nat -> T, x: seq<T>, bits: nat, p: nat)
    requires IsRing(r) && |x| == Pow2(bits) && p < |x|
    ensures Stage(r, wlen, x, bits, bits, p) == Dft(r, x, Root(r, wlen, bits), p, |x|)
  {
    StartOfNone(bits);
    BlockAndOffset(0, bits, p);
    DftIsEval(r, x, Root(r, wlen, bits), p, |x|);
  }

  lemma {:induction false} ReverseZero(bits: nat)
    ensures Reverse(bits, 0) == 0
  {
    if bits > 0 {
      ReverseZero(bits - 1);
    }
  }

  /** The carry loop: from the reversal of i to the reversal of i + 1. */
  method NextReversed(n: nat, j0: nat, ghost bits: nat, ghost i: nat) returns (j: nat)
    requires bits > 0 && n == Pow2(bits) && i + 1 < n && j0 == Reverse(bits, i)
    ensures j == Reverse(bits, i + 1)
  {
    j := j0;
    ReverseSuccessor(bits, i);
    ReverseRange(bits, i);
    var bit := n / 2;
    ghost var e := bits - 1;
    while HasBit(j, bit)
      invariant -1 <= e && bit == (if e >= 0 then Pow2(e) else 0) && j < (if e >= 0 then Pow2(e + 1) else 1)
      invariant ReversedIncrement(j, bit) == Reverse(bits, i + 1)
      decreases bit
    {
      Carry(j, e);
      j := j - bit;
      bit := bit / 2;
      e := e - 1;
    }
    if e >= 0 {
      HasTopBit(j, e);
    }
    j := j + bit;
  }

  lemma Carry(j: nat, e: nat)
    requires HasBit(j, Pow2(e)) && j < Pow2(e + 1)
    ensures Pow2(e) <= j && ReversedIncrement(j, Pow2(e)) == ReversedIncrement(j - Pow2(e), Pow2(e) / 2)
    ensures Pow2(e) / 2 == (if e > 0 then Pow2(e - 1) else 0)
  {
    HasTopBit(j, e);
  }

  /** The first loop: position p receives the sample at the reversed index, each pair being swapped once. */
  method PermuteByReversal<T>(a: array<T>, ghost bits: nat)
    requires a.Length == Pow2(bits)
    modifies a
    ensures forall p :: 0 <= p < a.Length ==> Reverse(bits, p) < a.Length
    ensures forall p :: 0 <= p < a.Length ==> a[p] == old(a[Reverse(bits, p)])
  {
    var n := a.Length;
    forall p | 0 <= p < n
      ensures Reverse(bits, p) < n && Reverse(bits, Reverse(bits, p)) == p
    {
      ReverseInvolution(bits, p);
    }
    ReverseZero(bits);
    var i, j := 1, 0;
    while i < n
      invariant 1 <= i <= n
      invariant j == Reverse(bits, i - 1)
      invariant forall p :: 0 <= p < n ==>
        a[p] == if p < i || Reverse(bits, p) < i then old(a[Reverse(bits, p)]) else old(a[p])
    {
      j := NextReversed(n, j, bits, i - 1);
      if i < j {
        a[i], a[j] := a[j], a[i];
      }
      i := i + 1;
    }
  }

  /** What the butterflies of the block at i leave at p in its first half, and at q in its second. */
  function Upper<T>(r: Ring<T>, before: seq<T>, i: nat, half: nat, root: T, p: nat): T
    requires i <= p && p + half < |before|
  {
    r.add(before[p], r.mul(before[p + half], r.Power(root, p - i)))
  }

  function Lower<T>(r: Ring<T>, before: seq<T>, i: nat, half: nat, root: T, q: nat): T
    requires i + half <= q < |before|
  {
    r.Sub(before[q - half], r.mul(before[q], r.Power(root, q - half - i)))
  }

  /** `after` is `before` with the first `done` butterflies of the block at i carried out. */
  ghost predicate BlockPart<T>(r: Ring<T>, before: seq<T>, after: seq<T>, i: nat, half: nat, done: nat, root: T)
    requires done <= half && i + 2 * half <= |before| == |after|
  {
    && (forall p {:trigger after[p]} :: i <= p < i + done ==> after[p] == Upper(r, before, i, half, root, p))
    && (forall q {:trigger after[q]} :: i + half <= q < i + half + done ==> after[q] == Lower(r, before, i, half, root, q))
    && (forall p {:trigger after[p]} :: 0 <= p < |before| && !(i <= p < i + done) && !(i + half <= p < i + half + done) ==>
          after[p] == before[p])
  }

  lemma Butterfly<T>(r: Ring<T>, before: seq<T>, i: nat, half: nat, root: T, j: nat, u: T, v: T)
    requires j < half && i + 2 * half <= |before|
    requires u == before[i + j] && v == r.mul(before[i + j + half], r.Power(root, j))
    ensures Upper(r, before, i, half, root, i + j) == r.add(u, v) && Lower(r, before, i, half, root, i + j + half) == r.Sub(u, v)
  {
    assert i + j - i == j && i + j + half - half - i == j && i + j + half - half == i + j;
  }

  lemma BlockPartStep<T>(r: Ring<T>, before: seq<T>, s: seq<T>, i: nat, half: nat, j: nat, root: T, u: T, v: T)
    requires j < half && i + 2 * half <= |before| == |s|
    requires BlockPart(r, before, s, i, half, j, root)
    requires u == s[i + j] && v == r.mul(s[i + j + half], r.Power(root, j))
    ensures BlockPart(r, before, s[i + j := r.add(u, v)][i + j + half := r.Sub(u, v)], i, half, j + 1, root)
  {
    hide Upper, Lower, Ring.Power, Ring.Sub;
    Butterfly(r, before, i, half, root, j, u, v);
  }

  /** The innermost loop: the butterflies of the block that starts at i. */
  method ButterflyBlock<T>(r: Ring<T>, a: array<T>, i: nat, half: nat, root: T)
    requires i + 2 * half <= a.Length
    modifies a
    ensures BlockPart(r, old(a[..]), a[..], i, half, half, root)
  {
    var w := r.one;
    for j := 0 to half
      invariant w == r.Power(root, j)
      invariant BlockPart(r, old(a[..]), a[..], i, half, j, root)
    {
      ghost var s := a[..];
      var u, v := a[i + j], r.mul(a[i + j + half], w);
      a[i + j] := r.add(u, v);
      a[i + j + half] := r.Sub(u, v);
      BlockPartStep(r, old(a[..]), s, i, half, j, root, u, v);
      assert a[..] == s[i + j := r.add(u, v)][i + j + half := r.Sub(u, v)];
      w := r.mul(w, root);
    }
  }

  /** s is what the whole array holds at stage e. */
  ghost predicate HoldsStage<T>(s: seq<T>, r: Ring<T>, wlen: nat -> T, x: seq<T>, bits: nat, e: nat) {
    && |s| == |x| == Pow2(bits) && e <= bits
    && forall p {:trigger HoldsAt(s, r, wlen, x, bits, e, p)} :: 0 <= p < |s| ==> HoldsAt(s, r, wlen, x, bits, e, p)
  }

  ghost predicate HoldsAt<T>(s: seq<T>, r: Ring<T>, wlen: nat -> T, x: seq<T>, bits: nat, e: nat, p: nat)
    requires |s| == |x| == Pow2(bits) && e <= bits && p < |s|
  {
    s[p] == Stage(r, wlen, x, bits, e, p)
  }

  lemma StageExists<T>(r: Ring<T>, wlen: nat -> T, x: seq<T>, bits: nat, e: nat) returns (s: seq<T>)
    requires |x| == Pow2(bits) && e <= bits
    ensures HoldsStage(s, r, wlen, x, bits, e)
  {
    s := seq(|x|, p requires 0 <= p < |x| => Stage(r, wlen, x, bits, e, p));
  }

  /** In every block of `size` = 2^(e+1), `next` holds the butterflies of `now`. */
  ghost predicate NextStage<T>(r: Ring<T>, now: seq<T>, next: seq<T>, e: nat, root: T)
    requires |now| == |next|
  {
    forall b {:trigger Start(b, e + 1)} :: Start(b, e + 1) + Pow2(e + 1) <= |now| ==>
      BlockOf(r, now, next, Start(b, e + 1), Pow2(e), root)
  }

  ghost predicate BlockOf<T>(r: Ring<T>, now: seq<T>, next: seq<T>, i: nat, half: nat, root: T)
    requires i + 2 * half <= |now| == |next|
  {
    && (forall p {:trigger next[p]} :: i <= p < i + half ==>
          next[p] == r.add(now[p], r.mul(now[p + half], r.Power(root, p - i))))
    && (forall p {:trigger next[p]} :: i + half <= p < i + 2 * half ==>
          next[p] == r.Sub(now[p - half], r.mul(now[p], r.Power(root, p - i - half))))
  }

  lemma StagesFollow<T(!new)>(r: Ring<T>, wlen: nat -> T, x: seq<T>, bits: nat, e: nat, now: seq<T>, next: seq<T>)
    requires IsRing(r) && RootsOfUnity(r, wlen, bits) && e < bits
    requires HoldsStage(now, r, wlen, x, bits, e) && HoldsStage(next, r, wlen, x, bits, e + 1)
    ensures NextStage(r, now, next, e, Root(r, wlen, e + 1))
  {
    forall b: nat {:trigger Start(b, e + 1)} | Start(b, e + 1) + Pow2(e + 1) <= |x|
      ensures BlockOf(r, now, next, Start(b, e + 1), Pow2(e), Root(r, wlen, e + 1))
    {
      BlockFollows(r, wlen, x, bits, e, b, now, next, Start(b, e + 1), Pow2(e), Root(r, wlen, e + 1));
    }
  }

  lemma BlockFollows<T(!new)>(r: Ring<T>, wlen: nat -> T, x: seq<T>, bits: nat, e: nat, b: nat, now: seq<T>, next: seq<T>,
                              i: nat, half: nat, root: T)
    requires IsRing(r) && RootsOfUnity(r, wlen, bits) && e < bits
    requires HoldsStage(now, r, wlen, x, bits, e) && HoldsStage(next, r, wlen, x, bits, e + 1)
    requires i == Start(b, e + 1) && half == Pow2(e) && root == Root(r, wlen, e + 1) && i + 2 * half <= |x|
    ensures BlockOf(r, now, next, i, half, root)
  {
    SumsFollow(r, wlen, x, bits, e, b, now, next, i, half, root);
    DifferencesFollow(r, wlen, x, bits, e, b, now, next, i, half, root);
  }

  lemma SumsFollow<T(!new)>(r: Ring<T>, wlen: nat -> T, x: seq<T>, bits: nat, e: nat, b: nat, now: seq<T>, next: seq<T>,
                            i: nat, half: nat, root: T)
    requires IsRing(r) && RootsOfUnity(r, wlen, bits) && e < bits
    requires HoldsStage(now, r, wlen, x, bits, e) && HoldsStage(next, r, wlen, x, bits, e + 1)
    requires i == Start(b, e + 1) && half == Pow2(e) && root == Root(r, wlen, e + 1) && i + 2 * half <= |x|
    ensures forall p {:trigger next[p]} :: i <= p < i + half ==>
      next[p] == r.add(now[p], r.mul(now[p + half], r.Power(root, p - i)))
  {
    forall p {:trigger next[p]} | i <= p < i + half
      ensures next[p] == r.add(now[p], r.mul(now[p + half], r.Power(root, p - i)))
    {
      StagePair(r, wlen, x, bits, e, b, now, next, p - i, p, p + half, root);
    }
  }

  lemma DifferencesFollow<T(!new)>(r: Ring<T>, wlen: nat -> T, x: seq<T>, bits: nat, e: nat, b: nat, now: seq<T>, next: seq<T>,
                                   i: nat, half: nat, root: T)
    requires IsRing(r) && RootsOfUnity(r, wlen, bits) && e < bits
    requires HoldsStage(now, r, wlen, x, bits, e) && HoldsStage(next, r, wlen, x, bits, e + 1)
    requires i == Start(b, e + 1) && half == Pow2(e) && root == Root(r, wlen, e + 1) && i + 2 * half <= |x|
    ensures forall p {:trigger next[p]} :: i + half <= p < i + 2 * half ==>
      next[p] == r.Sub(now[p - half], r.mul(now[p], r.Power(root, p - i - half)))
  {
    forall p {:trigger next[p]} | i + half <= p < i + 2 * half
      ensures next[p] == r.Sub(now[p - half], r.mul(now[p], r.Power(root, p - i - half)))
    {
      StagePair(r, wlen, x, bits, e, b, now, next, p - i - half, p - half, p, root);
    }
  }

  lemma StagePair<T(!new)>(r: Ring<T>, wlen: nat -> T, x: seq<T>, bits: nat, e: nat, b: nat, now: seq<T>, next: seq<T>,
                           j: nat, p: nat, q: nat, root: T)
    requires IsRing(r) && RootsOfUnity(r, wlen, bits) && e < bits && j < Pow2(e)
    requires HoldsStage(now, r, wlen, x, bits, e) && HoldsStage(next, r, wlen, x, bits, e + 1)
    requires p == Start(b, e + 1) + j && q == p + Pow2(e) && root == Root(r, wlen, e + 1) && q < |x|
    ensures var v := r.mul(now[q], r.Power(root, j)); next[p] == r.add(now[p], v) && next[q] == r.Sub(now[p], v)
  {
    assert HoldsAt(now, r, wlen, x, bits, e, p) && HoldsAt(now, r, wlen, x, bits, e, q);
    assert HoldsAt(next, r, wlen, x, bits, e + 1, p) && HoldsAt(next, r, wlen, x, bits, e + 1, q);
    StageStep(r, wlen, x, bits, e, b, j, p, q);
  }

  /** The middle loop: one stage over all blocks. */
  method ButterflyStage<T>(r: Ring<T>, a: array<T>, len: nat, root: T, ghost next: seq<T>, ghost bits: nat, ghost e: nat)
    requires a.Length == |next| == Pow2(bits) && e < bits && len == Pow2(e + 1)
    requires NextStage(r, a[..], next, e, root)
    modifies a
    ensures a[..] == next
  {
    ghost var now := a[..];
    var i := 0;
    ghost var b := 0;
    StartOfNone(e + 1);
    while i < a.Length
      invariant i <= a.Length && i == Start(b, e + 1)
      invariant Blend(a[..], now, next, i)
    {
      StartWithin(bits, e, b);
      ghost var before := a[..];
      ButterflyBlock(r, a, i, len / 2, root);
      StageAdvances(r, now, next, before, a[..], e, b, i, len / 2, root);
      i := i + len;
      b := b + 1;
    }
    BlendDone(a[..], now, next);
  }

  lemma StartWithin(bits: nat, e: nat, b: nat)
    requires e < bits && Start(b, e + 1) < Pow2(bits)
    ensures Start(b, e + 1) + Pow2(e + 1) == Start(b + 1, e + 1) <= Pow2(bits)
    ensures Pow2(e + 1) == 2 * Pow2(e)
  {
    BlockFits(bits, e + 1, b);
    StartNext(b, e + 1);
  }

  lemma StageAdvances<T>(r: Ring<T>, now: seq<T>, next: seq<T>, before: seq<T>, after: seq<T>,
                         e: nat, b: nat, i: nat, half: nat, root: T)
    requires i == Start(b, e + 1) && half == Pow2(e)
    requires |now| == |next| == |before| == |after| && i + 2 * half <= |now|
    requires NextStage(r, now, next, e, root)
    requires BlockPart(r, before, after, i, half, half, root)
    requires Blend(before, now, next, i)
    ensures Blend(after, now, next, i + 2 * half)
  {
    assert BlockOf(r, now, next, Start(b, e + 1), Pow2(e), root);
    BlockAgrees(r, now, next, before, after, i, half, root);
  }

  ghost predicate Blend<T>(s: seq<T>, now: seq<T>, next: seq<T>, i: nat)
    requires |s| == |now| == |next|
  {
    && (forall p {:trigger s[p]} :: 0 <= p < i && p < |s| ==> s[p] == next[p])
    && (forall p {:trigger s[p]} :: i <= p < |s| ==> s[p] == now[p])
  }

  lemma BlendDone<T>(s: seq<T>, now: seq<T>, next: seq<T>)
    requires |s| == |now| == |next| && Blend(s, now, next, |s|)
    ensures s == next
  {
  }

  lemma BlockAgrees<T>(r: Ring<T>, now: seq<T>, next: seq<T>, before: seq<T>, after: seq<T>, i: nat, half: nat, root: T)
    requires i + 2 * half <= |now| == |next| == |before| == |after|
    requires BlockOf(r, now, next, i, half, root) && BlockPart(r, before, after, i, half, half, root)
    requires Blend(before, now, next, i)
    ensures Blend(after, now, next, i + 2 * half)
  {
    forall p {:trigger after[p]} | 0 <= p < |after|
      ensures after[p] == if p < i + 2 * half then next[p] else now[p]
    {
      if i <= p < i + half {
        assert before[p] == now[p] && before[p + half] == now[p + half] && next[p] == next[p];
      } else if i + half <= p < i + 2 * half {
        assert before[p] == now[p] && before[p - half] == now[p - half] && next[p] == next[p];
      } else {
        assert after[p] == before[p];
      }
    }
  }

  /** The array contents after each stage. */
  ghost predicate StageHistory<T>(r: Ring<T>, wlen: nat -> T, stages: seq<seq<T>>, bits: nat) {
    && |stages| == bits + 1
    && (forall e {:trigger stages[e]} :: 0 <= e <= bits ==> |stages[e]| == Pow2(bits))
    && (forall e: nat {:trigger Advances(r, wlen, stages, e)} :: e < bits ==> Advances(r, wlen, stages, e))
  }

  ghost predicate Advances<T>(r: Ring<T>, wlen: nat -> T, stages: seq<seq<T>>, e: nat)
    requires e + 1 < |stages| && |stages[e]| == |stages[e + 1]|
  {
    NextStage(r, stages[e], stages[e + 1], e, wlen(Pow2(e + 1)))
  }

  lemma HistoryExists<T(!new)>(r: Ring<T>, wlen: nat -> T, x: seq<T>, bits: nat, first: seq<T>) returns (stages: seq<seq<T>>)
    requires IsRing(r) && RootsOfUnity(r, wlen, bits) && HoldsStage(first, r, wlen, x, bits, 0)
    ensures StageHistory(r, wlen, stages, bits)
    ensures stages[0] == first && HoldsStage(stages[bits], r, wlen, x, bits, bits)
  {
    stages := [first];
    var e := 0;
    while e < bits
      invariant e <= bits && |stages| == e + 1 && stages[0] == first
      invariant HoldsStage(stages[e], r, wlen, x, bits, e)
      invariant forall d {:trigger stages[d]} :: 0 <= d <= e ==> |stages[d]| == Pow2(bits)
      invariant forall d: nat {:trigger Advances(r, wlen, stages, d)} :: d < e ==> Advances(r, wlen, stages, d)
    {
      var next := StageExists(r, wlen, x, bits, e + 1);
      StagesFollow(r, wlen, x, bits, e, stages[e], next);
      ghost var before := stages;
      stages := stages + [next];
      forall d: nat {:trigger Advances(r, wlen, stages, d)} | d < e + 1
        ensures Advances(r, wlen, stages, d)
      {
        if d < e {
          assert Advances(r, wlen, before, d);
        }
      }
      e := e + 1;
    }
  }

  /** The outer butterfly loop, over the stages. */
  method ButterflyStages<T>(r: Ring<T>, wlen: nat -> T, a: array<T>, ghost stages: seq<seq<T>>, ghost bits: nat)
    requires StageHistory(r, wlen, stages, bits) && a[..] == stages[0]
    modifies a
    ensures a[..] == stages[bits]
  {
    var len := 2;
    ghost var e := 0;
    while len <= a.Length
      invariant e <= bits && len == Pow2(e + 1)
      invariant a[..] == stages[e]
      decreases 2 * a.Length - len
    {
      Pow2Ordered(e + 1, bits);
      assert Advances(r, wlen, stages, e);
      ButterflyStage(r, a, len, wlen(len), stages[e + 1], bits, e);
      len := 2 * len;
      e := e + 1;
    }
    Pow2Ordered(e + 1, bits);
  }

  /** The array ends up holding the discrete Fourier transform of what it held. */
  method FftInplace<T(!new)>(r: Ring<T>, wlen: nat -> T, a: array<T>, ghost bits: nat)
    requires IsRing(r) && RootsOfUnity(r, wlen, bits)
    requires a.Length == 0 || a.Length == Pow2(bits)
    modifies a
    ensures a.Length > 0 ==> a[..] == Spectrum(r, wlen, old(a[..]), bits)
  {
    if a.Length > 0 {
      ghost var x := a[..];
      PermuteByReversal(a, bits);
      FirstStages(r, wlen, x, bits, a[..]);
      ghost var stages := HistoryExists(r, wlen, x, bits, a[..]);
      ButterflyStages(r, wlen, a, stages, bits);
      LastStages(r, wlen, x, bits, a[..]);
    }
  }

  /** Every output of the transform of x, for the root of order |x| = 2^bits. */
  ghost function Spectrum<T>(r: Ring<T>, wlen: nat -> T, x: seq<T>, bits: nat): seq<T> {
    seq(|x|, k requires 0 <= k < |x| => Dft(r, x, Root(r, wlen, bits), k, |x|))
  }

  lemma FirstStages<T(!new)>(r: Ring<T>, wlen: nat -> T, x: seq<T>, bits: nat, a: seq<T>)
    requires IsRing(r) && |x| == |a| == Pow2(bits)
    requires forall p :: 0 <= p < |a| ==> Reverse(bits, p) < |a|
    requires forall p :: 0 <= p < |a| ==> a[p] == x[Reverse(bits, p)]
    ensures HoldsStage(a, r, wlen, x, bits, 0)
  {
    forall p | 0 <= p < |a|
      ensures HoldsAt(a, r, wlen, x, bits, 0, p)
    {
      FirstStage(r, wlen, x, bits, p);
    }
  }

  lemma LastStages<T(!new)>(r: Ring<T>, wlen: nat -> T, x: seq<T>, bits: nat, a: seq<T>)
    requires IsRing(r) && HoldsStage(a, r, wlen, x, bits, bits)
    ensures a == Spectrum(r, wlen, x, bits)
  {
    forall p | 0 <= p < |x|
      ensures a[p] == Dft(r, x, Root(r, wlen, bits), p, |x|)
    {
      assert HoldsAt(a, r, wlen, x, bits, bits, p);
      LastStage(r, wlen, x, bits, p);
    }
  }

  lemma Pow2Ordered(a: nat, b: nat)
    ensures Pow2(a) <= Pow2(b) <==> a <= b
  {
    if a <= b {
      Pow2Monotone(a, b);
    } else {
      Pow2Monotone(b + 1, a);
    }
  }

  lemma {:induction false} Pow2Monotone(a: nat, b: nat)
    requires a <= b
    ensures Pow2(a) <= Pow2(b)
  {
    if a < b {
      Pow2Monotone(a, b - 1);
    }
  }
}
