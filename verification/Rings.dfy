/** Commutative rings as records of operations, and powers of an element. */
module Rings {
  datatype Ring<!T> = Ring(zero: T, one: T, add: (T, T) -> T, neg: T -> T, mul: (T, T) -> T) {
    function Sub(x: T, y: T): T { add(x, neg(y)) }

    /** Every ring law, at the given elements. */
    ghost predicate Laws(x: T, y: T, z: T) {
      && add(add(x, y), z) == add(x, add(y, z))
      && add(x, y) == add(y, x)
      && add(x, zero) == x
      && add(x, neg(x)) == zero
      && mul(mul(x, y), z) == mul(x, mul(y, z))
      && mul(x, y) == mul(y, x)
      && mul(x, one) == x
      && mul(x, add(y, z)) == add(mul(x, y), mul(x, z))
    }

    function Power(x: T, n: nat): T {
      if n == 0 then one else mul(Power(x, n - 1), x)
    }
  }

  /** The laws are only instantiated where a proof mentions Laws, which keeps proofs short for the solver. */
  ghost predicate IsRing<T(!new)>(r: Ring<T>) {
    forall x, y, z {:trigger r.Laws(x, y, z)} :: r.Laws(x, y, z)
  }

  lemma {:induction false} PowerSum<T(!new)>(r: Ring<T>, x: T, a: nat, b: nat)
    requires IsRing(r)
    ensures r.Power(x, a + b) == r.mul(r.Power(x, a), r.Power(x, b))
  {
    if b == 0 {
      assert r.Laws(r.Power(x, a), x, x);
    } else {
      PowerSum(r, x, a, b - 1);
      assert r.Power(x, a + b) == r.mul(r.Power(x, a + b - 1), x);
      assert r.Laws(r.Power(x, a), r.Power(x, b - 1), x);
    }
  }

  lemma {:induction false} PowerOfSquare<T(!new)>(r: Ring<T>, x: T, a: nat)
    requires IsRing(r)
    ensures r.Power(r.mul(x, x), a) == r.Power(x, 2 * a)
  {
    if a > 0 {
      PowerOfSquare(r, x, a - 1);
      assert r.Laws(r.Power(x, 2 * a - 2), x, x);
      assert r.Power(x, 2 * a - 1) == r.mul(r.Power(x, 2 * a - 2), x);
    }
  }

  lemma {:induction false} PowerOfPower<T(!new)>(r: Ring<T>, x: T, a: nat, b: nat)
    requires IsRing(r)
    ensures r.Power(r.Power(x, a), b) == r.Power(x, a * b)
  {
    if b > 0 {
      PowerOfPower(r, x, a, b - 1);
      assert a * b == a * (b - 1) + a;
      PowerSum(r, x, a * (b - 1), a);
    } else {
      assert a * b == 0;
    }
  }

  /** Multiplying by -1 is negation. */
  lemma TimesMinusOne<T(!new)>(r: Ring<T>, x: T)
    requires IsRing(r)
    ensures r.mul(x, r.neg(r.one)) == r.neg(x)
    ensures r.mul(r.neg(r.one), r.neg(r.one)) == r.one
    ensures r.neg(r.neg(x)) == x
  {
    NegTimes(r, r.one, x);
    NegTimes(r, r.one, r.neg(r.one));
    NegNeg(r, x);
    NegNeg(r, r.one);
    assert r.Laws(x, r.one, x) && r.Laws(r.neg(r.one), r.one, x);
  }

  lemma NegNeg<T(!new)>(r: Ring<T>, x: T)
    requires IsRing(r)
    ensures r.neg(r.neg(x)) == x
  {
    var n := r.neg(x);
    assert r.Laws(x, n, r.neg(n)) && r.Laws(n, r.neg(n), x) && r.Laws(r.zero, r.neg(n), x) && r.Laws(r.neg(n), r.zero, x);
  }

  lemma TimesZero<T(!new)>(r: Ring<T>, y: T)
    requires IsRing(r)
    ensures r.mul(y, r.zero) == r.zero
  {
    var z := r.mul(y, r.zero);
    assert r.Laws(y, r.zero, r.zero) && r.Laws(r.zero, r.zero, r.zero);
    assert r.Laws(z, z, r.neg(z)) && r.Laws(z, r.zero, z);
  }

  lemma NegTimes<T(!new)>(r: Ring<T>, x: T, y: T)
    requires IsRing(r)
    ensures r.mul(y, r.neg(x)) == r.neg(r.mul(y, x))
  {
    var p, q, n := r.mul(y, x), r.mul(y, r.neg(x)), r.neg(r.mul(y, x));
    TimesZero(r, y);
    assert r.Laws(y, x, r.neg(x)) && r.Laws(x, x, x);
    assert r.add(p, q) == r.zero;
    assert r.Laws(n, p, q) && r.Laws(p, n, q) && r.Laws(r.zero, q, q) && r.Laws(q, r.zero, q) && r.Laws(n, r.zero, q);
  }
}
