/** Division by a variable, by repeated subtraction: the solver reasons about it without nonlinear arithmetic. */
module Arithmetic {
  function Quot(n: nat, c: nat): nat
    requires c > 0
    decreases n
  {
    if n < c then 0 else 1 + Quot(n - c, c)
  }

  function Rem(n: nat, c: nat): nat
    requires c > 0
    decreases n
  {
    if n < c then n else Rem(n - c, c)
  }

  /** They are the ordinary quotient and remainder. */
  lemma {:induction false} QuotIsDiv(n: nat, c: nat)
    requires c > 0
    ensures Quot(n, c) == n / c && Rem(n, c) == n % c
    decreases n
  {
    if n >= c {
      QuotIsDiv(n - c, c);
      OneMore(n - c, c);
    } else {
      Below(n, c);
    }
  }

  lemma Below(n: nat, c: nat)
    requires n < c
    ensures n / c == 0 && n % c == n
  {
  }

  lemma OneMore(n: nat, c: nat)
    requires c > 0
    ensures (n + c) / c == n / c + 1 && (n + c) % c == n % c
  {
    var q, m := n / c, n % c;
    assert n + c == (q + 1) * c + m;
    DivUnique(n + c, c, q + 1, m);
  }

  lemma DivUnique(n: nat, c: nat, q: nat, m: nat)
    requires m < c && n == q * c + m
    ensures n / c == q && n % c == m
  {
    var d, x := q - n / c, n % c;
    assert d * c == x - m by {
      assert n == (n / c) * c + x;
      assert d * c == q * c - (n / c) * c;
    }
    assert (-d) * c == -(d * c);
    if d >= 1 {
      MulAtLeast(d, c);
      assert false;
    }
    if d <= -1 {
      MulAtLeast(-d, c);
      assert false;
    }
    assert d == 0;
  }

  lemma MulAtLeast(d: int, c: nat)
    requires d >= 1
    ensures d * c >= c
  {
    assert d * c == c + (d - 1) * c;
  }

  /** Rounding up differs from rounding down exactly when there is a remainder. */
  lemma {:induction false} QuotCeil(n: nat, c: nat)
    requires c > 0
    ensures Quot(n + c - 1, c) == Quot(n, c) + (if Rem(n, c) == 0 then 0 else 1)
    decreases n
  {
    if n >= c {
      QuotCeil(n - c, c);
    } else if n > 0 {
      assert Quot(n + c - 1, c) == 1 + Quot(n - 1, c);
    }
  }

  /** k times m, by repeated addition. */
  function Times(k: nat, m: nat): nat {
    if k == 0 then 0 else Times(k - 1, m) + m
  }

  /** m goes into f at least k times when k <= f / m. */
  lemma {:induction false} TimesFits(k: nat, m: nat, f: nat)
    requires m > 0 && k <= Quot(f, m)
    ensures Times(k, m) <= f
    decreases f
  {
    if k > 0 {
      TimesFits(k - 1, m, f - m);
    }
  }

  /** Conversion of a real to an integer, toward zero. */
  function Trunc(x: real): int {
    if x >= 0.0 then x.Floor else -((-x).Floor)
  }
}
