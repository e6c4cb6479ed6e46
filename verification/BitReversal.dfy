/** Powers of two and the bit-reversal permutation. */
module BitReversal {
  function Pow2(k: nat): (p: nat)
    ensures p >= 1
  {
    if k == 0 then 1 else 2 * Pow2(k - 1)
  }

  /** The low `bits` bits of i, written in the opposite order. */
  function Reverse(bits: nat, i: nat): nat {
    if bits == 0 then 0 else Reverse(bits - 1, i / 2) + (if i % 2 == 1 then Pow2(bits - 1) else 0)
  }

  /** Whether j has a bit in common with `bit`, a power of two or 0. */
  predicate HasBit(j: nat, bit: nat)
    decreases bit
  {
    if bit <= 1 then bit == 1 && j % 2 == 1 else HasBit(j / 2, bit / 2)
  }

  /** A binary increment of j < 2 * bit that starts at the top bit and carries downwards. */
  function ReversedIncrement(j: nat, bit: nat): nat
    decreases bit
  {
    if bit > 0 && j >= bit then ReversedIncrement(j - bit, bit / 2) else j + bit
  }

  lemma {:induction false} HasTopBit(j: nat, e: nat)
    requires j < Pow2(e + 1)
    ensures HasBit(j, Pow2(e)) <==> j >= Pow2(e)
  {
    if e > 0 {
      HasTopBit(j / 2, e - 1);
    }
  }

  lemma {:induction false} ReverseRange(bits: nat, i: nat)
    requires i < Pow2(bits)
    ensures Reverse(bits, i) < Pow2(bits)
  {
    if bits > 0 {
      ReverseRange(bits - 1, i / 2);
    }
  }

  /** The recursion of Reverse read from the other end of the number. */
  lemma {:induction false} ReverseFromTop(bits: nat, top: bool, low: nat)
    requires low < Pow2(bits)
    ensures Reverse(bits + 1, (if top then Pow2(bits) else 0) + low) == 2 * Reverse(bits, low) + (if top then 1 else 0)
  {
    var i := (if top then Pow2(bits) else 0) + low;
    if bits == 0 {
      assert low == 0;
      assert Reverse(1, i) == Reverse(0, i / 2) + (if i % 2 == 1 then Pow2(0) else 0);
    } else {
      assert i / 2 == (if top then Pow2(bits - 1) else 0) + low / 2 && i % 2 == low % 2;
      ReverseFromTop(bits - 1, top, low / 2);
      assert Reverse(bits + 1, i) == Reverse(bits, i / 2) + (if i % 2 == 1 then Pow2(bits) else 0);
    }
  }

  lemma {:induction false} ReverseInvolution(bits: nat, i: nat)
    requires i < Pow2(bits)
    ensures Reverse(bits, i) < Pow2(bits)
    ensures Reverse(bits, Reverse(bits, i)) == i
  {
    ReverseRange(bits, i);
    if bits > 0 {
      ReverseInvolution(bits - 1, i / 2);
      ReverseFromTop(bits - 1, i % 2 == 1, Reverse(bits - 1, i / 2));
    }
  }

  /** Counting up in ordinary order is counting with ReversedIncrement in reversed order. */
  lemma {:induction false} ReverseSuccessor(bits: nat, i: nat)
    requires bits > 0 && i + 1 < Pow2(bits)
    ensures Reverse(bits, i + 1) == ReversedIncrement(Reverse(bits, i), Pow2(bits - 1))
  {
    ReverseRange(bits - 1, i / 2);
    if i % 2 == 0 {
      assert (i + 1) / 2 == i / 2;
    } else {
      assert (i + 1) / 2 == i / 2 + 1 && bits > 1;
      assert Pow2(bits - 1) / 2 == Pow2(bits - 2);
      ReverseSuccessor(bits - 1, i / 2);
      assert Reverse(bits, i) == Reverse(bits - 1, i / 2) + Pow2(bits - 1);
    }
  }
}
