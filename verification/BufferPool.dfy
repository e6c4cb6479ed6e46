/** The memory of a transport's frames: padded, aligned, and cut out of one allocation, in the arithmetic of a 64-bit size_t. */
module BufferPool {
  import Arithmetic

  const WORD := 0x1_0000_0000_0000_0000

  /** A size_t or an address. */
  type Size = n: nat | n < WORD

  function Plus(x: Size, y: Size): Size {
    if x + y < WORD then x + y else x + y - WORD
  }

  function Minus(x: Size, y: Size): Size {
    if y <= x then x - y else x + WORD - y
  }

  /** i times p, wrapping like size_t. */
  function Product(p: Size, i: nat): Size {
    if i == 0 then 0 else Plus(Product(p, i - 1), p)
  }

  lemma WrapsOnce(x: nat, y: Size)
    ensures Plus(x % WORD, y) == (x + y) % WORD
  {
    var q, r := x / WORD, x % WORD;
    if r + y < WORD {
      Arithmetic.DivUnique(x + y, WORD, q, r + y);
    } else {
      Arithmetic.DivUnique(x + y, WORD, q + 1, r + y - WORD);
    }
  }

  /** Wrapping at every step or once at the end is the same. */
  lemma {:induction false} ProductWraps(p: Size, i: nat)
    ensures p * i >= 0 && Product(p, i) == p * i % WORD
  {
    if i > 0 {
      ProductWraps(p, i - 1);
      WrapsOnce(p * (i - 1), p);
      assert p * i == p * (i - 1) + p;
    }
  }

  lemma {:induction false} ProductFits(p: Size, i: nat)
    requires i * p < WORD
    ensures Product(p, i) == i * p
  {
    if i > 0 {
      assert i * p == (i - 1) * p + p;
      assert (i - 1) * p >= 0;
      ProductFits(p, i - 1);
    }
  }

  /** pad_to_boundary. */
  function Pad(bytes: Size, alignment: Size): Size
    requires alignment > 0
  {
    Plus(bytes, Minus(alignment, bytes) % alignment)
  }

  /** r is the least multiple of the alignment that is no smaller than bytes. */
  ghost predicate RoundsUp(r: int, bytes: nat, alignment: nat)
    requires alignment > 0
  {
    r % alignment == 0 && bytes <= r < bytes + alignment
  }

  lemma Divides(a: nat, x: int) returns (q: int)
    requires a > 0 && x % a == 0
    ensures x == q * a
  {
    q := x / a;
  }

  lemma ProductBounds(d: int, a: nat)
    ensures d >= 1 ==> d * a >= a
    ensures d <= 0 ==> d * a <= 0
    ensures d <= -1 ==> d * a + a <= 0
  {
    assert d * a == a + (d - 1) * a;
    assert d * a + a == (d + 1) * a;
  }

  lemma MultipleOf(a: nat, q: int)
    requires a > 0
    ensures (q * a) % a == 0
  {
    var d, m := (q * a) / a, (q * a) % a;
    assert (q - d) * a == m;
    ProductBounds(q - d, a);
  }

  lemma SumDivides(a: nat, x: int, y: int)
    requires a > 0 && x % a == 0 && y % a == 0
    ensures (x + y) % a == 0 && (x - y) % a == 0
  {
    var p := Divides(a, x);
    var q := Divides(a, y);
    assert x + y == (p + q) * a && x - y == (p - q) * a;
    MultipleOf(a, p + q);
    MultipleOf(a, p - q);
  }

  /** Multiples of the alignment lie at least the alignment apart. */
  lemma MultiplesApart(a: nat, x: int, y: int)
    requires a > 0 && x % a == 0 && y % a == 0 && x < y
    ensures x + a <= y
  {
    var p := Divides(a, x);
    var q := Divides(a, y);
    assert (q - p) * a == y - x;
    ProductBounds(q - p, a);
  }

  /** y and its remainder fill x up to a multiple alike. */
  lemma Fill(a: nat, x: int, y: nat)
    requires a > 0
    ensures (x + y) % a == 0 <==> (x + y % a) % a == 0
  {
    var q := y / a;
    assert y == q * a + y % a;
    MultipleOf(a, q);
    if (x + y) % a == 0 {
      SumDivides(a, x + y, q * a);
      assert x + y - q * a == x + y % a;
    }
    if (x + y % a) % a == 0 {
      SumDivides(a, x + y % a, q * a);
      assert x + y % a + q * a == x + y;
    }
  }

  lemma PadSmall(bytes: Size, a: Size)
    requires 0 < a && bytes <= a
    ensures RoundsUp(Pad(bytes, a), bytes, a)
  {
    MultipleOf(a, 0);
    MultipleOf(a, 1);
    if bytes > 0 {
      Arithmetic.Below(a - bytes, a);
    }
  }

  lemma PadLarge(bytes: Size, a: Size)
    requires 0 < a < bytes && WORD % a == 0
    ensures RoundsUp(Pad(bytes, a), bytes, a) <==> bytes + a <= WORD
  {
    var y := WORD + a - bytes;
    var r := bytes + y % a;
    MultipleOf(a, 1);
    SumDivides(a, WORD, a);
    assert bytes + y == WORD + a;
    Fill(a, bytes, y);
    if bytes + a > WORD && r < WORD {
      MultiplesApart(a, r, WORD);
    }
  }

  lemma PadMisses(bytes: Size, a: Size)
    requires 0 < a < bytes && WORD % a != 0
    ensures !RoundsUp(Pad(bytes, a), bytes, a)
  {
    var y := WORD + a - bytes;
    assert bytes + y == WORD + a;
    MultipleOf(a, 1);
    Fill(a, bytes, y);
    if (WORD + a) % a == 0 {
      SumDivides(a, WORD + a, a);
    }
  }

  /**
   * Rounding up works exactly when the size is at most the alignment, or the alignment divides 2^64 and the result
   * does not pass it: alignment - bytes is computed modulo 2^64, whose remainder is that of the true difference only then.
   */
  lemma PadRoundsUp(bytes: Size, alignment: Size)
    requires alignment > 0
    ensures RoundsUp(Pad(bytes, alignment), bytes, alignment)
            <==> bytes <= alignment || (WORD % alignment == 0 && bytes + alignment <= WORD)
  {
    if bytes <= alignment {
      PadSmall(bytes, alignment);
    } else if WORD % alignment == 0 {
      PadLarge(bytes, alignment);
    } else {
      PadMisses(bytes, alignment);
    }
  }

  /** The bytes buffer_pool::make allocates. */
  function AllocationSize(frames: nat, padded: Size, alignment: Size): Size
    requires alignment > 0
  {
    Minus(Plus(Product(padded, frames), alignment), 1)
  }

  /** Where frame i starts when the allocator returned the address memory. */
  function Address(memory: Size, padded: Size, alignment: Size, i: nat): Size
    requires alignment > 0
  {
    Plus(Pad(memory, alignment), Product(padded, i))
  }

  /** p is i padded sizes behind the start, modulo 2^64. */
  ghost predicate FrameAt(p: nat, start: nat, padded: nat, i: nat) {
    p == (start + padded * i) % 0x1_0000_0000_0000_0000
  }

  /** buffer_pool::make: one allocation, then the frames' addresses. */
  method Make(frames: nat, bytes: Size, alignment: Size, memory: Size) returns (ptrs: array<Size>)
    requires alignment > 0
    ensures fresh(ptrs) && ptrs.Length == frames
    ensures forall i :: 0 <= i < frames ==> ptrs[i] == Address(memory, Pad(bytes, alignment), alignment, i)
    ensures forall i: nat {:trigger ptrs[i]} :: i < frames ==> FrameAt(ptrs[i], Pad(memory, alignment), Pad(bytes, alignment), i)
  {
    var padded := Pad(bytes, alignment);
    var start := Pad(memory, alignment);
    ptrs := new Size[frames];
    for i := 0 to frames
      invariant forall k :: 0 <= k < i ==> ptrs[k] == Address(memory, padded, alignment, k)
      invariant forall k: nat {:trigger ptrs[k]} :: k < i ==> FrameAt(ptrs[k], start, padded, k)
    {
      ProductWraps(padded, i);
      WrapsOnce(padded * i, start);
      ptrs[i] := Plus(start, padded * i % WORD);
    }
  }

  /** Every frame is aligned, lies inside the allocation and overlaps no other. */
  ghost predicate Sound(frames: nat, bytes: Size, alignment: Size, memory: Size)
    requires alignment > 0
  {
    var padded := Pad(bytes, alignment);
    && (forall i {:trigger Address(memory, padded, alignment, i)} :: 0 <= i < frames ==>
          Inside(Address(memory, padded, alignment, i), bytes, alignment, memory, AllocationSize(frames, padded, alignment)))
    && (forall i, j {:trigger Address(memory, padded, alignment, i), Address(memory, padded, alignment, j)} :: 0 <= i < j < frames ==>
          Apart(Address(memory, padded, alignment, i), Address(memory, padded, alignment, j), bytes))
  }

  ghost predicate Inside(p: nat, bytes: nat, alignment: nat, memory: nat, size: nat)
    requires alignment > 0
  {
    p % alignment == 0 && memory <= p && p + bytes <= memory + size
  }

  predicate Apart(p: nat, q: nat, bytes: nat) {
    p + bytes <= q || q + bytes <= p
  }

  /** What the allocator and the callers guarantee: an alignment that divides 2^64, and an allocation inside the address space. */
  ghost predicate Allocated(frames: nat, bytes: Size, alignment: Size, memory: Size) {
    && 0 < alignment && WORD % alignment == 0
    && 0 < bytes && bytes + alignment <= WORD
    && 0 < frames
    && memory + AllocationSize(frames, Pad(bytes, alignment), alignment) <= WORD
  }

  /** The padded size is a multiple of the alignment that leaves room for one more. */
  lemma PaddedSize(bytes: Size, a: Size) returns (padded: Size)
    requires 0 < a && WORD % a == 0 && 0 < bytes && bytes + a <= WORD
    ensures padded == Pad(bytes, a) && RoundsUp(padded, bytes, a) && padded + a <= WORD
  {
    padded := Pad(bytes, a);
    PadRoundsUp(bytes, a);
    MultiplesApart(a, padded, WORD);
  }

  lemma {:induction false} TimesDivides(a: nat, p: nat, i: nat)
    requires a > 0 && p % a == 0
    ensures (i * p) % a == 0
  {
    if i > 0 {
      TimesDivides(a, p, i - 1);
      SumDivides(a, (i - 1) * p, p);
      assert i * p == (i - 1) * p + p;
    }
  }

  lemma TimesMonotone(p: nat, i: nat, j: nat)
    requires i < j
    ensures i * p + p <= j * p
  {
    assert (j - i - 1) * p >= 0;
    assert j * p == i * p + p + (j - i - 1) * p;
  }

  /** Without overflow the frames lie one padded size apart from the first multiple of the alignment on. */
  lemma RoomMakesSound(frames: nat, bytes: Size, a: Size, memory: Size)
    requires Allocated(frames, bytes, a, memory)
    requires frames * Pad(bytes, a) + a - 1 < WORD
    ensures Sound(frames, bytes, a, memory)
  {
    var p := PaddedSize(bytes, a);
    var total := frames * p;
    ProductFits(p, frames);
    TimesMonotone(p, 0, frames);
    assert AllocationSize(frames, p, a) == total + a - 1;
    PadRoundsUp(memory, a);
    var start := Pad(memory, a);
    forall i | 0 <= i < frames
      ensures Address(memory, p, a, i) == start + i * p
      ensures Inside(start + i * p, bytes, a, memory, total + a - 1)
    {
      TimesMonotone(p, i, frames);
      ProductFits(p, i);
      TimesDivides(a, p, i);
      SumDivides(a, start, i * p);
    }
    forall i, j | 0 <= i < j < frames
      ensures Apart(Address(memory, p, a, i), Address(memory, p, a, j), bytes)
    {
      TimesMonotone(p, i, j);
    }
  }

  /** The first frame whose address passes 2^64 lands on the first frame. */
  lemma WrappedFrameOverlaps(frames: nat, bytes: Size, a: Size, memory: Size, i: nat)
    requires Allocated(frames, bytes, a, memory) && RoundsUp(Pad(memory, a), memory, a)
    requires 0 < i < frames
    requires Pad(memory, a) + (i - 1) * Pad(bytes, a) < WORD <= Pad(memory, a) + i * Pad(bytes, a)
    ensures !Sound(frames, bytes, a, memory)
  {
    var p := PaddedSize(bytes, a);
    var start := Pad(memory, a);
    assert i * p == (i - 1) * p + p;
    ProductFits(p, i - 1);
    var first, wrapped := Address(memory, p, a, 0), Address(memory, p, a, i);
    assert first == start && wrapped == start + i * p - WORD;
    if Sound(frames, bytes, a, memory) {
      assert Apart(first, wrapped, bytes);
      assert Inside(wrapped, bytes, a, memory, AllocationSize(frames, p, a));
      if wrapped < start {
        MultiplesApart(a, wrapped, start);
      }
      SumDivides(a, wrapped, start);
      MultiplesApart(a, wrapped - start, p);
      assert false;
    }
  }

  lemma OverflowFits(frames: nat, bytes: Size, a: Size, memory: Size)
    requires Allocated(frames, bytes, a, memory) && RoundsUp(Pad(memory, a), memory, a)
    requires Pad(memory, a) + (frames - 1) * Pad(bytes, a) < WORD <= frames * Pad(bytes, a)
    ensures !Sound(frames, bytes, a, memory)
  {
    var p := PaddedSize(bytes, a);
    var k := frames - 1;
    assert frames * p == k * p + p;
    ProductFits(p, k);
    var last := Address(memory, p, a, k);
    assert last == Pad(memory, a) + k * p;
    assert AllocationSize(frames, p, a) == frames * p - WORD + a - 1;
    assert !Inside(last, bytes, a, memory, AllocationSize(frames, p, a));
  }

  /** The first frame that passes 2^64, if any does. */
  lemma {:induction false} FirstWrapped(start: nat, p: nat, frames: nat) returns (i: nat)
    requires start < WORD <= start + frames * p
    ensures 0 < i <= frames && start + (i - 1) * p < WORD <= start + i * p
  {
    i := 1;
    while start + i * p < WORD
      invariant 0 < i <= frames
      invariant start + (i - 1) * p < WORD
      decreases frames - i
    {
      i := i + 1;
    }
  }

  /**
   * The pool's frames are aligned, inside the allocation and disjoint exactly when the size of the whole allocation
   * does not overflow: the code checks neither, and the allocation it makes after an overflow is too small.
   */
  lemma PoolIsSound(frames: nat, bytes: Size, alignment: Size, memory: Size)
    requires Allocated(frames, bytes, alignment, memory)
    ensures Sound(frames, bytes, alignment, memory) <==> frames * Pad(bytes, alignment) + alignment - 1 < WORD
  {
    var a := alignment;
    var p := PaddedSize(bytes, a);
    if frames * p + a - 1 < WORD {
      RoomMakesSound(frames, bytes, a, memory);
    } else {
      TimesDivides(a, p, frames);
      if frames * p < WORD {
        MultiplesApart(a, frames * p, WORD);
      }
      PadRoundsUp(memory, a);
      if memory + a <= WORD {
        var i := FirstWrapped(Pad(memory, a), p, frames);
        if i < frames {
          WrappedFrameOverlaps(frames, bytes, a, memory, i);
        } else {
          OverflowFits(frames, bytes, a, memory);
        }
      } else if Sound(frames, bytes, a, memory) {
        assert Inside(Address(memory, p, a, 0), bytes, a, memory, AllocationSize(frames, p, a));
        MultiplesApart(a, Address(memory, p, a, 0), WORD);
        assert false;
      }
    }
  }
}
