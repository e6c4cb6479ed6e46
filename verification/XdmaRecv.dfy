/** Receiving from the DMA device: a read is searched for the first valid packet header, which is moved to the frame's start. */
module XdmaRecv {
  import opened M300Protocol
  import opened Options

  /** Headers are looked for at every sixteenth byte. */
  const STEP: nat := 16

  /** header_is_valid. */
  predicate ValidHeader(h: Header, max: nat) {
    HEADER_BYTES <= h.length <= max && 0x5501 <= h.magic <= 0x5505
  }

  /** A valid header starts here: a length of at least the header's and at most the packet's, in three bytes, and a type from 0x5501 to 0x5505. */
  predicate HeaderAt(s: seq<byte>, at: nat, max: nat) {
    && at + 16 <= |s|
    && 16 <= Three(s[at], s[at + 1], s[at + 2]) <= max && 0x5501 <= Two(s[at + 6], s[at + 7]) <= 0x5505
  }

  lemma HeaderAtIs(s: seq<byte>, at: nat, max: nat)
    requires at + 8 <= |s|
    ensures ParseRaw(Load(s[at..at + 8])).length == Three(s[at], s[at + 1], s[at + 2])
    ensures HeaderAt(s, at, max) <==> at + STEP <= |s| && ValidHeader(ParseRaw(Load(s[at..at + 8])), max)
  {
    ParsedBytes(s[at..at + 8]);
  }

  /** Nothing in front of here looks like a header. */
  ghost predicate NoneBefore(s: seq<byte>, at: nat, max: nat) {
    forall k: nat {:trigger HeaderAt(s, STEP * k, max)} :: STEP * k < at ==> !HeaderAt(s, STEP * k, max)
  }

  /** The first valid header is here, or there is none and this is the end. */
  ghost predicate FirstHeader(s: seq<byte>, at: nat, max: nat) {
    && NoneBefore(s, at, max)
    && (at == |s| || (HeaderAt(s, at, max) && at % STEP == 0))
  }

  lemma FirstIsUnique(s: seq<byte>, a: nat, b: nat, max: nat)
    requires FirstHeader(s, a, max) && FirstHeader(s, b, max)
    ensures a == b
  {
    var atA, atB := HeaderAt(s, STEP * (a / STEP), max), HeaderAt(s, STEP * (b / STEP), max);
  }

  /** Too near the end no header starts. */
  lemma NothingBehind(s: seq<byte>, at: nat, max: nat)
    requires NoneBefore(s, at, max) && at + STEP > |s|
    ensures NoneBefore(s, |s|, max)
  {
  }

  /** find_valid_header, over the first total bytes. */
  method FindValidHeader(data: array<byte>, total: nat, max: nat) returns (at: nat)
    requires total <= data.Length
    ensures FirstHeader(data[..total], at, max)
  {
    hide ParseRaw, Load, ValidHeader, HeaderAt;
    ghost var s := data[..total];
    if total < STEP {
      NothingBehind(s, 0, max);
      return total;
    }
    at := 0;
    ghost var k: nat := 0;
    while at + STEP <= total
      invariant at == STEP * k && NoneBefore(s, at, max)
    {
      assert s[at..at + 8] == data[at..at + 8];
      HeaderAtIs(s, at, max);
      if ValidHeader(ParseRaw(Load(data[at..at + 8])), max) {
        assert HeaderAt(s, at, max);
        return;
      }
      at := at + STEP;
      k := k + 1;
    }
    NothingBehind(s, at, max);
    at := total;
  }

  function Min(a: nat, b: nat): nat {
    if a < b then a else b
  }

  /** What a read delivers when its first header is here: as many bytes as the header says, or as there are. */
  function Delivered(s: seq<byte>, at: nat): seq<byte>
    requires at + 8 <= |s|
  {
    s[at..at + Min(Three(s[at], s[at + 1], s[at + 2]), |s| - at)]
  }

  lemma Window(junk: seq<byte>, e: seq<byte>, rest: seq<byte>, total: nat, n: nat)
    requires n <= |e| && |junk| + n <= total <= |junk + e + rest|
    ensures (junk + e + rest)[..total][|junk|..|junk| + n] == e[..n]
  {
  }

  lemma HeaderOf(p: Packet)
    requires Sound(p) && p.h.length < 0x100_0000
    ensures ParseRaw(Load(Encode(p)[..8])) == p.h
  {
    HeaderRoundTrip(p.h);
    Ranges();
    LoadStore(Raw(p.h), 8);
    assert Encode(p)[..8] == Le(Raw(p.h), 8);
  }

  /**
   * A packet behind bytes of an earlier, torn one is found exactly when it starts at a sixteenth byte and none of
   * those in front looks like a header. It is then delivered whole, or as far as the read went.
   */
  lemma PacketIsRecovered(junk: seq<byte>, p: Packet, rest: seq<byte>, total: nat, max: nat)
    requires Sound(p) && ValidHeader(p.h, max) && p.h.length < 0x100_0000
    requires |junk| + STEP <= total <= |junk| + p.h.length + |rest|
    ensures var s := (junk + Encode(p) + rest)[..total];
            && (FirstHeader(s, |junk|, max) <==> |junk| % STEP == 0 && NoneBefore(s, |junk|, max))
            && Delivered(s, |junk|) == Encode(p)[..Min(p.h.length, total - |junk|)]
            && (p.h.length <= total - |junk| ==> ParseStream(Delivered(s, |junk|)) == [p])
  {
    var e, n := Encode(p), Min(p.h.length, total - |junk|);
    HeaderOf(p);
    Window(junk, e, rest, total, 8);
    Window(junk, e, rest, total, n);
    HeaderAtIs((junk + e + rest)[..total], |junk|, max);
    if n == p.h.length {
      ParsesFirst(p, []);
      assert e[..n] == e && e + [] == e;
      assert ParseStream([]) == [];
    }
  }

  /** The memmove that brings the packet to the front. */
  method MoveDown(memory: array<byte>, at: nat, total: nat)
    requires at <= total <= memory.Length
    modifies memory
    ensures memory[..] == old(memory[at..total] + memory[total - at..])
  {
    forall i | 0 <= i < total - at {
      memory[i] := memory[i + at];
    }
  }

  lemma Front(frame: seq<byte>, s: seq<byte>, at: nat, tail: seq<byte>, n: nat)
    requires at + n <= |s| && frame == s[at..] + tail
    ensures n <= |frame| && frame[..n] == s[at..at + n]
  {
  }

  /** xdma_zero_copy_mrb: one receive frame. */
  class RecvFrame {
    const memory: array<byte>
    const packetBytes: nat
    var locked: bool

    /** make_filled: on Some, the packet's bytes are at the start of the frame and the frame stays claimed. */
    method MakeFilled(total: nat) returns (length: Option<nat>)
      requires total <= memory.Length
      modifies memory, this`locked
      ensures (exists at: nat :: at < total && FirstHeader(old(memory[..total]), at, packetBytes)) <==> length.Some?
      ensures locked == (old(locked) && length.Some?)
      ensures length.None? ==> memory[..] == old(memory[..])
      ensures length.Some? ==> exists at: nat ::
        && FirstHeader(old(memory[..total]), at, packetBytes) && at + 8 <= total
        && length.value <= memory.Length && memory[..length.value] == Delivered(old(memory[..total]), at)
        && memory[..] == old(memory[at..total] + memory[total - at..])
    {
      hide ParseRaw, Load, ValidHeader;
      ghost var s := memory[..total];
      if total < STEP {
        locked := false;
        assert forall at: nat :: FirstHeader(s, at, packetBytes) ==> at == total;
        return None;
      }
      var at := FindValidHeader(memory, total, packetBytes);
      forall other: nat | FirstHeader(s, other, packetBytes) ensures other == at {
        FirstIsUnique(s, other, at, packetBytes);
      }
      if at >= total {
        locked := false;
        return None;
      }
      if at != 0 {
        MoveDown(memory, at, total);
      }
      ghost var tail := old(memory[total - at..]);
      assert memory[..] == s[at..] + tail;
      Front(memory[..], s, at, tail, 8);
      // the header that the code checks once more here is the one just found
      assert memory[..8] == memory[..][..8];
      var h := ParseRaw(Load(memory[..8]));
      HeaderAtIs(s, at, packetBytes);
      length := Some(Min(h.length, total - at));
      Front(memory[..], s, at, tail, length.value);
      assert memory[..length.value] == memory[..][..length.value];
    }

    /**
     * get_new: claim the frame, read into it, search the read for a packet. incoming is None when the device delivered
     * nothing or failed. The round-robin index moves on with the claim, whatever the read brings.
     */
    method GetNew(incoming: Option<seq<byte>>, index: nat) returns (length: Option<nat>, next: nat)
      requires incoming.Some? ==> |incoming.value| <= memory.Length
      modifies memory, this`locked
      ensures next == if old(locked) then index else index + 1
      ensures old(locked) ==> length.None? && memory[..] == old(memory[..])
      ensures locked == (old(locked) || length.Some?)
      ensures !old(locked) ==>
                (length.Some? <==> incoming.Some? && exists at: nat :: at < |incoming.value| && FirstHeader(incoming.value, at, packetBytes))
      ensures length.Some? && incoming.Some? ==> exists at: nat ::
        && FirstHeader(incoming.value, at, packetBytes) && at + 8 <= |incoming.value|
        && length.value <= memory.Length && memory[..length.value] == Delivered(incoming.value, at)
    {
      if locked {
        return None, index;
      }
      locked := true;
      next := index + 1;
      if incoming.None? {
        locked := false;
        return None, next;
      }
      var total := |incoming.value|;
      forall i | 0 <= i < total {
        memory[i] := incoming.value[i];
      }
      assert memory[..total] == incoming.value;
      length := MakeFilled(total);
    }
  }
}
