/** The CF32 packer of the M300 transmitter: vector and scalar forms write the same words. */
module M300Packer {
  import opened Arithmetic
  import opened M300Protocol
  import opened Simd

  /** I in the high half, Q in the low half. */
  function PackIq(i: i16, q: i16): word {
    U16(i) * 0x1_0000 + U16(q)
  }

  /** Saturation at +-32767, truncation in between. */
  function FloatToI16(value: real): i16 {
    ScaledRange(Clamp(value));
    if value >= 1.0 then 32767 else if value <= -1.0 then -32767 else Trunc(value * 32767.0)
  }

  lemma ScaledRange(v: real)
    requires -1.0 <= v <= 1.0
    ensures -32767 <= Trunc(v * 32767.0) <= 32767
  {
    assert -32767.0 <= v * 32767.0 <= 32767.0;
  }

  /** The word for sample s of an interleaved I, Q buffer. */
  function FloatWord(input: seq<real>, s: nat): word
    requires 2 * s + 1 < |input|
  {
    PackIq(FloatToI16(input[2 * s]), FloatToI16(input[2 * s + 1]))
  }

  function Converted(v: real): int {
    Trunc(Clamp(v) * 32767.0)
  }

  /** The vector lane computes what the scalar function computes. */
  lemma LaneIsScalar(v: real)
    ensures Saturate16(Converted(v)) == FloatToI16(v)
  {
    ScaledRange(Clamp(v));
  }

  /** pack_four_cf32: clamp, scale, convert, pack, swap I and Q. */
  function PackFour(input: seq<real>): (r: seq<word>)
    requires |input| == 8
    ensures |r| == 4
  {
    var swapIq := MmShuffle(2, 3, 0, 1);
    As32(ShuffleHigh16(ShuffleLow16(Lanes(input), swapIq), swapIq))
  }

  lemma SwapIq(p: seq<i16>)
    requires |p| == 8
    ensures var imm := MmShuffle(2, 3, 0, 1);
            ShuffleHigh16(ShuffleLow16(p, imm), imm) == [p[1], p[0], p[3], p[2], p[5], p[4], p[7], p[6]]
  {
    var imm := MmShuffle(2, 3, 0, 1);
    assert Selected(imm, 0) == 1 && Selected(imm, 1) == 0 && Selected(imm, 2) == 3 && Selected(imm, 3) == 2;
  }

  /** What one vector step converts: eight floats to eight saturated lanes. */
  function Lanes(input: seq<real>): (p: seq<i16>)
    requires |input| == 8
    ensures |p| == 8
    ensures forall j :: 0 <= j < 8 ==> p[j] == FloatToI16(input[j])
  {
    LaneIsScalar(input[0]); LaneIsScalar(input[1]); LaneIsScalar(input[2]); LaneIsScalar(input[3]);
    LaneIsScalar(input[4]); LaneIsScalar(input[5]); LaneIsScalar(input[6]); LaneIsScalar(input[7]);
    Packs32([Converted(input[0]), Converted(input[1]), Converted(input[2]), Converted(input[3])],
            [Converted(input[4]), Converted(input[5]), Converted(input[6]), Converted(input[7])])
  }

  lemma SwappedWords(p: seq<i16>)
    requires |p| == 8
    ensures As32([p[1], p[0], p[3], p[2], p[5], p[4], p[7], p[6]])
            == [PackIq(p[0], p[1]), PackIq(p[2], p[3]), PackIq(p[4], p[5]), PackIq(p[6], p[7])]
  {
  }

  lemma PackFourIsScalar(input: seq<real>)
    requires |input| == 8
    ensures PackFour(input) == [FloatWord(input, 0), FloatWord(input, 1), FloatWord(input, 2), FloatWord(input, 3)]
  {
    var p := Lanes(input);
    SwapIq(p);
    SwappedWords(p);
  }

  lemma FourFloats(input: seq<real>, s: nat)
    requires |input| >= 2 * s + 8
    ensures PackFour(input[2 * s..2 * s + 8])
            == [FloatWord(input, s), FloatWord(input, s + 1), FloatWord(input, s + 2), FloatWord(input, s + 3)]
  {
    hide FloatWord, PackFour;
    PackFourIsScalar(input[2 * s..2 * s + 8]);
    SliceWord(input, s, 0);
    SliceWord(input, s, 1);
    SliceWord(input, s, 2);
    SliceWord(input, s, 3);
  }

  lemma SliceWord(input: seq<real>, s: nat, k: nat)
    requires |input| >= 2 * s + 8 && k < 4
    ensures FloatWord(input[2 * s..2 * s + 8], k) == FloatWord(input, s + k)
  {
    var slice := input[2 * s..2 * s + 8];
    assert slice[2 * k] == input[2 * (s + k)] && slice[2 * k + 1] == input[2 * (s + k) + 1];
  }

  /** The caller's buffers, one per channel, I and Q interleaved. */
  datatype Source = Cf32(floats: seq<seq<real>>) | Cs16(ints: seq<seq<i16>>) {
    function Channels(): nat {
      if Cf32? then |floats| else |ints|
    }

    /** One or two channels, each with at least n samples. */
    predicate Holds(n: nat) {
      && 1 <= Channels() <= 2
      && (Cf32? ==> |floats[0]| >= 2 * n && (|floats| == 2 ==> |floats[1]| >= 2 * n))
      && (Cs16? ==> |ints[0]| >= 2 * n && (|ints| == 2 ==> |ints[1]| >= 2 * n))
    }

    /** pack_iq of sample s of channel c. */
    function Word(c: nat, s: nat): word
      requires Holds(s + 1) && c < Channels()
    {
      if Cf32? then FloatWord(floats[c], s) else PackIq(ints[c][2 * s], ints[c][2 * s + 1])
    }

    /** Word k of the wire order from sample `first` on: the channels take turns. */
    function WordAt(first: nat, k: nat): word
      requires 1 <= Channels() <= 2 && Holds(first + (if Channels() == 1 then k else k / 2) + 1)
    {
      if Channels() == 1 then Word(0, first + k) else Word(k % 2, first + k / 2)
    }
  }

  /** n sample times in words. */
  function Width(channels: nat, n: nat): nat {
    if channels == 1 then n else 2 * n
  }

  /** The words of `samples` sample times from `first` on. */
  function Wire(src: Source, first: nat, samples: nat): (wire: seq<word>)
    requires src.Holds(first + samples)
    ensures |wire| == Width(src.Channels(), samples)
  {
    seq(Width(src.Channels(), samples), k requires 0 <= k < Width(src.Channels(), samples) => src.WordAt(first, k))
  }

  /** wire holds the words of `samples` sample times from `first` on. */
  ghost predicate OnWire(src: Source, first: nat, samples: nat, wire: seq<word>) {
    && src.Holds(first + samples)
    && |wire| == Width(src.Channels(), samples)
    && forall k {:trigger src.WordAt(first, k)} :: 0 <= k < |wire| ==> wire[k] == src.WordAt(first, k)
  }

  lemma WireIsOnWire(src: Source, first: nat, samples: nat)
    requires src.Holds(first + samples)
    ensures OnWire(src, first, samples, Wire(src, first, samples))
  {
  }

  lemma WireSplit(src: Source, a: nat, b: nat)
    requires src.Holds(a + b)
    ensures Wire(src, 0, a + b) == Wire(src, 0, a) + Wire(src, a, b)
  {
    var all, left, right := Wire(src, 0, a + b), Wire(src, 0, a), Wire(src, a, b);
    WireIsOnWire(src, 0, a + b);
    WireIsOnWire(src, 0, a);
    WireIsOnWire(src, a, b);
    forall k | 0 <= k < |all| ensures all[k] == (left + right)[k] {
      SplitAt(src, a, b, all, left, right, k);
    }
  }

  lemma SplitAt(src: Source, a: nat, b: nat, all: seq<word>, left: seq<word>, right: seq<word>, k: nat)
    requires OnWire(src, 0, a + b, all) && OnWire(src, 0, a, left) && OnWire(src, a, b, right) && k < |all|
    ensures all[k] == if k < |left| then left[k] else right[k - |left|]
  {
    assert all[k] == src.WordAt(0, k);
    if k < |left| {
      assert left[k] == src.WordAt(0, k);
    } else {
      SameWord(src, a, k - |left|);
      assert right[k - |left|] == src.WordAt(a, k - |left|);
    }
  }

  /** Counting words from sample a on, or from the start. */
  lemma SameWord(src: Source, a: nat, k: nat)
    requires 1 <= src.Channels() <= 2 && src.Holds(a + (if src.Channels() == 1 then k else k / 2) + 1)
    ensures src.WordAt(a, k) == src.WordAt(0, Width(src.Channels(), a) + k)
  {
    assert (2 * a + k) / 2 == a + k / 2 && (2 * a + k) % 2 == k % 2;
  }

  /** i in the high half and q in the low half, both in two's complement. */
  ghost predicate IqWord(w: word, i: int, q: int) {
    w == i % 0x1_0000 * 0x1_0000 + q % 0x1_0000
  }

  /** r is 32767 times x without its fraction, an x above 1 counting as 1 and one below -1 as -1. */
  ghost predicate Truncated(x: real, r: int) {
    && (x >= 1.0 ==> r == 32767) && (x <= -1.0 ==> r == -32767)
    && (0.0 <= x < 1.0 ==> r as real <= x * 32767.0 < r as real + 1.0)
    && (-1.0 < x <= 0.0 ==> r as real - 1.0 < x * 32767.0 <= r as real)
  }

  lemma FloatIsTruncated(x: real)
    ensures Truncated(x, FloatToI16(x))
  {
  }

  /** w is sample s of channel c: entry 2 s of its buffer is I and entry 2 s + 1 is Q. */
  ghost predicate SampleWord(w: word, src: Source, c: nat, s: nat)
    requires src.Holds(s + 1) && c < src.Channels()
  {
    if src.Cs16? then IqWord(w, src.ints[c][2 * s], src.ints[c][2 * s + 1])
    else exists i, q :: IqWord(w, i, q) && Truncated(src.floats[c][2 * s], i) && Truncated(src.floats[c][2 * s + 1], q)
  }

  lemma WordIsSample(src: Source, c: nat, s: nat)
    requires src.Holds(s + 1) && c < src.Channels()
    ensures SampleWord(src.Word(c, s), src, c, s)
  {
    if src.Cs16? {
      PackedHalves(src.ints[c][2 * s], src.ints[c][2 * s + 1]);
    } else {
      FloatIsTruncated(src.floats[c][2 * s]);
      FloatIsTruncated(src.floats[c][2 * s + 1]);
      PackedHalves(FloatToI16(src.floats[c][2 * s]), FloatToI16(src.floats[c][2 * s + 1]));
    }
  }

  lemma PackedHalves(i: i16, q: i16)
    ensures IqWord(PackIq(i, q), i, q)
  {
  }

  /** Where sample s of channel c is. */
  function Place(channels: nat, s: nat, c: nat): nat {
    if channels == 2 then 2 * s + c else s
  }

  lemma SampleOnWire(src: Source, first: nat, samples: nat, wire: seq<word>, s: nat, c: nat)
    requires OnWire(src, first, samples, wire) && s < samples && c < src.Channels()
    ensures var k := Place(src.Channels(), s, c);
            k < |wire| && wire[k] == src.Word(c, first + s) && SampleWord(wire[k], src, c, first + s)
  {
    WordIsSample(src, c, first + s);
    hide SampleWord, Source.Word;
    if src.Channels() == 1 {
      assert wire[s] == src.WordAt(first, s);
    } else {
      Pair(src, first, s, samples, wire);
    }
  }

  /** Word s * C + c on the wire is pack_iq of sample s of channel c, with I in its high half and Q in its low half. */
  lemma WordOnWire(src: Source, first: nat, samples: nat, wire: seq<word>, s: nat, c: nat)
    requires OnWire(src, first, samples, wire) && s < samples && c < src.Channels()
    ensures s * src.Channels() + c < |wire| && wire[s * src.Channels() + c] == src.Word(c, first + s)
    ensures SampleWord(wire[s * src.Channels() + c], src, c, first + s)
  {
    hide SampleWord, Source.Word, OnWire;
    SampleOnWire(src, first, samples, wire, s, c);
    OnWireSize(src, first, samples, wire);
    OnWireHolds(src, first, samples, wire, s + 1);
    assert s * src.Channels() + c == Place(src.Channels(), s, c);
  }

  /** The four packed words of channel c from sample s on. */
  method PackedLanes(src: Source, c: nat, s: nat) returns (packed: seq<word>)
    requires src.Cf32? && src.Holds(s + 4) && c < src.Channels()
    ensures packed == [src.Word(c, s), src.Word(c, s + 1), src.Word(c, s + 2), src.Word(c, s + 3)]
  {
    FourFloats(src.floats[c], s);
    packed := PackFour(src.floats[c][2 * s..2 * s + 8]);
  }

  /** What a vector step stores when there are two channels: their lanes, taking turns. */
  function Interleaved(packed0: seq<word>, packed1: seq<word>): (ws: seq<word>)
    requires |packed0| == |packed1| == 4
    ensures ws == [packed0[0], packed1[0], packed0[1], packed1[1], packed0[2], packed1[2], packed0[3], packed1[3]]
  {
    UnpackLow32(packed0, packed1) + UnpackHigh32(packed0, packed1)
  }

  lemma OnWireSize(src: Source, first: nat, samples: nat, wire: seq<word>)
    requires OnWire(src, first, samples, wire)
    ensures |wire| == Width(src.Channels(), samples)
  {
  }

  lemma OnWireHolds(src: Source, first: nat, samples: nat, wire: seq<word>, n: nat)
    requires OnWire(src, first, samples, wire) && n <= samples
    ensures src.Holds(first + n)
  {
  }

  /** One step of the vector loop: what it computes for four sample times of every channel. */
  method VectorWords(src: Source, first: nat, done: nat, ghost samples: nat, ghost wire: seq<word>) returns (ws: seq<word>)
    requires OnWire(src, first, samples, wire) && done + 4 <= samples && src.Cf32?
    ensures ws == wire[Width(src.Channels(), done)..Width(src.Channels(), done + 4)]
  {
    hide OnWire, Source.Word, FloatWord;
    OnWireSize(src, first, samples, wire);
    OnWireHolds(src, first, samples, wire, done + 4);
    var packed0 := PackedLanes(src, 0, first + done);
    if src.Channels() == 2 {
      var packed1 := PackedLanes(src, 1, first + done);
      ws := Interleaved(packed0, packed1);
      BothChannels(src, first, done, samples, wire);
    } else {
      ws := packed0;
      OneChannel(src, first, done, samples, wire);
    }
  }

  lemma OneChannel(src: Source, first: nat, done: nat, samples: nat, wire: seq<word>)
    requires OnWire(src, first, samples, wire) && done + 4 <= samples && src.Channels() == 1
    ensures wire[done..done + 4] == [src.Word(0, first + done), src.Word(0, first + done + 1),
                                     src.Word(0, first + done + 2), src.Word(0, first + done + 3)]
  {
    assert wire[done] == src.WordAt(first, done) && wire[done + 1] == src.WordAt(first, done + 1);
    assert wire[done + 2] == src.WordAt(first, done + 2) && wire[done + 3] == src.WordAt(first, done + 3);
  }

  lemma BothChannels(src: Source, first: nat, done: nat, samples: nat, wire: seq<word>)
    requires OnWire(src, first, samples, wire) && done + 4 <= samples && src.Channels() == 2
    ensures wire[2 * done..2 * done + 8]
            == [src.Word(0, first + done), src.Word(1, first + done), src.Word(0, first + done + 1), src.Word(1, first + done + 1),
                src.Word(0, first + done + 2), src.Word(1, first + done + 2), src.Word(0, first + done + 3), src.Word(1, first + done + 3)]
  {
    Pair(src, first, done, samples, wire);
    Pair(src, first, done + 1, samples, wire);
    Pair(src, first, done + 2, samples, wire);
    Pair(src, first, done + 3, samples, wire);
  }

  lemma Pair(src: Source, first: nat, done: nat, samples: nat, wire: seq<word>)
    requires OnWire(src, first, samples, wire) && done < samples && src.Channels() == 2
    ensures wire[2 * done] == src.Word(0, first + done) && wire[2 * done + 1] == src.Word(1, first + done)
  {
    assert wire[2 * done] == src.WordAt(first, 2 * done) && wire[2 * done + 1] == src.WordAt(first, 2 * done + 1);
  }

  /** One step of the scalar loop: one sample time of every channel. */
  method ScalarWords(src: Source, first: nat, done: nat, ghost samples: nat, ghost wire: seq<word>) returns (ws: seq<word>)
    requires OnWire(src, first, samples, wire) && done < samples
    ensures ws == wire[Width(src.Channels(), done)..Width(src.Channels(), done + 1)]
  {
    ws := [src.Word(0, first + done)];
    if src.Channels() == 2 {
      ws := ws + [src.Word(1, first + done)];
      Pair(src, first, done, samples, wire);
    } else {
      assert wire[done] == src.WordAt(first, done);
    }
  }

  /** Words stored behind the part of a payload that is already there extend it. */
  method StoreMore(p: array<byte>, at: nat, ws: seq<word>, ghost before: seq<byte>, ghost wire: seq<word>, ghost a: nat)
    requires at + 4 * |ws| <= p.Length && a + |ws| <= |wire| && ws == wire[a..a + |ws|]
    requires p[..at] == before + WordBytes(wire[..a])
    modifies p
    ensures p[..at + 4 * |ws|] == before + WordBytes(wire[..a + |ws|])
  {
    StoreWords(p, at, ws);
    WordBytesConcat(wire[..a], ws);
    assert wire[..a + |ws|] == wire[..a] + ws;
    assert before + WordBytes(wire[..a]) + WordBytes(ws) == before + (WordBytes(wire[..a]) + WordBytes(ws));
  }

  lemma FourMore(done: nat, end: nat)
    requires done % 4 == end % 4 == 0 && done < end
    ensures done + 4 <= end && (done + 4) % 4 == 0
  {
  }

  /** pack_cf32_avx2: whole groups of four sample times. */
  method PackVector(p: array<byte>, at: nat, src: Source, first: nat, samples: nat, ghost wire: seq<word>)
    returns (done: nat)
    requires OnWire(src, first, samples, wire) && src.Cf32? && at + 4 * |wire| <= p.Length
    modifies p
    ensures done == samples - samples % 4
    ensures p[..at + 4 * Width(src.Channels(), done)] == old(p[..at]) + WordBytes(wire[..Width(src.Channels(), done)])
  {
    hide WordBytes, OnWire;
    ghost var before := p[..at];
    OnWireSize(src, first, samples, wire);
    done := 0;
    var words := 0;
    var vectorSamples := samples - samples % 4;
    while done < vectorSamples
      invariant done <= vectorSamples && done % 4 == 0 && words == Width(src.Channels(), done)
      invariant p[..at + 4 * words] == before + WordBytes(wire[..words])
    {
      FourMore(done, vectorSamples);
      var ws := VectorWords(src, first, done, samples, wire);
      StoreMore(p, at + 4 * words, ws, before, wire, words);
      done, words := done + 4, words + |ws|;
    }
  }

  /** The scalar loop, from sample time `begin` on. */
  method PackScalar(p: array<byte>, at: nat, src: Source, first: nat, begin: nat, samples: nat, ghost wire: seq<word>,
                    ghost before: seq<byte>)
    requires OnWire(src, first, samples, wire) && begin <= samples && at + 4 * |wire| <= p.Length
    requires p[..at + 4 * Width(src.Channels(), begin)] == before + WordBytes(wire[..Width(src.Channels(), begin)])
    modifies p
    ensures p[..at + 4 * |wire|] == before + WordBytes(wire)
  {
    hide WordBytes;
    var sample, words := begin, Width(src.Channels(), begin);
    while sample < samples
      invariant sample <= samples && words == Width(src.Channels(), sample)
      invariant p[..at + 4 * words] == before + WordBytes(wire[..words])
    {
      var ws := ScalarWords(src, first, sample, samples, wire);
      StoreMore(p, at + 4 * words, ws, before, wire, words);
      sample, words := sample + 1, words + |ws|;
    }
    assert wire[..words] == wire;
  }

  /** The payload of a packet: the vector part, if the machine has it, and the scalar rest. */
  method PackPayload(p: array<byte>, at: nat, src: Source, first: nat, samples: nat, hasAvx2: bool, ghost wire: seq<word>)
    requires OnWire(src, first, samples, wire) && at + 4 * |wire| <= p.Length
    modifies p
    ensures p[..at + 4 * |wire|] == old(p[..at]) + WordBytes(wire)
  {
    ghost var before := p[..at];
    var firstScalar := 0;
    if src.Cf32? && hasAvx2 {
      firstScalar := PackVector(p, at, src, first, samples, wire);
    }
    PackScalar(p, at, src, first, firstScalar, samples, wire, before);
  }
}
