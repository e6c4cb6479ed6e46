/** Copying received words into the caller's buffers, one channel or two, scalar or vector. */
module M300Demux {
  import opened M300Protocol
  import opened Simd

  datatype Format = Int16 | Float32

  /** One entry of a caller's buffer: buffers hold I and Q in turn, as 16-bit integers or as floats. */
  datatype Value = Int(i: i16) | Float(x: real)

  /** A 16-bit half of a word, as the caller's format wants it. */
  function Convert(format: Format, half: nat): Value
    requires half < 0x1_0000
  {
    match format
    case Int16 => Int(I16(half))
    case Float32 => Float(I16(half) as real / 32768.0)
  }

  function Low(w: word): nat {
    w % 0x1_0000
  }

  function High(w: word): (h: nat)
    ensures h < 0x1_0000
  {
    w / 0x1_0000
  }

  /** What a caller's buffer holds for these words: I from the low half, Q from the high half. */
  function Values(format: Format, ws: seq<word>): (vs: seq<Value>)
    ensures |vs| == 2 * |ws|
  {
    if ws == [] then []
    else
      var w := ws[|ws| - 1];
      Values(format, ws[..|ws| - 1]) + [Convert(format, Low(w)), Convert(format, High(w))]
  }

  lemma ValuesAppend(format: Format, ws: seq<word>, w: word)
    ensures Values(format, ws + [w]) == Values(format, ws) + [Convert(format, Low(w)), Convert(format, High(w))]
  {
    assert (ws + [w])[..|ws|] == ws;
  }

  lemma {:induction false} ValuesConcat(format: Format, a: seq<word>, b: seq<word>)
    ensures Values(format, a + b) == Values(format, a) + Values(format, b)
  {
    if b == [] {
      assert a + b == a;
    } else {
      var front, w := b[..|b| - 1], b[|b| - 1];
      ValuesConcat(format, a, front);
      ValuesAppend(format, a + front, w);
      assert a + b == a + front + [w];
    }
  }

  /** Sample k of a buffer is word k of what it was given. */
  lemma {:induction false} ValuesAt(format: Format, ws: seq<word>, k: nat)
    requires k < |ws|
    ensures Values(format, ws)[2 * k] == Convert(format, Low(ws[k])) && Values(format, ws)[2 * k + 1] == Convert(format, High(ws[k]))
  {
    if k < |ws| - 1 {
      ValuesAt(format, ws[..|ws| - 1], k);
    }
  }

  /** v is the signed 16-bit number `half`, as it is or divided by 32768. */
  ghost predicate IsHalf(v: Value, half: nat, format: Format) {
    match format
    case Int16 => v.Int? && v.i % 0x1_0000 == half
    case Float32 => v.Float? && v.x * 32768.0 == (if half < 0x8000 then half else half - 0x1_0000) as real
  }

  /** Sample j of the buffer is this word: first I, its low half, then Q, its high half. */
  ghost predicate IsSample(buffer: seq<Value>, j: nat, w: word, format: Format)
    requires 2 * j + 1 < |buffer|
  {
    IsHalf(buffer[2 * j], w % 0x1_0000, format) && IsHalf(buffer[2 * j + 1], w / 0x1_0000, format)
  }

  lemma ConvertIsHalf(format: Format, half: nat)
    requires half < 0x1_0000
    ensures IsHalf(Convert(format, half), half, format)
  {
  }

  lemma ValuesAreSamples(format: Format, ws: seq<word>, j: nat)
    requires j < |ws|
    ensures IsSample(Values(format, ws), j, ws[j], format)
  {
    hide Convert, IsHalf;
    ValuesAt(format, ws, j);
    ConvertIsHalf(format, ws[j] % 0x1_0000);
    ConvertIsHalf(format, ws[j] / 0x1_0000);
  }

  lemma StoredSamples(buffer: seq<Value>, at: nat, before: seq<Value>, format: Format, ws: seq<word>, j: nat)
    requires |before| == 2 * at && 2 * (at + |ws|) <= |buffer| && buffer[..2 * (at + |ws|)] == before + Values(format, ws) && j < |ws|
    ensures IsSample(buffer, at + j, ws[j], format)
  {
    ValuesAreSamples(format, ws, j);
    assert buffer[2 * (at + j)] == (before + Values(format, ws))[2 * (at + j)];
    assert buffer[2 * (at + j) + 1] == (before + Values(format, ws))[2 * (at + j) + 1];
  }

  lemma AllStored(buffer: seq<Value>, at: nat, before: seq<Value>, format: Format, ws: seq<word>)
    requires |before| == 2 * at && 2 * (at + |ws|) <= |buffer| && buffer[..2 * (at + |ws|)] == before + Values(format, ws)
    ensures forall j: nat :: j < |ws| ==> IsSample(buffer, at + j, ws[j], format)
  {
    hide IsSample, Values;
    forall j: nat | j < |ws| ensures IsSample(buffer, at + j, ws[j], format) {
      StoredSamples(buffer, at, before, format, ws, j);
    }
  }

  /** copy_samples: one word after the other. */
  method CopySamples(dest: array<Value>, at: nat, ws: seq<word>, format: Format)
    requires 2 * (at + |ws|) <= dest.Length
    modifies dest
    ensures dest[..2 * (at + |ws|)] == old(dest[..2 * at]) + Values(format, ws)
    ensures forall j: nat :: j < |ws| ==> IsSample(dest[..], at + j, ws[j], format)
  {
    ghost var before, done: seq<word> := dest[..2 * at], [];
    for k := 0 to |ws|
      invariant done == ws[..k]
      invariant dest[..2 * (at + k)] == before + Values(format, done)
    {
      PutSample(dest, at + k, ws[k], format, before, done);
      done := done + [ws[k]];
    }
    assert ws[..|ws|] == ws;
    AllStored(dest[..], at, before, format, ws);
  }

  method PutSample(dest: array<Value>, at: nat, w: word, format: Format, ghost before: seq<Value>, ghost done: seq<word>)
    requires 2 * at + 2 <= dest.Length && dest[..2 * at] == before + Values(format, done)
    modifies dest
    ensures dest[..2 * (at + 1)] == before + Values(format, done + [w])
  {
    dest[2 * at], dest[2 * at + 1] := Convert(format, Low(w)), Convert(format, High(w));
    ValuesAppend(format, done, w);
    assert dest[..2 * (at + 1)] == dest[..2 * at] + [Convert(format, Low(w)), Convert(format, High(w))];
  }

  /** The words of one channel of a frame-interleaved run: word 2 s + c for sample s. */
  function Channel(ws: seq<word>, c: nat, samples: nat): (r: seq<word>)
    requires c < 2 && 2 * samples <= |ws|
    ensures |r| == samples
  {
    seq(samples, s requires 0 <= s < samples => ws[2 * s + c])
  }

  /** One step of demux_dual_avx2: the lanes of both channels out of eight words. */
  function DemuxStep(input01: seq<word>, input23: seq<word>): (lanes: (seq<word>, seq<word>))
    requires |input01| == |input23| == 4
    ensures lanes.0 == [input01[0], input01[2], input23[0], input23[2]]
    ensures lanes.1 == [input01[1], input01[3], input23[1], input23[3]]
  {
    var even, odd := MmShuffle(2, 0, 2, 0), MmShuffle(3, 1, 3, 1);
    assert Selected(even, 0) == 0 && Selected(even, 1) == 2 && Selected(odd, 0) == 1 && Selected(odd, 1) == 3;
    (UnpackLow64(Shuffle32(input01, even), Shuffle32(input23, even)), UnpackLow64(Shuffle32(input01, odd), Shuffle32(input23, odd)))
  }

  /** A vector step hands each channel its next four samples. */
  lemma DemuxStepIsScalar(ws: seq<word>, samples: nat, s: nat)
    requires s + 4 <= samples && 2 * samples <= |ws|
    ensures var lanes := DemuxStep(ws[2 * s..2 * s + 4], ws[2 * s + 4..2 * s + 8]);
            lanes.0 == Channel(ws, 0, samples)[s..s + 4] && lanes.1 == Channel(ws, 1, samples)[s..s + 4]
  {
  }

  lemma ValuesMore(format: Format, all: seq<word>, s: nat, e: nat, before: seq<Value>)
    requires s <= e <= |all|
    ensures before + Values(format, all[..s]) + Values(format, all[s..e]) == before + Values(format, all[..e])
  {
    ValuesConcat(format, all[..s], all[s..e]);
    assert all[..e] == all[..s] + all[s..e];
    ThreeParts(before, Values(format, all[..s]), Values(format, all[s..e]));
  }

  lemma ThreeParts(a: seq<Value>, b: seq<Value>, c: seq<Value>)
    ensures a + b + c == a + (b + c)
  {
  }

  /** One channel's lanes, stored behind what the buffer has of that channel. */
  method PutLanes(dest: array<Value>, at: nat, s: nat, lanes: seq<word>, format: Format, ghost before: seq<Value>, ghost all: seq<word>)
    requires s + |lanes| <= |all| && lanes == all[s..s + |lanes|] && 2 * (at + s + |lanes|) <= dest.Length
    requires dest[..2 * (at + s)] == before + Values(format, all[..s])
    modifies dest
    ensures dest[..2 * (at + s + |lanes|)] == before + Values(format, all[..s + |lanes|])
  {
    ValuesMore(format, all, s, s + |lanes|, before);
    CopySamples(dest, at + s, lanes, format);
  }

  /** What the caller's two buffers hold once `done` samples of each channel are behind what was there. */
  ghost predicate Holding(dest: array<Value>, at: nat, done: nat, format: Format, before: seq<Value>, all: seq<word>)
    reads dest
  {
    done <= |all| && 2 * (at + done) <= dest.Length && dest[..2 * (at + done)] == before + Values(format, all[..done])
  }

  /** The lanes of both channels, stored. */
  method PutBoth(dest0: array<Value>, dest1: array<Value>, at: nat, s: nat, lanes0: seq<word>, lanes1: seq<word>, format: Format,
                 ghost before0: seq<Value>, ghost before1: seq<Value>, ghost all0: seq<word>, ghost all1: seq<word>)
    requires dest0 != dest1 && |lanes0| == |lanes1|
    requires 2 * (at + s + |lanes0|) <= dest0.Length && 2 * (at + s + |lanes0|) <= dest1.Length
    requires s + |lanes0| <= |all0| && lanes0 == all0[s..s + |lanes0|] && s + |lanes0| <= |all1| && lanes1 == all1[s..s + |lanes0|]
    requires Holding(dest0, at, s, format, before0, all0) && Holding(dest1, at, s, format, before1, all1)
    modifies dest0, dest1
    ensures Holding(dest0, at, s + |lanes0|, format, before0, all0) && Holding(dest1, at, s + |lanes0|, format, before1, all1)
  {
    PutLanes(dest0, at, s, lanes0, format, before0, all0);
    PutLanes(dest1, at, s, lanes1, format, before1, all1);
  }

  /** The loads and shuffles of one vector step. */
  method FourLanes(ws: seq<word>, samples: nat, s: nat) returns (lanes0: seq<word>, lanes1: seq<word>)
    requires s + 4 <= samples && 2 * samples <= |ws|
    ensures |lanes0| == |lanes1| == 4
    ensures lanes0 == Channel(ws, 0, samples)[s..s + 4] && lanes1 == Channel(ws, 1, samples)[s..s + 4]
  {
    DemuxStepIsScalar(ws, samples, s);
    var lanes := DemuxStep(ws[2 * s..2 * s + 4], ws[2 * s + 4..2 * s + 8]);
    lanes0, lanes1 := lanes.0, lanes.1;
  }

  /** demux_dual_avx2: whole groups of four samples of both channels. */
  method DemuxVector(ws: seq<word>, dest0: array<Value>, dest1: array<Value>, at: nat, samples: nat, format: Format,
                     ghost before0: seq<Value>, ghost before1: seq<Value>, ghost all0: seq<word>, ghost all1: seq<word>)
    returns (done: nat)
    requires dest0 != dest1 && 2 * samples <= |ws| && 2 * (at + samples) <= dest0.Length && 2 * (at + samples) <= dest1.Length
    requires all0 == Channel(ws, 0, samples) && all1 == Channel(ws, 1, samples)
    requires Holding(dest0, at, 0, format, before0, all0) && Holding(dest1, at, 0, format, before1, all1)
    modifies dest0, dest1
    ensures done == samples - samples % 4
    ensures Holding(dest0, at, done, format, before0, all0) && Holding(dest1, at, done, format, before1, all1)
  {
    var vectorSamples := samples - samples % 4;
    done := 0;
    while done < vectorSamples
      invariant done <= vectorSamples && done % 4 == 0
      invariant Holding(dest0, at, done, format, before0, all0) && Holding(dest1, at, done, format, before1, all1)
    {
      var lanes0, lanes1 := FourLanes(ws, samples, done);
      PutBoth(dest0, dest1, at, done, lanes0, lanes1, format, before0, before1, all0, all1);
      done := done + 4;
    }
  }

  lemma OneSample(ws: seq<word>, samples: nat, s: nat)
    requires s < samples && 2 * samples <= |ws|
    ensures [ws[2 * s]] == Channel(ws, 0, samples)[s..s + 1] && [ws[2 * s + 1]] == Channel(ws, 1, samples)[s..s + 1]
  {
  }

  /** The scalar loop of demux_dual_channel_samples, from sample `begin` on. */
  method DemuxScalar(ws: seq<word>, dest0: array<Value>, dest1: array<Value>, at: nat, begin: nat, samples: nat, format: Format,
                     ghost before0: seq<Value>, ghost before1: seq<Value>, ghost all0: seq<word>, ghost all1: seq<word>)
    requires dest0 != dest1 && 2 * samples <= |ws| && 2 * (at + samples) <= dest0.Length && 2 * (at + samples) <= dest1.Length
    requires all0 == Channel(ws, 0, samples) && all1 == Channel(ws, 1, samples) && begin <= samples
    requires Holding(dest0, at, begin, format, before0, all0) && Holding(dest1, at, begin, format, before1, all1)
    modifies dest0, dest1
    ensures Holding(dest0, at, samples, format, before0, all0) && Holding(dest1, at, samples, format, before1, all1)
  {
    for sample := begin to samples
      invariant Holding(dest0, at, sample, format, before0, all0) && Holding(dest1, at, sample, format, before1, all1)
    {
      OneSample(ws, samples, sample);
      PutBoth(dest0, dest1, at, sample, [ws[2 * sample]], [ws[2 * sample + 1]], format, before0, before1, all0, all1);
    }
  }

  /** demux_dual_channel_samples: with or without the vector part, word 2 s + c goes to channel c, sample s. */
  method Demux(ws: seq<word>, dest0: array<Value>, dest1: array<Value>, at: nat, samples: nat, format: Format, hasAvx2: bool)
    requires dest0 != dest1 && 2 * samples <= |ws| && 2 * (at + samples) <= dest0.Length && 2 * (at + samples) <= dest1.Length
    modifies dest0, dest1
    ensures dest0[..2 * (at + samples)] == old(dest0[..2 * at]) + Values(format, Channel(ws, 0, samples))
    ensures dest1[..2 * (at + samples)] == old(dest1[..2 * at]) + Values(format, Channel(ws, 1, samples))
    ensures forall s: nat :: s < samples ==> IsSample(dest0[..], at + s, ws[2 * s], format)
    ensures forall s: nat :: s < samples ==> IsSample(dest1[..], at + s, ws[2 * s + 1], format)
  {
    hide IsSample, Values, Holding;
    ghost var before0, before1, all0, all1 := dest0[..2 * at], dest1[..2 * at], Channel(ws, 0, samples), Channel(ws, 1, samples);
    DemuxBoth(ws, dest0, dest1, at, samples, format, hasAvx2, before0, before1, all0, all1);
    AllStored(dest0[..], at, before0, format, all0);
    AllStored(dest1[..], at, before1, format, all1);
    forall s: nat | s < samples
      ensures IsSample(dest0[..], at + s, ws[2 * s], format) && IsSample(dest1[..], at + s, ws[2 * s + 1], format)
    {
      assert all0[s] == ws[2 * s] && all1[s] == ws[2 * s + 1];
    }
  }

  /** Both of its loops. */
  method DemuxBoth(ws: seq<word>, dest0: array<Value>, dest1: array<Value>, at: nat, samples: nat, format: Format, hasAvx2: bool,
                   ghost before0: seq<Value>, ghost before1: seq<Value>, ghost all0: seq<word>, ghost all1: seq<word>)
    requires dest0 != dest1 && 2 * samples <= |ws| && 2 * (at + samples) <= dest0.Length && 2 * (at + samples) <= dest1.Length
    requires all0 == Channel(ws, 0, samples) && all1 == Channel(ws, 1, samples)
    requires before0 == dest0[..2 * at] && before1 == dest1[..2 * at]
    modifies dest0, dest1
    ensures dest0[..][..2 * (at + samples)] == dest0[..2 * (at + samples)] == before0 + Values(format, all0)
    ensures dest1[..][..2 * (at + samples)] == dest1[..2 * (at + samples)] == before1 + Values(format, all1)
  {
    var firstScalar := 0;
    if hasAvx2 {
      firstScalar := DemuxVector(ws, dest0, dest1, at, samples, format, before0, before1, all0, all1);
    }
    DemuxScalar(ws, dest0, dest1, at, firstScalar, samples, format, before0, before1, all0, all1);
    assert all0[..samples] == all0 && all1[..samples] == all1;
    Front(dest0, 2 * (at + samples));
    Front(dest1, 2 * (at + samples));
  }

  lemma Front(buffer: array<Value>, n: nat)
    requires n <= buffer.Length
    ensures buffer[..][..n] == buffer[..n]
  {
  }
}
