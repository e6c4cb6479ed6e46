/** The UDP transmitter: packets of swapped samples, a 12-bit packet count sharing its field with burst flags. */
module UdpTx {
  import opened Arithmetic
  import opened Simd

  const HEADER_BYTES: nat := 16

  /** Ticks wrap at 64 bits. */
  function Tick(x: nat): (t: nat)
    ensures t < 0x1_0000_0000_0000_0000
  {
    if x < 0x1_0000_0000_0000_0000 then x else Tick(x - 0x1_0000_0000_0000_0000)
  }

  lemma {:induction false} TickIsModulo(x: nat)
    ensures Tick(x) == x % 0x1_0000_0000_0000_0000
  {
    if x >= 0x1_0000_0000_0000_0000 {
      TickIsModulo(x - 0x1_0000_0000_0000_0000);
    }
  }

  lemma {:induction false} TickSum(a: nat, b: nat)
    ensures Tick(Tick(a) + b) == Tick(a + b)
  {
    if a >= 0x1_0000_0000_0000_0000 {
      TickSum(a - 0x1_0000_0000_0000_0000, b);
    }
  }

  const FLAG_HAS_TIME: nat := 0x1000
  const FLAG_EOB: nat := 0x2000
  const FLAG_SOB: nat := 0x4000
  const FLAG_PROTOCOL_V1: nat := 0x8000

  /** tx_packet_metadata. */
  datatype Metadata = Metadata(valid: bool, hasTime: bool, startOfBurst: bool, endOfBurst: bool)

  function Flag(on: bool, bit: nat): nat {
    if on then bit else 0
  }

  /** encode_tx_seq_flags: the flags occupy the four bits above the count, so or-ing them in is adding them. */
  function EncodeSeqFlags(sequence: nat, valid: bool, hasTime: bool, startOfBurst: bool, endOfBurst: bool): (field: nat)
    ensures field % 0x1000 == sequence % 0x1000
    ensures field < 0x1_0000
  {
    if !valid then sequence % 0x1000
    else sequence % 0x1000 + FLAG_PROTOCOL_V1 + Flag(hasTime, FLAG_HAS_TIME) + Flag(startOfBurst, FLAG_SOB) + Flag(endOfBurst, FLAG_EOB)
  }

  /** Whether a field has a flag: what a receiver tests with a bitwise and. */
  predicate HasFlag(field: nat, bit: nat)
    requires bit > 0
  {
    field / bit % 2 == 1
  }

  /** The receiver reads back the count and every flag; without metadata no flag is ever seen. */
  lemma FlagsReadBack(sequence: nat, valid: bool, hasTime: bool, startOfBurst: bool, endOfBurst: bool)
    ensures var field := EncodeSeqFlags(sequence, valid, hasTime, startOfBurst, endOfBurst);
            && field % 0x1000 == sequence % 0x1000
            && (HasFlag(field, FLAG_PROTOCOL_V1) <==> valid)
            && (HasFlag(field, FLAG_HAS_TIME) <==> valid && hasTime)
            && (HasFlag(field, FLAG_SOB) <==> valid && startOfBurst)
            && (HasFlag(field, FLAG_EOB) <==> valid && endOfBurst)
  {
    var low := sequence % 0x1000;
    var field := EncodeSeqFlags(sequence, valid, hasTime, startOfBurst, endOfBurst);
    var high := (field - low) / 0x1000;
    assert field == 0x1000 * high + low;
    assert field / 0x1000 == high && field / 0x2000 == high / 2 && field / 0x4000 == high / 4 && field / 0x8000 == high / 8;
  }

  datatype Iq = Iq(i: i16, q: i16)

  /** A caller's buffer, I and Q in turn. */
  datatype Buffer = Ints(ints: seq<i16>) | Floats(floats: seq<real>) {
    function Count(): (n: nat)
      ensures var entries := if Ints? then |ints| else |floats|; 2 * n <= entries < 2 * n + 2
    {
      if Ints? then |ints| / 2 else |floats| / 2
    }

    /** Sample s as it goes on the wire. */
    function At(s: nat): Iq
      requires s < Count()
    {
      if Ints? then Iq(ints[2 * s], ints[2 * s + 1]) else Iq(Rounded(floats[2 * s]), Rounded(floats[2 * s + 1]))
    }
  }

  /** lround, half away from zero. */
  function Round(x: real): int {
    if x >= 0.0 then (x + 0.5).Floor else -((-x + 0.5).Floor)
  }

  /** The clamped, scaled and rounded sample. */
  function Rounded(x: real): i16 {
    assert -32767.0 <= Clamp(x) * 32767.0 <= 32767.0;
    Round(Clamp(x) * 32767.0)
  }

  /**
   * r is the integer nearest to 32767 times x, an x above 1 counting as 1 and one below -1 as -1; of two equally near ones it is
   * the one farther from zero.
   */
  ghost predicate Nearest(x: real, r: int) {
    && (x >= 1.0 ==> r == 32767) && (x <= -1.0 ==> r == -32767)
    && (0.0 <= x < 1.0 ==> r as real - 0.5 <= x * 32767.0 < r as real + 0.5)
    && (-1.0 < x < 0.0 ==> r as real - 0.5 < x * 32767.0 <= r as real + 0.5)
  }

  lemma RoundedIsNearest(x: real)
    ensures Nearest(x, Rounded(x))
  {
  }

  /** These two words of a payload are sample i of the caller's buffer: its second entry, Q, first. */
  ghost predicate IsSample(b: Buffer, i: nat, first: i16, second: i16)
    requires i < b.Count()
  {
    if b.Ints? then first == b.ints[2 * i + 1] && second == b.ints[2 * i]
    else Nearest(b.floats[2 * i + 1], first) && Nearest(b.floats[2 * i], second)
  }

  lemma AtIsSample(b: Buffer, i: nat)
    requires i < b.Count()
    ensures IsSample(b, i, b.At(i).q, b.At(i).i)
  {
    if b.Floats? {
      RoundedIsNearest(b.floats[2 * i]);
      RoundedIsNearest(b.floats[2 * i + 1]);
    }
  }

  /** The payload of a run of samples: Q before I. */
  function Swapped(samples: seq<Iq>): (p: seq<i16>)
    ensures |p| == 2 * |samples|
  {
    if samples == [] then []
    else Swapped(samples[..|samples| - 1]) + [samples[|samples| - 1].q, samples[|samples| - 1].i]
  }

  lemma SwappedAppend(samples: seq<Iq>, s: Iq)
    ensures Swapped(samples + [s]) == Swapped(samples) + [s.q, s.i]
  {
    assert (samples + [s])[..|samples|] == samples;
  }

  lemma {:induction false} SwappedAt(samples: seq<Iq>, s: nat)
    requires s < |samples|
    ensures Swapped(samples)[2 * s] == samples[s].q && Swapped(samples)[2 * s + 1] == samples[s].i
  {
    if s < |samples| - 1 {
      SwappedAt(samples[..|samples| - 1], s);
    }
  }

  /** Reading a payload back. */
  function Unswapped(p: seq<i16>): seq<Iq> {
    if |p| < 2 then [] else Unswapped(p[..|p| - 2]) + [Iq(p[|p| - 1], p[|p| - 2])]
  }

  lemma {:induction false} SwapTwice(samples: seq<Iq>)
    ensures Unswapped(Swapped(samples)) == samples
  {
    if samples != [] {
      var front, s := samples[..|samples| - 1], samples[|samples| - 1];
      SwapTwice(front);
      var p := Swapped(samples);
      assert p[..|p| - 2] == Swapped(front) && p[|p| - 2] == s.q && p[|p| - 1] == s.i;
    }
  }

  datatype Packet = Packet(seqFlags: nat, timestamp: nat, length: nat, payload: seq<i16>)

  /** A send call: the samples of its buffers, its metadata, the packet count and the time it starts with. */
  datatype Call = Call(input: seq<Iq>, meta: Metadata, count0: nat, time0: nat)

  function Sum(counts: seq<nat>): nat {
    if counts == [] then 0 else Sum(counts[..|counts| - 1]) + counts[|counts| - 1]
  }

  lemma SumAppend(counts: seq<nat>, n: nat)
    ensures Sum(counts + [n]) == Sum(counts) + n
  {
    assert (counts + [n])[..|counts|] == counts;
  }

  /** What a receiver reads from a packet's field. */
  datatype Fields = Fields(count: nat, protocolV1: bool, hasTime: bool, startOfBurst: bool, endOfBurst: bool)

  function ReadField(field: nat): Fields {
    Fields(field % 0x1000, HasFlag(field, FLAG_PROTOCOL_V1), HasFlag(field, FLAG_HAS_TIME), HasFlag(field, FLAG_SOB), HasFlag(field, FLAG_EOB))
  }

  /** What it should read: the count modulo 4096, and the burst flags of a first or a final packet. */
  function Shown(meta: Metadata, count: nat, first: bool, final: bool): Fields {
    Fields(count % 0x1000, meta.valid, meta.valid && meta.hasTime, meta.valid && meta.startOfBurst && first, meta.valid && meta.endOfBurst && final)
  }

  function FieldFor(meta: Metadata, count: nat, first: bool, final: bool): (field: nat)
    ensures ReadField(field) == Shown(meta, count, first, final)
  {
    FlagsReadBack(count, meta.valid, meta.hasTime, meta.startOfBurst && first, meta.endOfBurst && final);
    EncodeSeqFlags(count, meta.valid, meta.hasTime, meta.startOfBurst && first, meta.endOfBurst && final)
  }

  /** Packet `index` of a call, carrying n samples from sample `first` on. */
  function PacketOf(call: Call, index: nat, first: nat, n: nat): Packet
    requires first + n <= |call.input|
  {
    Packet(FieldFor(call.meta, call.count0 + index, first == 0, first + n == |call.input|),
           Tick(call.time0 + first), HEADER_BYTES + 4 * n, Swapped(call.input[first..first + n]))
  }

  /** The packets of a call that sent these numbers of samples. */
  function Packets(call: Call, counts: seq<nat>): (ps: seq<Packet>)
    requires Sum(counts) <= |call.input|
    ensures |ps| == |counts|
  {
    if counts == [] then []
    else
      var k := |counts| - 1;
      Packets(call, counts[..k]) + [PacketOf(call, k, Sum(counts[..k]), counts[k])]
  }

  lemma PacketsAppend(call: Call, counts: seq<nat>, n: nat)
    requires Sum(counts) + n <= |call.input|
    ensures Sum(counts + [n]) == Sum(counts) + n
    ensures Packets(call, counts + [n]) == Packets(call, counts) + [PacketOf(call, |counts|, Sum(counts), n)]
  {
    SumAppend(counts, n);
    assert (counts + [n])[..|counts|] == counts;
  }

  lemma {:induction false} PacketsAt(call: Call, counts: seq<nat>, j: nat)
    requires Sum(counts) <= |call.input| && j < |counts|
    ensures Sum(counts[..j]) + counts[j] <= |call.input|
    ensures Packets(call, counts)[j] == PacketOf(call, j, Sum(counts[..j]), counts[j])
  {
    var k := |counts| - 1;
    if j < k {
      PacketsAt(call, counts[..k], j);
      assert counts[..k][..j] == counts[..j];
    }
  }

  /** The samples the packets carry, in order. */
  function Carried(ps: seq<Packet>): seq<Iq> {
    if ps == [] then [] else Carried(ps[..|ps| - 1]) + Unswapped(ps[|ps| - 1].payload)
  }

  lemma CarriedAppend(ps: seq<Packet>, p: Packet)
    ensures Carried(ps + [p]) == Carried(ps) + Unswapped(p.payload)
  {
    assert (ps + [p])[..|ps|] == ps;
  }

  lemma Neighbours(input: seq<Iq>, first: nat, n: nat)
    requires first + n <= |input|
    ensures input[..first] + input[first..first + n] == input[..first + n]
  {
  }

  lemma PayloadIsInput(call: Call, index: nat, first: nat, n: nat)
    requires first + n <= |call.input|
    ensures Unswapped(PacketOf(call, index, first, n).payload) == call.input[first..first + n]
  {
    SwapTwice(call.input[first..first + n]);
  }

  lemma PacketsLast(call: Call, counts: seq<nat>, k: nat)
    requires Sum(counts) <= |call.input| && k + 1 == |counts|
    ensures Sum(counts) == Sum(counts[..k]) + counts[k]
    ensures Packets(call, counts) == Packets(call, counts[..k]) + [PacketOf(call, k, Sum(counts[..k]), counts[k])]
  {
  }

  /** What packets carry when one more joins them. */
  lemma CarriedMore(call: Call, ps: seq<Packet>, index: nat, first: nat, n: nat)
    requires first + n <= |call.input|
    ensures Carried(ps + [PacketOf(call, index, first, n)]) == Carried(ps) + call.input[first..first + n]
  {
    CarriedAppend(ps, PacketOf(call, index, first, n));
    PayloadIsInput(call, index, first, n);
  }

  /** The packets tile the input: what they carry is the part of it that was sent. */
  lemma {:induction false} PacketsTileInput(call: Call, counts: seq<nat>)
    requires Sum(counts) <= |call.input|
    ensures Carried(Packets(call, counts)) == call.input[..Sum(counts)]
  {
    if counts != [] {
      var k := |counts| - 1;
      PacketsLast(call, counts, k);
      PacketsTileInput(call, counts[..k]);
      CarriedMore(call, Packets(call, counts[..k]), k, Sum(counts[..k]), counts[k]);
      Neighbours(call.input, Sum(counts[..k]), counts[k]);
    }
  }

  ghost predicate AllPositive(counts: seq<nat>) {
    forall j :: 0 <= j < |counts| ==> counts[j] > 0
  }

  lemma {:induction false} SumsGrow(counts: seq<nat>, j: nat)
    requires AllPositive(counts) && j < |counts|
    ensures Sum(counts[..j]) < Sum(counts) && (j > 0 ==> Sum(counts[..j]) > 0)
    ensures j < |counts| - 1 ==> Sum(counts[..j]) + counts[j] < Sum(counts)
  {
    var k := |counts| - 1;
    if j < k {
      SumsGrow(counts[..k], j);
      assert counts[..k][..j] == counts[..j];
    } else if k > 0 {
      SumsGrow(counts[..k], k - 1);
    }
  }

  /** Only the first packet starts at sample 0, and only the last can end where the samples end. */
  lemma Ends(counts: seq<nat>, total: nat, j: nat)
    requires Sum(counts) <= total && AllPositive(counts) && j < |counts|
    ensures Sum(counts[..j]) == 0 <==> j == 0
    ensures Sum(counts[..j]) + counts[j] == total <==> j == |counts| - 1 && Sum(counts) == total
  {
    SumsGrow(counts, j);
    assert j == 0 ==> counts[..j] == [];
  }

  lemma FieldOf(call: Call, index: nat, first: nat, n: nat, isFirst: bool, isLast: bool)
    requires first + n <= |call.input| && isFirst == (first == 0) && isLast == (first + n == |call.input|)
    ensures ReadField(PacketOf(call, index, first, n).seqFlags) == Shown(call.meta, call.count0 + index, isFirst, isLast)
  {
  }

  /** Every packet of a call has its count, and the burst flags: start on the first only, end on the last of all samples only. */
  lemma PacketFrames(call: Call, counts: seq<nat>, j: nat, final: bool)
    requires Sum(counts) <= |call.input| && AllPositive(counts) && j < |counts|
    requires final == (j == |counts| - 1 && Sum(counts) == |call.input|)
    ensures ReadField(Packets(call, counts)[j].seqFlags) == Shown(call.meta, call.count0 + j, j == 0, final)
  {
    PacketsAt(call, counts, j);
    Ends(counts, |call.input|, j);
    FieldOf(call, j, Sum(counts[..j]), counts[j], j == 0, final);
  }

  /** Every packet of a call has the time of its first sample. */
  lemma PacketTimes(call: Call, counts: seq<nat>, j: nat)
    requires Sum(counts) <= |call.input| && j < |counts|
    ensures var p := Packets(call, counts)[j];
            p.timestamp == Tick(call.time0 + Sum(counts[..j])) && p.length == HEADER_BYTES + 4 * counts[j] == HEADER_BYTES + 2 * |p.payload|
  {
    PacketsAt(call, counts, j);
  }

  /** The samples of the first i buffers, n of each. */
  function Flat(buffs: seq<Buffer>, n: nat, i: nat): (samples: seq<Iq>)
    requires i <= |buffs| && (forall b :: b in buffs ==> n <= b.Count())
  {
    if i == 0 then [] else Flat(buffs, n, i - 1) + Samples(buffs[i - 1], 0, n)
  }

  /** n samples of a buffer. */
  function Samples(b: Buffer, first: nat, n: nat): (samples: seq<Iq>)
    requires first + n <= b.Count()
    ensures |samples| == n
  {
    seq(n, s requires 0 <= s < n => b.At(first + s))
  }

  /** copy_standard_iq_to_e100_qi_cs16: Q and I change places. */
  method CopySwapped(src: Buffer, first: nat, n: nat) returns (dst: array<i16>)
    requires first + n <= src.Count()
    ensures fresh(dst) && dst[..] == Swapped(Samples(src, first, n)) && dst.Length == 2 * n
    ensures forall s {:trigger dst[2 * s]} :: 0 <= s < n ==> IsSample(src, first + s, dst[2 * s], dst[2 * s + 1])
  {
    dst := new i16[2 * n];
    ghost var all, done: seq<Iq> := Samples(src, first, n), [];
    for s := 0 to n
      invariant done == all[..s] && dst[..2 * s] == Swapped(done)
    {
      var sample := src.At(first + s);
      dst[2 * s], dst[2 * s + 1] := sample.q, sample.i;
      SwappedAppend(done, sample);
      assert dst[..2 * (s + 1)] == dst[..2 * s] + [sample.q, sample.i];
      done := done + [sample];
    }
    assert all[..n] == all && dst[..] == dst[..2 * n];
    forall s | 0 <= s < n ensures IsSample(src, first + s, dst[2 * s], dst[2 * s + 1]) {
      CopiedSample(src, first, n, s, dst[..]);
    }
  }

  lemma CopiedSample(src: Buffer, first: nat, n: nat, s: nat, payload: seq<i16>)
    requires first + n <= src.Count() && s < n && payload == Swapped(Samples(src, first, n))
    ensures IsSample(src, first + s, payload[2 * s], payload[2 * s + 1])
  {
    SwappedAt(Samples(src, first, n), s);
    AtIsSample(src, first + s);
  }

  /** The 12 bits of the count are those of the 32-bit counter. */
  lemma CounterBits(meta: Metadata, count: nat, first: bool, final: bool)
    ensures FieldFor(meta, count % 0x1_0000_0000, first, final) == FieldFor(meta, count, first, final)
  {
    assert count % 0x1_0000_0000 % 0x1000 == count % 0x1000;
  }

  lemma PrefixPart(whole: seq<Iq>, front: seq<Iq>, last: seq<Iq>, pos: nat, count: nat)
    requires front + last <= whole && pos + count <= |last|
    ensures whole[|front| + pos..|front| + pos + count] == last[pos..pos + count]
  {
    assert forall j :: 0 <= j < |front + last| ==> whole[j] == (front + last)[j];
  }

  lemma SamplesPart(b: Buffer, n: nat, pos: nat, count: nat)
    requires pos + count <= n <= b.Count()
    ensures Samples(b, 0, n)[pos..pos + count] == Samples(b, pos, count)
  {
  }

  lemma FlatPart(buffs: seq<Buffer>, n: nat, i: nat, total: nat, pos: nat, count: nat)
    requires (forall b :: b in buffs ==> n <= b.Count()) && i < |buffs| && pos + count <= n
    requires total == |Flat(buffs, n, i)| + pos
    ensures total + count <= |Flat(buffs, n, |buffs|)|
    ensures Flat(buffs, n, |buffs|)[total..total + count] == Samples(buffs[i], pos, count)
  {
    hide Samples;
    var whole, front, last := Flat(buffs, n, |buffs|), Flat(buffs, n, i), Samples(buffs[i], 0, n);
    FlatGrows(buffs, n, i + 1, |buffs|);
    assert Flat(buffs, n, i + 1) == front + last;
    hide Flat;
    PrefixPart(whole, front, last, pos, count);
    SamplesPart(buffs[i], n, pos, count);
  }

  lemma FlatEnd(buffs: seq<Buffer>, n: nat, i: nat, total: nat, pos: nat, count: nat)
    requires (forall b :: b in buffs ==> n <= b.Count()) && i < |buffs| && pos + count <= n && count > 0
    requires total == |Flat(buffs, n, i)| + pos
    ensures total + count == |Flat(buffs, n, |buffs|)| <==> pos + count == n && i + 1 == |buffs|
  {
    FlatGrows(buffs, n, i + 1, |buffs|);
  }

  lemma {:induction false} FlatGrows(buffs: seq<Buffer>, n: nat, i: nat, j: nat)
    requires (forall b :: b in buffs ==> n <= b.Count()) && i <= j <= |buffs|
    ensures Flat(buffs, n, i) <= Flat(buffs, n, j)
    ensures n > 0 && i < j ==> |Flat(buffs, n, i)| < |Flat(buffs, n, j)|
    decreases j
  {
    if i < j {
      FlatGrows(buffs, n, i, j - 1);
    }
  }

  /** The packet a turn sends is the next packet of the call. */
  lemma NextPacket(call: Call, index: nat, counter: nat, first: nat, n: nat, samples: seq<Iq>, isFirst: bool, final: bool)
    requires first + n <= |call.input| && samples == call.input[first..first + n] && counter == (call.count0 + index) % 0x1_0000_0000
    requires isFirst == (first == 0) && final == (first + n == |call.input|)
    ensures Packet(FieldFor(call.meta, counter, isFirst, final), Tick(call.time0 + first), HEADER_BYTES + 4 * n, Swapped(samples))
            == PacketOf(call, index, first, n)
  {
    CounterBits(call.meta, call.count0 + index, isFirst, final);
  }

  lemma WireAppend(start: seq<Packet>, ps: seq<Packet>, p: Packet)
    ensures start + ps + [p] == start + (ps + [p])
  {
  }

  lemma NextCounter(count0: nat, k: nat)
    ensures ((count0 + k) % 0x1_0000_0000 + 1) % 0x1_0000_0000 == (count0 + (k + 1)) % 0x1_0000_0000
  {
  }

  /** How one turn of the send loop goes: the stop flag, a wait for readiness that fails, no buffer, or a buffer of some size. */
  datatype Turn = Abort | NotReady | NoBuffer | Granted(size: nat)

  /** Where the send loop is: the packet sizes so far, the buffer, the place in it, and whether the call has given up. */
  datatype Progress = Progress(counts: seq<nat>, i: nat, pos: nat, halted: bool)

  /** A turn that ends the call early. */
  predicate Halts(turn: Turn, waitForReady: bool) {
    turn.Abort? || (turn.NotReady? && !waitForReady)
  }

  /** The samples that fit a transport buffer, or what is left of the caller's. */
  function Share(size: nat, left: nat): nat {
    if size < HEADER_BYTES then 0 else if (size - HEADER_BYTES) / 4 < left then (size - HEADER_BYTES) / 4 else left
  }

  /** One turn, for m buffers of n samples each. */
  function Turned(p: Progress, turn: Turn, m: nat, n: nat, waitForReady: bool): Progress {
    if p.halted || p.i >= m || p.pos >= n then p
    else if Halts(turn, waitForReady) then p.(halted := true)
    else if turn.Granted? then
      var count := Share(turn.size, n - p.pos);
      if p.pos + count == n then Progress(p.counts + [count], p.i + 1, 0, false) else Progress(p.counts + [count], p.i, p.pos + count, false)
    else p
  }

  /** The first t turns. */
  function After(turns: seq<Turn>, t: nat, m: nat, n: nat, waitForReady: bool): Progress
    requires t <= |turns|
  {
    if t == 0 then Progress([], if n == 0 then m else 0, 0, false)
    else Turned(After(turns, t - 1, m, n, waitForReady), turns[t - 1], m, n, waitForReady)
  }

  /** What the whole call sends. */
  function Outcome(turns: seq<Turn>, m: nat, n: nat, waitForReady: bool): Progress {
    After(turns, |turns|, m, n, waitForReady)
  }

  /** A call that is through or has given up makes nothing of further turns. */
  lemma {:induction false} EndedStays(turns: seq<Turn>, t: nat, u: nat, m: nat, n: nat, waitForReady: bool)
    requires t <= u <= |turns|
    requires After(turns, t, m, n, waitForReady).halted || After(turns, t, m, n, waitForReady).i >= m
    ensures After(turns, u, m, n, waitForReady) == After(turns, t, m, n, waitForReady)
    decreases u
  {
    if t < u {
      EndedStays(turns, t, u - 1, m, n, waitForReady);
    }
  }

  /** A turn that grants a buffer adds its packet. */
  lemma GrantedTurn(turns: seq<Turn>, t: nat, m: nat, n: nat, waitForReady: bool, p: Progress)
    requires t < |turns| && turns[t].Granted? && After(turns, t, m, n, waitForReady) == p && !p.halted && p.i < m && p.pos < n
    ensures var count := Share(turns[t].size, n - p.pos);
            After(turns, t + 1, m, n, waitForReady)
            == if p.pos + count == n then Progress(p.counts + [count], p.i + 1, 0, false) else Progress(p.counts + [count], p.i, p.pos + count, false)
  {
  }

  /** Any other turn leaves the packets as they are. */
  lemma OtherTurn(turns: seq<Turn>, t: nat, m: nat, n: nat, waitForReady: bool, p: Progress)
    requires t < |turns| && !turns[t].Granted? && After(turns, t, m, n, waitForReady) == p && !p.halted && p.i < m && p.pos < n
    ensures After(turns, t + 1, m, n, waitForReady) == p.(halted := Halts(turns[t], waitForReady))
    ensures Halts(turns[t], waitForReady) ==> Outcome(turns, m, n, waitForReady) == p.(halted := true)
  {
    if Halts(turns[t], waitForReady) {
      EndedStays(turns, t + 1, |turns|, m, n, waitForReady);
    }
  }

  /** The samples sent are those of the buffers behind, and of this one up to the place in it. */
  ghost predicate Adds(buffs: seq<Buffer>, n: nat, p: Progress)
    requires forall b :: b in buffs ==> n <= b.Count()
  {
    && p.i <= |buffs| && (p.i < |buffs| ==> p.pos < n) && (p.i == |buffs| ==> p.pos == 0)
    && Sum(p.counts) == |Flat(buffs, n, p.i)| + p.pos
  }

  lemma TurnAdds(buffs: seq<Buffer>, n: nat, p: Progress, turn: Turn, waitForReady: bool)
    requires (forall b :: b in buffs ==> n <= b.Count()) && Adds(buffs, n, p)
    ensures Adds(buffs, n, Turned(p, turn, |buffs|, n, waitForReady))
  {
    if turn.Granted? && p.i < |buffs| {
      SumAppend(p.counts, Share(turn.size, n - p.pos));
    }
  }

  lemma {:induction false} AfterAdds(buffs: seq<Buffer>, n: nat, turns: seq<Turn>, t: nat, waitForReady: bool)
    requires (forall b :: b in buffs ==> n <= b.Count()) && t <= |turns|
    ensures Adds(buffs, n, After(turns, t, |buffs|, n, waitForReady))
  {
    if t == 0 {
      FlatOfNone(buffs, n, |buffs|);
    } else {
      hide Adds, Turned;
      AfterAdds(buffs, n, turns, t - 1, waitForReady);
      TurnAdds(buffs, n, After(turns, t - 1, |buffs|, n, waitForReady), turns[t - 1], waitForReady);
    }
  }

  lemma {:induction false} FlatOfNone(buffs: seq<Buffer>, n: nat, i: nat)
    requires i <= |buffs| && (forall b :: b in buffs ==> n <= b.Count())
    ensures n == 0 ==> Flat(buffs, n, i) == []
  {
    if i > 0 {
      FlatOfNone(buffs, n, i - 1);
    }
  }

  lemma {:induction false} HaltHasTurn(turns: seq<Turn>, t: nat, m: nat, n: nat, waitForReady: bool)
    requires t <= |turns| && After(turns, t, m, n, waitForReady).halted
    ensures exists k :: 0 <= k < t && Halts(turns[k], waitForReady)
  {
    if !After(turns, t - 1, m, n, waitForReady).halted {
      assert Halts(turns[t - 1], waitForReady);
    } else {
      HaltHasTurn(turns, t - 1, m, n, waitForReady);
    }
  }

  /**
   * A send is complete exactly when its last buffer is done; it gives up only at an abort, or at a failed wait that it was
   * asked not to repeat.
   */
  lemma ShortSendHasReason(buffs: seq<Buffer>, n: nat, turns: seq<Turn>, waitForReady: bool)
    requires forall b :: b in buffs ==> n <= b.Count()
    ensures var p := Outcome(turns, |buffs|, n, waitForReady);
            && (Sum(p.counts) == |Flat(buffs, n, |buffs|)| <==> p.i == |buffs|)
            && (p.halted ==> exists k :: 0 <= k < |turns| && (turns[k].Abort? || (turns[k].NotReady? && !waitForReady)))
  {
    hide After;
    var p := Outcome(turns, |buffs|, n, waitForReady);
    AfterAdds(buffs, n, turns, |turns|, waitForReady);
    if p.i < |buffs| {
      FlatGrows(buffs, n, p.i + 1, |buffs|);
    }
    if p.halted {
      HaltHasTurn(turns, |turns|, |buffs|, n, waitForReady);
    }
  }

  function Grants(turns: seq<Turn>, t: nat): nat
    requires t <= |turns|
  {
    if t == 0 then 0 else Grants(turns, t - 1) + (if turns[t - 1].Granted? then 1 else 0)
  }

  /** Each of the grants so far has sent something. */
  ghost predicate Pays(p: Progress, m: nat, n: nat, grants: nat) {
    !p.halted && (p.i >= m || (Sum(p.counts) >= grants && p.pos < n))
  }

  lemma TurnPays(p: Progress, turn: Turn, m: nat, n: nat, waitForReady: bool, grants: nat)
    requires Pays(p, m, n, grants) && !Halts(turn, waitForReady) && (turn.Granted? ==> turn.size >= HEADER_BYTES + 4)
    ensures Pays(Turned(p, turn, m, n, waitForReady), m, n, grants + if turn.Granted? then 1 else 0)
  {
    if turn.Granted? && p.i < m {
      SumAppend(p.counts, Share(turn.size, n - p.pos));
    }
  }

  lemma {:induction false} GrantsPay(turns: seq<Turn>, t: nat, m: nat, n: nat, waitForReady: bool)
    requires t <= |turns| && RoomForOne(turns) && (forall k :: 0 <= k < |turns| ==> !Halts(turns[k], waitForReady))
    ensures Pays(After(turns, t, m, n, waitForReady), m, n, Grants(turns, t))
  {
    if t > 0 {
      hide Pays, Turned;
      GrantsPay(turns, t - 1, m, n, waitForReady);
      TurnPays(After(turns, t - 1, m, n, waitForReady), turns[t - 1], m, n, waitForReady, Grants(turns, t - 1));
    }
  }

  /** With nothing to stop it and a transport buffer for every sample, a send is complete. */
  lemma EnoughTurnsComplete(buffs: seq<Buffer>, n: nat, turns: seq<Turn>, waitForReady: bool)
    requires (forall b :: b in buffs ==> n <= b.Count()) && RoomForOne(turns)
    requires forall k :: 0 <= k < |turns| ==> !Halts(turns[k], waitForReady)
    requires Grants(turns, |turns|) >= |Flat(buffs, n, |buffs|)|
    ensures Sum(Outcome(turns, |buffs|, n, waitForReady).counts) == |Flat(buffs, n, |buffs|)|
  {
    hide After, Grants, Flat;
    GrantsPay(turns, |turns|, |buffs|, n, waitForReady);
    SentIsPart(buffs, n, turns, waitForReady);
    ShortSendHasReason(buffs, n, turns, waitForReady);
  }

  lemma SentIsPart(buffs: seq<Buffer>, n: nat, turns: seq<Turn>, waitForReady: bool)
    requires forall b :: b in buffs ==> n <= b.Count()
    ensures var p := Outcome(turns, |buffs|, n, waitForReady);
            Sum(p.counts) <= |Flat(buffs, n, |buffs|)| && p.i <= |buffs|
  {
    hide After;
    AfterAdds(buffs, n, turns, |turns|, waitForReady);
    var p := Outcome(turns, |buffs|, n, waitForReady);
    FlatGrows(buffs, n, if p.i < |buffs| then p.i + 1 else p.i, |buffs|);
  }

  /** The sizes of the buffers granted in the first t turns. */
  function Sizes(turns: seq<Turn>, t: nat): (sizes: seq<nat>)
    requires t <= |turns|
    ensures |sizes| == Grants(turns, t)
  {
    if t == 0 then [] else Sizes(turns, t - 1) + (if turns[t - 1].Granted? then [turns[t - 1].size] else [])
  }

  /**
   * Packet j makes the most of the buffer granted for it: no sample more fits, or it ends where one of the caller's buffers of n
   * samples does.
   */
  ghost predicate Fills(counts: seq<nat>, sizes: seq<nat>, j: nat, n: nat)
    requires j < |counts| <= |sizes|
  {
    && 0 < counts[j] && 16 + 4 * counts[j] <= sizes[j]
    && (sizes[j] < 16 + 4 * (counts[j] + 1) || exists b: nat :: Sum(counts[..j + 1]) == Times(b, n))
  }

  /** Every buffer granted so far has its packet, unless the call was over before. */
  ghost predicate Filling(p: Progress, sizes: seq<nat>, m: nat, n: nat) {
    && |p.counts| <= |sizes| && (p.halted || p.i >= m || |p.counts| == |sizes|)
    && AllFill(p.counts, sizes, n)
    && (n > 0 ==> Sum(p.counts) == Times(p.i, n) + p.pos) && (p.i >= m || p.pos < n)
  }

  ghost predicate AllFill(counts: seq<nat>, sizes: seq<nat>, n: nat)
    requires |counts| <= |sizes|
  {
    forall j: nat :: j < |counts| ==> Fills(counts, sizes, j, n)
  }

  lemma FillLonger(counts: seq<nat>, sizes: seq<nat>, more: seq<nat>, n: nat)
    requires |counts| <= |sizes| && AllFill(counts, sizes, n)
    ensures AllFill(counts, sizes + more, n)
  {
    forall j: nat | j < |counts| ensures Fills(counts, sizes + more, j, n) {
      assert Fills(counts, sizes, j, n);
    }
  }

  lemma TurnFills(p: Progress, turn: Turn, m: nat, n: nat, waitForReady: bool, sizes: seq<nat>)
    requires Filling(p, sizes, m, n) && (turn.Granted? ==> turn.size >= HEADER_BYTES + 4)
    ensures Filling(Turned(p, turn, m, n, waitForReady), sizes + (if turn.Granted? then [turn.size] else []), m, n)
  {
    hide AllFill;
    if turn.Granted? && !p.halted && p.i < m {
      OneMoreFilled(p, Turned(p, turn, m, n, waitForReady), turn.size, Share(turn.size, n - p.pos), sizes, m, n);
    } else {
      FillLonger(p.counts, sizes, if turn.Granted? then [turn.size] else [], n);
    }
  }

  lemma OneMoreFilled(p: Progress, q: Progress, size: nat, count: nat, sizes: seq<nat>, m: nat, n: nat)
    requires Filling(p, sizes, m, n) && |p.counts| == |sizes| && p.pos + count <= n && q.counts == p.counts + [count]
    requires p.i < m && if p.pos + count == n then q.i == p.i + 1 && q.pos == 0 else q.i == p.i && q.pos == p.pos + count
    requires 0 < count && 16 + 4 * count <= size && (size < 16 + 4 * (count + 1) || p.pos + count == n)
    ensures Filling(q, sizes + [size], m, n)
  {
    SumAppend(p.counts, count);
    assert Sum(q.counts) == Times(q.i, n) + q.pos;
    LastFills(p.counts, count, sizes, size, q.i, n);
    AllFillMore(p.counts, count, sizes, size, n);
  }

  lemma LastFills(counts: seq<nat>, count: nat, sizes: seq<nat>, size: nat, b: nat, n: nat)
    requires |counts| == |sizes| && 0 < count && 16 + 4 * count <= size
    requires size < 16 + 4 * (count + 1) || Sum(counts + [count]) == Times(b, n)
    ensures Fills(counts + [count], sizes + [size], |counts|, n)
  {
    assert (counts + [count])[..|counts| + 1] == counts + [count];
  }

  lemma FillsStays(counts: seq<nat>, count: nat, sizes: seq<nat>, size: nat, j: nat, n: nat)
    requires j < |counts| == |sizes| && Fills(counts, sizes, j, n)
    ensures Fills(counts + [count], sizes + [size], j, n)
  {
    assert (counts + [count])[..j + 1] == counts[..j + 1];
  }

  lemma AllFillMore(counts: seq<nat>, count: nat, sizes: seq<nat>, size: nat, n: nat)
    requires |counts| == |sizes| && AllFill(counts, sizes, n) && Fills(counts + [count], sizes + [size], |counts|, n)
    ensures AllFill(counts + [count], sizes + [size], n)
  {
    hide Fills;
    forall j: nat | j < |counts| + 1 ensures Fills(counts + [count], sizes + [size], j, n) {
      if j < |counts| {
        FillsStays(counts, count, sizes, size, j, n);
      }
    }
  }

  lemma {:induction false} TurnsFill(turns: seq<Turn>, t: nat, m: nat, n: nat, waitForReady: bool)
    requires t <= |turns| && RoomForOne(turns)
    ensures Filling(After(turns, t, m, n, waitForReady), Sizes(turns, t), m, n)
  {
    if t > 0 {
      hide Filling, Turned;
      TurnsFill(turns, t - 1, m, n, waitForReady);
      TurnFills(After(turns, t - 1, m, n, waitForReady), turns[t - 1], m, n, waitForReady, Sizes(turns, t - 1));
    }
  }

  /** Each granted buffer takes one packet, as large as it and the caller's buffer allow, until all is sent or a turn ends the call. */
  lemma GrantsAreFilled(turns: seq<Turn>, m: nat, n: nat, waitForReady: bool)
    requires RoomForOne(turns)
    ensures var p := Outcome(turns, m, n, waitForReady);
            && |p.counts| <= Grants(turns, |turns|)
            && AllFill(p.counts, Sizes(turns, |turns|), n)
            && (p.i >= m || |p.counts| == Grants(turns, |turns|)
                || exists k :: 0 <= k < |turns| && (turns[k].Abort? || (turns[k].NotReady? && !waitForReady)))
  {
    TurnsFill(turns, |turns|, m, n, waitForReady);
    if Outcome(turns, m, n, waitForReady).halted {
      HaltHasTurn(turns, |turns|, m, n, waitForReady);
    }
  }

  /** After an abort, or a failed wait that is not to be repeated, nothing more is sent. */
  lemma AbortStops(turns: seq<Turn>, k: nat, m: nat, n: nat, waitForReady: bool)
    requires k < |turns| && (turns[k].Abort? || (turns[k].NotReady? && !waitForReady))
    ensures Outcome(turns, m, n, waitForReady).counts == After(turns, k, m, n, waitForReady).counts
  {
    var p := After(turns, k, m, n, waitForReady);
    assert After(turns, k + 1, m, n, waitForReady) == Turned(p, turns[k], m, n, waitForReady);
    if p.halted || p.i >= m {
      EndedStays(turns, k, |turns|, m, n, waitForReady);
    } else {
      NotAtEnd(turns, k, m, n, waitForReady);
      EndedStays(turns, k + 1, |turns|, m, n, waitForReady);
    }
  }

  lemma {:induction false} NotAtEnd(turns: seq<Turn>, t: nat, m: nat, n: nat, waitForReady: bool)
    requires t <= |turns|
    ensures var p := After(turns, t, m, n, waitForReady); p.i >= m || p.pos < n
  {
    if t > 0 {
      NotAtEnd(turns, t - 1, m, n, waitForReady);
    }
  }

  class SendPacketStreamer {
    /** _last_seq_out, 32 bits. */
    var lastSeqOut: nat
    /** Everything put on the wire. */
    var wire: seq<Packet>

    constructor ()
      ensures lastSeqOut == 0 && wire == []
    {
      lastSeqOut, wire := 0, [];
    }

    /** One packet: header, swapped payload, commit. */
    method SendPacket(src: Buffer, pos: nat, n: nat, meta: Metadata, timestamp: nat, first: bool, final: bool)
      requires pos + n <= src.Count()
      modifies this
      ensures lastSeqOut == (old(lastSeqOut) + 1) % 0x1_0000_0000
      ensures wire == old(wire) + [Packet(FieldFor(meta, old(lastSeqOut), first, final), Tick(timestamp),
                                          HEADER_BYTES + 4 * n, Swapped(Samples(src, pos, n)))]
    {
      var field := EncodeSeqFlags(lastSeqOut, meta.valid, meta.hasTime, meta.startOfBurst && first, meta.endOfBurst && final);
      var payload := CopySwapped(src, pos, n);
      wire := wire + [Packet(field, Tick(timestamp), HEADER_BYTES + 4 * n, payload[..])];
      lastSeqOut := (lastSeqOut + 1) % 0x1_0000_0000;
    }

    /** A turn of the send loop that was granted a buffer. */
    method SendGranted(buffs: seq<Buffer>, n: nat, i: nat, pos: nat, total: nat, size: nat, meta: Metadata, timestamp: nat,
                       ghost call: Call, ghost start: seq<Packet>, ghost counts: seq<nat>)
      returns (count: nat, ghost counts': seq<nat>)
      requires (forall b :: b in buffs ==> n <= b.Count()) && i < |buffs| && pos < n && size >= HEADER_BYTES + 4
      requires call == Call(Flat(buffs, n, |buffs|), meta, call.count0, timestamp) && total == |Flat(buffs, n, i)| + pos
      requires Sent(call, start, counts, total, wire, lastSeqOut)
      modifies this
      ensures 0 < count == Share(size, n - pos) <= n - pos && counts' == counts + [count]
      ensures Sent(call, start, counts', total + count, wire, lastSeqOut)
    {
      var maxSamples := (size - HEADER_BYTES) / 4;
      count := if maxSamples < n - pos then maxSamples else n - pos;
      var final := count == n - pos && i + 1 == |buffs|;
      FlatPart(buffs, n, i, total, pos, count);
      FlatEnd(buffs, n, i, total, pos, count);
      counts' := SendMore(buffs[i], pos, count, total, final, meta, timestamp, call, start, counts);
    }

    /** Its packet, as the next packet of the call. */
    method SendMore(src: Buffer, pos: nat, count: nat, total: nat, final: bool, meta: Metadata, timestamp: nat,
                    ghost call: Call, ghost start: seq<Packet>, ghost counts: seq<nat>)
      returns (ghost counts': seq<nat>)
      requires pos + count <= src.Count() && 0 < count && total + count <= |call.input|
      requires meta == call.meta && timestamp == call.time0 && final == (total + count == |call.input|)
      requires Samples(src, pos, count) == call.input[total..total + count]
      requires Sent(call, start, counts, total, wire, lastSeqOut)
      modifies this
      ensures counts' == counts + [count] && Sent(call, start, counts', total + count, wire, lastSeqOut)
    {
      hide Packets, PacketOf, Swapped, FieldFor;
      ghost var p := PacketOf(call, |counts|, total, count);
      NextPacket(call, |counts|, lastSeqOut, total, count, Samples(src, pos, count), total == 0, final);
      SentMore(call, start, counts, total, wire, lastSeqOut, count, p);
      counts' := counts + [count];
      SendPacket(src, pos, count, meta, timestamp + total, total == 0, final);
    }

    /**
     * send_impl. Each turn of its loop goes as `turns` says; when they run out the stop flag is set. A caller's buffer
     * holds at least n samples, and a transport buffer has room for at least one. Every granted buffer takes as many
     * samples as fit it or are left of the caller's buffer.
     */
    method SendImpl(buffs: seq<Buffer>, n: nat, timestamp: nat, meta: Metadata, waitForReady: bool, turns: seq<Turn>)
      returns (total: nat, timestamp': nat, ghost counts: seq<nat>)
      requires (forall b :: b in buffs ==> n <= b.Count()) && RoomForOne(turns) && lastSeqOut < 0x1_0000_0000
      modifies this
      ensures Sent(Call(Flat(buffs, n, |buffs|), meta, old(lastSeqOut), timestamp), old(wire), counts, total, wire, lastSeqOut)
      ensures old(wire) <= wire && AllSpelled(wire[|old(wire)|..], buffs, n, meta, old(lastSeqOut), timestamp, counts)
      ensures counts == Outcome(turns, |buffs|, n, waitForReady).counts && total == Sum(counts)
      ensures total == |buffs| * n <==> Outcome(turns, |buffs|, n, waitForReady).i == |buffs|
      ensures timestamp' == (timestamp + total) % 0x1_0000_0000_0000_0000
      ensures lastSeqOut == (old(lastSeqOut) + |counts|) % 0x1_0000_0000
    {
      total, timestamp', counts := SendBuffers(buffs, n, timestamp, meta, waitForReady, turns);
      hide AllSpelled, Outcome, Flat;
      SentIsSpelled(buffs, n, Call(Flat(buffs, n, |buffs|), meta, old(lastSeqOut), timestamp), old(wire), counts, total, wire, lastSeqOut);
      FlatLength(buffs, n, |buffs|);
      TickIsModulo(timestamp + total);
    }

    /** Its loop over the buffers. */
    method SendBuffers(buffs: seq<Buffer>, n: nat, timestamp: nat, meta: Metadata, waitForReady: bool, turns: seq<Turn>)
      returns (total: nat, timestamp': nat, ghost counts: seq<nat>)
      requires (forall b :: b in buffs ==> n <= b.Count()) && RoomForOne(turns) && lastSeqOut < 0x1_0000_0000
      modifies this
      ensures Sent(Call(Flat(buffs, n, |buffs|), meta, old(lastSeqOut), timestamp), old(wire), counts, total, wire, lastSeqOut)
      ensures counts == Outcome(turns, |buffs|, n, waitForReady).counts
      ensures total == |Flat(buffs, n, |buffs|)| <==> Outcome(turns, |buffs|, n, waitForReady).i == |buffs|
      ensures timestamp' == Tick(timestamp + total)
    {
      hide Turned, Samples, PacketOf;
      ShortSendHasReason(buffs, n, turns, waitForReady);
      total, counts := 0, [];
      ghost var call, start := Call(Flat(buffs, n, |buffs|), meta, lastSeqOut, timestamp), wire;
      assert start + Packets(call, []) == wire;
      var t: nat := 0;
      for i := 0 to |buffs|
        invariant t <= |turns| && total == |Flat(buffs, n, i)|
        invariant Sent(call, start, counts, total, wire, lastSeqOut)
        invariant After(turns, t, |buffs|, n, waitForReady) == Progress(counts, if n == 0 then |buffs| else i, 0, false)
      {
        var done;
        done, total, t, counts := SendOne(buffs, n, i, total, timestamp, meta, waitForReady, turns, t, call, start, counts);
        if !done {
          timestamp' := Tick(timestamp + total);
          return;
        }
      }
      EndedStays(turns, t, |turns|, |buffs|, n, waitForReady);
      timestamp' := Tick(timestamp + total);
    }

    /** The loop over one buffer: done when all its n samples are sent, otherwise stopped. */
    method SendOne(buffs: seq<Buffer>, n: nat, i: nat, total0: nat, timestamp: nat, meta: Metadata, waitForReady: bool, turns: seq<Turn>, t0: nat,
                   ghost call: Call, ghost start: seq<Packet>, ghost counts0: seq<nat>)
      returns (done: bool, total: nat, t: nat, ghost counts: seq<nat>)
      requires (forall b :: b in buffs ==> n <= b.Count()) && i < |buffs| && RoomForOne(turns) && t0 <= |turns|
      requires call == Call(Flat(buffs, n, |buffs|), meta, call.count0, timestamp) && total0 == |Flat(buffs, n, i)|
      requires Sent(call, start, counts0, total0, wire, lastSeqOut)
      requires After(turns, t0, |buffs|, n, waitForReady) == Progress(counts0, if n == 0 then |buffs| else i, 0, false)
      modifies this
      ensures t <= |turns| && Sent(call, start, counts, total, wire, lastSeqOut)
      ensures done ==> total == total0 + n
      ensures done ==> After(turns, t, |buffs|, n, waitForReady) == Progress(counts, if n == 0 then |buffs| else i + 1, 0, false)
      ensures !done ==> counts == Outcome(turns, |buffs|, n, waitForReady).counts
    {
      hide After, Turned, Sent, Flat;
      total, t, counts := total0, t0, counts0;
      var pos := 0;
      while pos < n
        invariant t <= |turns| && pos <= n && total == total0 + pos
        invariant Sent(call, start, counts, total, wire, lastSeqOut)
        invariant After(turns, t, |buffs|, n, waitForReady)
                  == if n == 0 then Progress(counts, |buffs|, 0, false)
                     else if pos < n then Progress(counts, i, pos, false) else Progress(counts, i + 1, 0, false)
        decreases |turns| - t
      {
        if t == |turns| {
          return false, total, t, counts;
        }
        if turns[t].Granted? {
          GrantedTurn(turns, t, |buffs|, n, waitForReady, Progress(counts, i, pos, false));
          var count;
          count, counts := SendGranted(buffs, n, i, pos, total, turns[t].size, meta, timestamp, call, start, counts);
          pos, total := pos + count, total + count;
        } else {
          OtherTurn(turns, t, |buffs|, n, waitForReady, Progress(counts, i, pos, false));
          if turns[t].Abort? || (turns[t].NotReady? && !waitForReady) {
            return false, total, t, counts;
          }
        }
        t := t + 1;
      }
      done := true;
    }
  }

  /** The transport's buffers have room for a sample. */
  ghost predicate RoomForOne(turns: seq<Turn>) {
    forall k :: 0 <= k < |turns| && turns[k].Granted? ==> turns[k].size >= HEADER_BYTES + 4
  }

  /** What a send call has put on the wire so far. */
  ghost predicate Sent(call: Call, start: seq<Packet>, counts: seq<nat>, total: nat, wire: seq<Packet>, counter: nat) {
    && total == Sum(counts) <= |call.input| && AllPositive(counts)
    && wire == start + Packets(call, counts)
    && counter == (call.count0 + |counts|) % 0x1_0000_0000
  }

  lemma SentMore(call: Call, start: seq<Packet>, counts: seq<nat>, total: nat, wire: seq<Packet>, counter: nat, n: nat, p: Packet)
    requires Sent(call, start, counts, total, wire, counter) && n > 0 && total + n <= |call.input|
    requires p == PacketOf(call, |counts|, total, n)
    ensures Sent(call, start, counts + [n], total + n, wire + [p], (counter + 1) % 0x1_0000_0000)
  {
    PacketsAppend(call, counts, n);
    NextCounter(call.count0, |counts|);
    WireAppend(start, Packets(call, counts), p);
  }

  lemma {:induction false} FlatLength(buffs: seq<Buffer>, n: nat, i: nat)
    requires i <= |buffs| && forall b :: b in buffs ==> n <= b.Count()
    ensures |Flat(buffs, n, i)| == i * n
  {
    if i > 0 {
      FlatLength(buffs, n, i - 1);
      assert i * n == (i - 1) * n + n;
    }
  }

  lemma FlatAt(buffs: seq<Buffer>, n: nat, b: nat, i: nat)
    requires b < |buffs| && i < n && forall b :: b in buffs ==> n <= b.Count()
    ensures b * n + i < |Flat(buffs, n, |buffs|)| && Flat(buffs, n, |buffs|)[b * n + i] == buffs[b].At(i)
  {
    FlatLength(buffs, n, b);
    FlatPart(buffs, n, b, b * n, 0, n);
    assert Flat(buffs, n, |buffs|)[b * n..b * n + n][i] == Samples(buffs[b], 0, n)[i];
  }

  /**
   * A packet of a send call, spelled out: packet j of it, with the samples from `first` on, `count` of the `all` samples. Its length,
   * its time modulo 2^64, its 12-bit number and its flags.
   */
  ghost predicate Headed(p: Packet, meta: Metadata, count0: nat, time0: nat, j: nat, first: nat, count: nat, all: nat) {
    && p.length == 16 + 4 * count && |p.payload| == 2 * count
    && p.timestamp == (time0 + first) % 0x1_0000_0000_0000_0000
    && p.seqFlags == (count0 + j) % 0x1000
                     + (if meta.valid then 0x8000 else 0) + (if meta.valid && meta.hasTime then 0x1000 else 0)
                     + (if meta.valid && meta.startOfBurst && j == 0 then 0x4000 else 0)
                     + (if meta.valid && meta.endOfBurst && first + count == all then 0x2000 else 0)
  }

  /** The entries of the caller's buffers in its payload: sample b * n + i of the call is sample i of buffer b. */
  ghost predicate Filled(payload: seq<i16>, buffs: seq<Buffer>, n: nat, first: nat, count: nat)
    requires 2 * count <= |payload| && forall b :: b in buffs ==> n <= b.Count()
  {
    forall s: nat, b: nat, i: nat {:trigger HasSample(payload, s, buffs, b, i)} ::
      s < count && b < |buffs| && i < n && first + s == b * n + i ==> HasSample(payload, s, buffs, b, i)
  }

  /** Sample s of the payload is sample i of buffer b. */
  ghost predicate HasSample(payload: seq<i16>, s: nat, buffs: seq<Buffer>, b: nat, i: nat)
    requires 2 * s + 1 < |payload| && b < |buffs| && i < buffs[b].Count()
  {
    IsSample(buffs[b], i, payload[2 * s], payload[2 * s + 1])
  }

  lemma PacketHasSample(call: Call, index: nat, first: nat, n: nat, buffs: seq<Buffer>, each: nat, s: nat, b: nat, i: nat)
    requires (forall b :: b in buffs ==> each <= b.Count()) && call.input == Flat(buffs, each, |buffs|)
    requires first + n <= |call.input| && s < n && b < |buffs| && i < each && first + s == b * each + i
    ensures HasSample(PacketOf(call, index, first, n).payload, s, buffs, b, i)
  {
    hide FieldFor, Swapped, Flat, Tick;
    SwappedAt(call.input[first..first + n], s);
    FlatAt(buffs, each, b, i);
    AtIsSample(buffs[b], i);
  }

  lemma PacketFilled(call: Call, index: nat, first: nat, count: nat, buffs: seq<Buffer>, n: nat)
    requires (forall b :: b in buffs ==> n <= b.Count()) && call.input == Flat(buffs, n, |buffs|) && first + count <= |call.input|
    ensures var payload := PacketOf(call, index, first, count).payload; |payload| == 2 * count && Filled(payload, buffs, n, first, count)
  {
    hide HasSample, Flat, FieldFor;
    var payload := PacketOf(call, index, first, count).payload;
    forall s: nat, b: nat, i: nat {:trigger HasSample(payload, s, buffs, b, i)}
      | s < count && b < |buffs| && i < n && first + s == b * n + i
      ensures HasSample(payload, s, buffs, b, i)
    {
      PacketHasSample(call, index, first, count, buffs, n, s, b, i);
    }
  }

  lemma PacketHeaded(call: Call, index: nat, first: nat, count: nat)
    requires first + count <= |call.input| && (first == 0 <==> index == 0)
    ensures Headed(PacketOf(call, index, first, count), call.meta, call.count0, call.time0, index, first, count, |call.input|)
  {
    TickIsModulo(call.time0 + first);
    hide Tick;
  }

  /** Packet j of a send call is spelled out. */
  ghost predicate Spelled(p: Packet, buffs: seq<Buffer>, n: nat, meta: Metadata, count0: nat, time0: nat, counts: seq<nat>, j: nat)
    requires j < |counts| && forall b :: b in buffs ==> n <= b.Count()
  {
    && Headed(p, meta, count0, time0, j, Sum(counts[..j]), counts[j], |buffs| * n)
    && Filled(p.payload, buffs, n, Sum(counts[..j]), counts[j])
  }

  lemma PacketSpelled(call: Call, buffs: seq<Buffer>, n: nat, counts: seq<nat>, j: nat)
    requires (forall b :: b in buffs ==> n <= b.Count()) && call.input == Flat(buffs, n, |buffs|)
    requires j < |counts| && AllPositive(counts) && Sum(counts) <= |call.input|
    ensures Spelled(Packets(call, counts)[j], buffs, n, call.meta, call.count0, call.time0, counts, j)
  {
    PacketsAt(call, counts, j);
    Ends(counts, |call.input|, j);
    FlatLength(buffs, n, |buffs|);
    PacketHeaded(call, j, Sum(counts[..j]), counts[j]);
    PacketFilled(call, j, Sum(counts[..j]), counts[j], buffs, n);
    hide Headed, Filled, PacketOf, Flat, Packets, AllPositive;
  }

  /** So is everything the call has put on the wire. */
  ghost predicate AllSpelled(packets: seq<Packet>, buffs: seq<Buffer>, n: nat, meta: Metadata, count0: nat, time0: nat, counts: seq<nat>)
    requires forall b :: b in buffs ==> n <= b.Count()
  {
    && |packets| == |counts|
    && forall j: nat {:trigger packets[j]} :: j < |counts| ==> Spelled(packets[j], buffs, n, meta, count0, time0, counts, j)
  }

  lemma SentIsSpelled(buffs: seq<Buffer>, n: nat, call: Call, start: seq<Packet>, counts: seq<nat>, total: nat, wire: seq<Packet>, counter: nat)
    requires (forall b :: b in buffs ==> n <= b.Count()) && call.input == Flat(buffs, n, |buffs|)
    requires Sent(call, start, counts, total, wire, counter)
    ensures start <= wire && AllSpelled(wire[|start|..], buffs, n, call.meta, call.count0, call.time0, counts)
  {
    hide Spelled, Flat, Packets;
    var packets := Packets(call, counts);
    assert wire[|start|..] == packets;
    forall j: nat {:trigger packets[j]} | j < |counts|
      ensures Spelled(packets[j], buffs, n, call.meta, call.count0, call.time0, counts, j)
    {
      PacketSpelled(call, buffs, n, counts, j);
    }
  }

  /** Every packet carries its place on the wire, in 12 bits. */
  ghost predicate Numbered(wire: seq<Packet>) {
    forall k {:trigger wire[k]} :: 0 <= k < |wire| ==> ReadField(wire[k].seqFlags).count == k % 0x1000
  }

  /** Counts run on from call to call, whatever flags the calls carry. */
  lemma CountsRunOn(call: Call, start: seq<Packet>, counts: seq<nat>, total: nat, wire: seq<Packet>, counter: nat)
    requires Sent(call, start, counts, total, wire, counter) && Numbered(start) && call.count0 == |start| % 0x1_0000_0000
    ensures Numbered(wire) && counter == |wire| % 0x1_0000_0000
  {
    forall k | 0 <= k < |wire| ensures ReadField(wire[k].seqFlags).count == k % 0x1000 {
      if k < |start| {
        assert wire[k] == start[k];
      } else {
        var j := k - |start|;
        PacketFrames(call, counts, j, j == |counts| - 1 && total == |call.input|);
        LowBits(|start|, j);
      }
    }
    SumBits(|start|, |counts|);
  }

  lemma LowBits(a: nat, j: nat)
    ensures (a % 0x1_0000_0000 + j) % 0x1000 == (a + j) % 0x1000
  {
    LowerBits(a % 0x1_0000_0000 + j, a / 0x1_0000_0000 * 0x10_0000);
  }

  lemma LowerBits(low: nat, high: nat)
    ensures (low + 0x1000 * high) % 0x1000 == low % 0x1000
  {
  }

  lemma SumBits(a: nat, j: nat)
    ensures (a % 0x1_0000_0000 + j) % 0x1_0000_0000 == (a + j) % 0x1_0000_0000
  {
  }
}
