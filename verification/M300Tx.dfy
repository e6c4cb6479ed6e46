/** The M300 transmitter: packets of samples, aggregated into DMA buffers. */
module M300Tx {
  import opened M300Protocol
  import opened M300Packer
  import opened Arithmetic

  const AXIS_BYTES: nat := 16
  const SAMPLES_PER_AXIS_WORD: nat := 4
  const MAX_AGGREGATE_PACKETS: nat := 16

  /** One packet's share of the caller's samples. */
  datatype Chunk = Chunk(first: nat, count: nat)

  function Min(a: nat, b: nat): nat {
    if a < b then a else b
  }

  function AlignUp(value: nat, alignment: nat): nat
    requires alignment > 0
  {
    (value + alignment - 1) / alignment * alignment
  }

  /** Samples per channel after padding to whole AXI words. */
  function Padded(channels: nat, samples: nat): nat {
    if channels == 2 then AlignUp(samples, SAMPLES_PER_AXIS_WORD / 2) else AlignUp(samples, SAMPLES_PER_AXIS_WORD)
  }

  /** Padding adds less than one AXI word of four samples, and whole AXI words come out. */
  lemma PaddingIsShort(channels: nat, samples: nat)
    requires 1 <= channels <= 2
    ensures 0 <= Width(channels, Padded(channels, samples)) - Width(channels, samples) < 4
    ensures Width(channels, Padded(channels, samples)) % 4 == 0
    ensures samples > 0 ==> Padded(channels, samples) > 0
  {
    if channels == 2 {
      AlignUpTwo(samples);
    } else {
      AlignUpFour(samples);
    }
  }

  lemma AlignUpTwo(n: nat)
    ensures n <= AlignUp(n, 2) < n + 2 && AlignUp(n, 2) % 2 == 0
  {
  }

  lemma AlignUpFour(n: nat)
    ensures n <= AlignUp(n, 4) < n + 4 && AlignUp(n, 4) % 4 == 0
  {
  }

  /** What fits before padding fits after it. */
  lemma PaddedFits(channels: nat, samples: nat, axisWords: nat)
    requires 1 <= channels <= 2 && Width(channels, samples) <= 4 * axisWords
    ensures Width(channels, Padded(channels, samples)) <= 4 * axisWords
  {
    PaddingIsShort(channels, samples);
  }

  function Zeros(n: nat): (z: seq<word>)
    ensures |z| == n
  {
    if n == 0 then [] else Zeros(n - 1) + [0]
  }

  /** The packet for a chunk: its words in wire order, then padding. */
  function PacketFor(src: Source, c: Chunk, seqNo: nat, timestamp: u64): (p: Packet)
    requires src.Holds(c.first + c.count)
    ensures Width(src.Channels(), c.count) <= |p.payload| < Width(src.Channels(), c.count) + 4
    ensures p.h == Header(MAGIC_TX, seqNo, 0, HEADER_BYTES + 4 * |p.payload|)
  {
    PaddingIsShort(src.Channels(), c.count);
    var words := Width(src.Channels(), Padded(src.Channels(), c.count));
    Packet(Header(MAGIC_TX, seqNo, 0, HEADER_BYTES + 4 * words), timestamp,
           Wire(src, c.first, c.count) + Zeros(words - Width(src.Channels(), c.count)))
  }

  /** The 16-bit sequence counter after k increments. */
  function SeqAt(start: nat, k: nat): (r: nat)
    ensures r < 0x1_0000
  {
    if k == 0 then start % 0x1_0000 else (SeqAt(start, k - 1) + 1) % 0x1_0000
  }

  lemma ModSucc(x: nat)
    ensures (x % 0x1_0000 + 1) % 0x1_0000 == (x + 1) % 0x1_0000
  {
  }

  lemma {:induction false} SeqAtIsSum(start: nat, k: nat)
    ensures SeqAt(start, k) == (start + k) % 0x1_0000
  {
    if k > 0 {
      SeqAtIsSum(start, k - 1);
      ModSucc(start + k - 1);
    }
  }

  /** The samples in the first k packets of a send of n samples. */
  function SentBy(n: nat, perPacket: nat, k: nat): (sent: nat)
    ensures sent <= n
  {
    if k == 0 then 0 else SentBy(n, perPacket, k - 1) + Min(perPacket, n - SentBy(n, perPacket, k - 1))
  }

  /** What one call sends: the caller's samples, the packet size, the next sequence number and the start time. */
  datatype Job = Job(src: Source, n: nat, perPacket: nat, seqNo: nat, timestamp: nat) {
    function Share(k: nat): Chunk {
      Chunk(SentBy(n, perPacket, k), Min(perPacket, n - SentBy(n, perPacket, k)))
    }
  }

  /** Packet k: numbered k after the first, stamped with the start time plus the samples before it. */
  function PacketNo(job: Job, k: nat): Packet
    requires job.src.Holds(job.n)
  {
    PacketFor(job.src, job.Share(k), SeqAt(job.seqNo, k), (job.timestamp + job.Share(k).first) % 0x1_0000_0000_0000_0000)
  }

  /** plan lists the packets of a job. */
  ghost predicate Planned(job: Job, plan: nat -> Packet) {
    job.src.Holds(job.n) && forall k: nat {:trigger PacketNo(job, k)} :: plan(k) == PacketNo(job, k)
  }

  /** The first k packets of a plan. */
  function FirstPackets(plan: nat -> Packet, k: nat): (ps: seq<Packet>)
    ensures |ps| == k
  {
    if k == 0 then [] else FirstPackets(plan, k - 1) + [plan(k - 1)]
  }

  lemma {:induction false} FirstPacketsAt(plan: nat -> Packet, k: nat, i: nat)
    requires i < k
    ensures FirstPackets(plan, k)[i] == plan(i)
  {
    if i < k - 1 {
      FirstPacketsAt(plan, k - 1, i);
    }
  }

  /** Their bytes. */
  function Image(plan: nat -> Packet, k: nat): seq<byte> {
    if k == 0 then [] else Image(plan, k - 1) + Encode(plan(k - 1))
  }

  lemma {:induction false} ImageIsPrint(plan: nat -> Packet, k: nat)
    ensures Image(plan, k) == Print(FirstPackets(plan, k))
  {
    if k > 0 {
      ImageIsPrint(plan, k - 1);
      PrintAppend(FirstPackets(plan, k - 1), plan(k - 1));
    }
  }

  lemma ImageMore(plan: nat -> Packet, k: nat, image: seq<byte>, before: seq<byte>)
    requires image + before == Image(plan, k)
    ensures image + (before + Encode(plan(k))) == Image(plan, k + 1)
  {
    Assoc(image, before, Encode(plan(k)));
  }

  lemma PlannedIs(job: Job, plan: nat -> Packet, k: nat, c: Chunk, seqNo: nat, stamp: u64)
    requires Planned(job, plan) && c == job.Share(k) && seqNo == SeqAt(job.seqNo, k)
    requires stamp == (job.timestamp + c.first) % 0x1_0000_0000_0000_0000
    ensures plan(k) == PacketFor(job.src, c, seqNo, stamp) && SeqAt(job.seqNo, k + 1) == (seqNo + 1) % 0x1_0000
  {
    assert plan(k) == PacketNo(job, k);
  }

  /** What a receiver that knows the packet sizes reads: the payloads without padding, one behind the other. */
  function Unpadded(plan: nat -> Packet, job: Job, k: nat): seq<word> {
    if k == 0 then []
    else
      var words := Width(job.src.Channels(), job.Share(k - 1).count);
      Unpadded(plan, job, k - 1) + plan(k - 1).payload[..Min(|plan(k - 1).payload|, words)]
  }

  lemma PayloadIsWire(src: Source, c: Chunk, seqNo: nat, timestamp: u64)
    requires src.Holds(c.first + c.count)
    ensures var payload := PacketFor(src, c, seqNo, timestamp).payload;
            payload[..Min(|payload|, Width(src.Channels(), c.count))] == Wire(src, c.first, c.count)
  {
  }

  /** Put together, the payloads are exactly the accepted prefix of the caller's samples. */
  lemma {:induction false} PayloadsAreInput(job: Job, plan: nat -> Packet, k: nat)
    requires Planned(job, plan)
    ensures Unpadded(plan, job, k) == Wire(job.src, 0, SentBy(job.n, job.perPacket, k))
  {
    if k > 0 {
      PayloadsAreInput(job, plan, k - 1);
      NextPayload(job, plan, k);
    }
  }

  lemma NextPayload(job: Job, plan: nat -> Packet, k: nat)
    requires Planned(job, plan) && k > 0
    requires Unpadded(plan, job, k - 1) == Wire(job.src, 0, SentBy(job.n, job.perPacket, k - 1))
    ensures Unpadded(plan, job, k) == Wire(job.src, 0, SentBy(job.n, job.perPacket, k))
  {
    hide PacketNo, Wire, Unpadded, Width;
    UnpaddedMore(job, plan, k);
    NextWords(job.src, job.Share(k - 1).first, job.Share(k - 1).count, SentBy(job.n, job.perPacket, k));
  }

  lemma NextWords(src: Source, a: nat, b: nat, end: nat)
    requires src.Holds(a + b) && end == a + b
    ensures Wire(src, 0, a) + Wire(src, a, b) == Wire(src, 0, end)
  {
    WireSplit(src, a, b);
  }

  lemma UnpaddedMore(job: Job, plan: nat -> Packet, k: nat)
    requires Planned(job, plan) && k > 0
    ensures Unpadded(plan, job, k) == Unpadded(plan, job, k - 1) + Wire(job.src, job.Share(k - 1).first, job.Share(k - 1).count)
  {
    PayloadOf(job, plan, k - 1);
  }

  lemma PayloadOf(job: Job, plan: nat -> Packet, k: nat)
    requires Planned(job, plan)
    ensures plan(k).payload[..Min(|plan(k).payload|, Width(job.src.Channels(), job.Share(k).count))]
            == Wire(job.src, job.Share(k).first, job.Share(k).count)
  {
    assert plan(k) == PacketNo(job, k);
    PayloadIsWire(job.src, job.Share(k), plan(k).h.seqNo, plan(k).timestamp);
  }

  /** What every packet of a job is: its number, its time, its padding, and a sound header. */
  lemma PacketFacts(job: Job, i: nat)
    requires job.src.Holds(job.n)
    ensures var p, c := PacketNo(job, i), job.Share(i);
            && Sound(p) && p.h.magic == MAGIC_TX
            && p.h.seqNo == (job.seqNo + i) % 0x1_0000
            && p.timestamp == (job.timestamp + c.first) % 0x1_0000_0000_0000_0000
            && c.first == SentBy(job.n, job.perPacket, i)
            && exists z: nat :: z < 4 && p.payload == Wire(job.src, c.first, c.count) + Zeros(z)
  {
    var p, c := PacketNo(job, i), job.Share(i);
    SeqAtIsSum(job.seqNo, i);
    PaddingIsShort(job.src.Channels(), c.count);
    var z := |p.payload| - Width(job.src.Channels(), c.count);
    assert p.payload == Wire(job.src, c.first, c.count) + Zeros(z);
  }

  /** The packets of a send hold perPacket samples each, up to the last sample. */
  lemma {:induction false} SentByIs(n: nat, perPacket: nat, k: nat)
    ensures SentBy(n, perPacket, k) == if k * perPacket < n then k * perPacket else n
  {
    if k > 0 {
      SentByIs(n, perPacket, k - 1);
      assert k * perPacket == (k - 1) * perPacket + perPacket;
    }
  }

  /** The words of `count` sample times from `first` on, the channels taking turns, and then zeros up to a multiple of four words. */
  ghost predicate SpelledPayload(payload: seq<word>, src: Source, first: nat, count: nat)
    requires src.Holds(first + count)
  {
    var words := if src.Channels() == 2 then 2 * count else count;
    && |payload| % 4 == 0 && words <= |payload| < words + 4
    && (forall k {:trigger payload[k]} :: words <= k < |payload| ==> payload[k] == 0)
    && forall s: nat, c: nat {:trigger IsSample(payload, src, first, s, c)} :: s < count && c < src.Channels() ==> IsSample(payload, src, first, s, c)
  }

  ghost predicate IsSample(payload: seq<word>, src: Source, first: nat, s: nat, c: nat)
    requires src.Holds(first + s + 1) && c < src.Channels() && Place(src.Channels(), s, c) < |payload|
  {
    SampleWord(payload[Place(src.Channels(), s, c)], src, c, first + s)
  }

  lemma {:induction false} ZerosAt(n: nat, k: nat)
    requires k < n
    ensures Zeros(n)[k] == 0
  {
    if k < n - 1 {
      ZerosAt(n - 1, k);
    }
  }

  lemma PayloadSpelled(src: Source, first: nat, count: nat, z: nat)
    requires src.Holds(first + count) && z < 4 && (Width(src.Channels(), count) + z) % 4 == 0
    ensures SpelledPayload(Wire(src, first, count) + Zeros(z), src, first, count)
  {
    hide SampleWord, OnWire, Wire;
    var payload, wire := Wire(src, first, count) + Zeros(z), Wire(src, first, count);
    WireIsOnWire(src, first, count);
    forall k {:trigger payload[k]} | |wire| <= k < |payload| ensures payload[k] == 0 {
      ZerosAt(z, k - |wire|);
    }
    forall s: nat, c: nat {:trigger IsSample(payload, src, first, s, c)} | s < count && c < src.Channels()
      ensures IsSample(payload, src, first, s, c)
    {
      SampleOnWire(src, first, count, wire, s, c);
    }
  }

  /**
   * Packet i of a send call, spelled out: samples i * perPacket up to (i + 1) * perPacket or the last, its type, its number modulo
   * 65536, its length, its time modulo 2^64, and its words.
   */
  ghost predicate Spelled(p: Packet, src: Source, n: nat, perPacket: nat, seqNo: nat, timestamp: nat, i: nat)
    requires src.Holds(n)
  {
    var first := if i * perPacket < n then i * perPacket else n;
    && p.h == Header(0x5504, (seqNo + i) % 0x1_0000, 0, 16 + 4 * |p.payload|)
    && p.timestamp == (timestamp + first) % 0x1_0000_0000_0000_0000
    && SpelledPayload(p.payload, src, first, if perPacket < n - first then perPacket else n - first)
  }

  lemma PacketSpelled(job: Job, i: nat)
    requires job.src.Holds(job.n)
    ensures Spelled(PacketNo(job, i), job.src, job.n, job.perPacket, job.seqNo, job.timestamp, i)
  {
    hide SpelledPayload, Zeros, Wire, SeqAt, SentBy;
    var p, c := PacketNo(job, i), job.Share(i);
    SentByIs(job.n, job.perPacket, i);
    SeqAtIsSum(job.seqNo, i);
    PaddingIsShort(job.src.Channels(), c.count);
    PayloadSpelled(job.src, c.first, c.count, |p.payload| - Width(job.src.Channels(), c.count));
  }

  /** The packets of a plan are. */
  ghost predicate AllSpelled(ps: seq<Packet>, src: Source, n: nat, perPacket: nat, seqNo: nat, timestamp: nat)
    requires src.Holds(n)
  {
    forall i: nat {:trigger ps[i]} :: i < |ps| ==> Spelled(ps[i], src, n, perPacket, seqNo, timestamp, i)
  }

  lemma PlanSpelled(job: Job, plan: nat -> Packet, k: nat)
    requires Planned(job, plan)
    ensures AllSpelled(FirstPackets(plan, k), job.src, job.n, job.perPacket, job.seqNo, job.timestamp)
  {
    hide Spelled, PacketNo;
    var ps := FirstPackets(plan, k);
    forall i: nat {:trigger ps[i]} | i < |ps| ensures Spelled(ps[i], job.src, job.n, job.perPacket, job.seqNo, job.timestamp, i) {
      FirstPacketsAt(plan, k, i);
      assert plan(i) == PacketNo(job, i);
      PacketSpelled(job, i);
    }
  }

  /** The printed stream parses back into the packets exactly when their lengths fit the header's 24 bits. */
  lemma StreamParses(job: Job, plan: nat -> Packet, k: nat)
    requires Planned(job, plan)
    ensures ParseStream(Print(FirstPackets(plan, k))) == FirstPackets(plan, k)
            <==> forall i: nat :: i < k ==> plan(i).h.length < 0x100_0000
  {
    var ps := FirstPackets(plan, k);
    forall i: nat | i < k ensures ps[i] == plan(i) && Sound(plan(i)) && plan(i) in ps {
      FirstPacketsAt(plan, k, i);
      assert plan(i) == PacketNo(job, i);
      PacketFacts(job, i);
    }
    forall p | p in ps ensures Sound(p) {
      var i :| 0 <= i < k && ps[i] == p;
    }
    PrintParses(ps);
  }

  /** A packet's bytes, in the order fill_packet writes them. */
  lemma PacketBytes(src: Source, c: Chunk, p: Packet, wire: seq<word>, zeros: seq<word>, before: seq<byte>)
    requires src.Holds(c.first + c.count) && wire == Wire(src, c.first, c.count)
    requires zeros == Zeros(Width(src.Channels(), Padded(src.Channels(), c.count)) - |wire|)
    requires p == PacketFor(src, c, p.h.seqNo, p.timestamp)
    ensures before + Le(Raw(p.h), 8) + Le(p.timestamp, 8) + WordBytes(wire) + WordBytes(zeros) == before + Encode(p)
  {
    assert p.payload == wire + zeros;
    WordBytesConcat(wire, zeros);
    FiveParts(before, Le(Raw(p.h), 8), Le(p.timestamp, 8), WordBytes(wire), WordBytes(zeros));
  }

  lemma FiveParts(a: seq<byte>, b: seq<byte>, c: seq<byte>, d: seq<byte>, e: seq<byte>)
    ensures a + b + c + d + e == a + (b + c + (d + e))
  {
  }

  /** n / channels, for one or two channels. */
  function PerChannel(n: nat, channels: nat): nat {
    if channels == 2 then n / 2 else n
  }

  /** A packet longer than a header and one AXI word has room for a sample of each channel. */
  lemma HoldsOne(maxPacketBytes: nat, channels: nat)
    requires maxPacketBytes > HEADER_BYTES + AXIS_BYTES && 1 <= channels <= 2
    ensures PerChannel((maxPacketBytes - HEADER_BYTES) / AXIS_BYTES * SAMPLES_PER_AXIS_WORD, channels) >= 1
  {
  }

  /** A packet of that many samples fills the configured size. */
  lemma WholeAxisWords(maxPacketBytes: nat, channels: nat)
    requires maxPacketBytes > HEADER_BYTES && maxPacketBytes % AXIS_BYTES == 0 && 1 <= channels <= 2
    ensures 16 + (if channels == 2 then 8 else 4) * PerChannel((maxPacketBytes - HEADER_BYTES) / AXIS_BYTES * SAMPLES_PER_AXIS_WORD, channels)
            == maxPacketBytes
  {
    var q := maxPacketBytes / 16;
    assert maxPacketBytes == 16 * q && (maxPacketBytes - HEADER_BYTES) / AXIS_BYTES == q - 1;
  }

  lemma RoomForOne(bytes: nat, k: nat, m: nat, f: nat)
    requires m > 0 && k < Quot(f, m) && bytes <= Times(k, m)
    ensures bytes + m <= f
  {
    TimesFits(k + 1, m, f);
  }

  /** memset of the padding words. */
  method ClearWords(p: array<byte>, at: nat, n: nat)
    requires at + 4 * n <= p.Length
    modifies p
    ensures p[..at + 4 * n] == old(p[..at]) + WordBytes(Zeros(n))
  {
    hide WordBytes, Le;
    ghost var before := p[..at];
    for k := 0 to n
      invariant p[..at + 4 * k] == before + WordBytes(Zeros(k))
    {
      Store(p, at + 4 * k, 0, 4);
      WordBytesAppend(Zeros(k), 0);
      Assoc(before, WordBytes(Zeros(k)), Le(0, 4));
    }
  }

  /** A packet of at most the configured size fits its share of a buffer. */
  lemma PacketFits(channels: nat, maxPacketBytes: nat, count: nat)
    requires 1 <= channels <= 2 && maxPacketBytes >= HEADER_BYTES && maxPacketBytes % AXIS_BYTES == 0
    requires count <= PerChannel((maxPacketBytes - HEADER_BYTES) / AXIS_BYTES * SAMPLES_PER_AXIS_WORD, channels)
    ensures var bytes := HEADER_BYTES + 4 * Width(channels, Padded(channels, count));
            bytes <= maxPacketBytes && bytes % AXIS_BYTES == 0
  {
    var axisWords := (maxPacketBytes - HEADER_BYTES) / AXIS_BYTES;
    if channels == 2 {
      assert axisWords * SAMPLES_PER_AXIS_WORD / 2 == 2 * axisWords;
    }
    PaddedFits(channels, count, axisWords);
    PaddingIsShort(channels, count);
  }

  /** A full packet of the job has room in its share of a buffer. */
  ghost predicate Room(maxPacketBytes: nat, job: Job) {
    && maxPacketBytes > HEADER_BYTES + AXIS_BYTES && maxPacketBytes % AXIS_BYTES == 0 && 1 <= job.src.Channels() <= 2
    && 0 < job.perPacket <= PerChannel((maxPacketBytes - HEADER_BYTES) / AXIS_BYTES * SAMPLES_PER_AXIS_WORD, job.src.Channels())
  }

  /** No packet of the job is longer than the configured size. */
  lemma PacketShort(maxPacketBytes: nat, job: Job, i: nat)
    requires Room(maxPacketBytes, job) && job.src.Holds(job.n)
    ensures PacketNo(job, i).h.length <= maxPacketBytes
  {
    PacketFits(job.src.Channels(), maxPacketBytes, job.Share(i).count);
  }

  /** With packets below 16 MiB every send parses back. */
  lemma SmallPacketsParse(maxPacketBytes: nat, job: Job, plan: nat -> Packet, k: nat)
    requires Room(maxPacketBytes, job) && Planned(job, plan) && maxPacketBytes < 0x100_0000
    ensures ParseStream(Print(FirstPackets(plan, k))) == FirstPackets(plan, k)
  {
    forall i: nat | i < k ensures plan(i).h.length < 0x100_0000 {
      assert plan(i) == PacketNo(job, i);
      PacketShort(maxPacketBytes, job, i);
    }
    StreamParses(job, plan, k);
  }

  datatype SendResult = Sent(samples: nat) | Threw(reason: string)

  class M300TxStreamer {
    const maxPacketBytes: nat
    const frameBytes: nat
    var maxPacketsPerWrite: nat
    var maxWireSamplesPerPacket: nat
    var maxSamplesPerPacket: nat
    var maxSamplesPerSend: nat
    var samplesPerPacket: nat
    var channels: nat
    var ignoreTimestamps: bool
    var active: bool
    var sequence: nat
    /** The committed part of every buffer enqueued since construction, in order. */
    var enqueued: seq<seq<byte>>

    ghost predicate Valid()
      reads this
    {
      && maxPacketBytes > HEADER_BYTES + AXIS_BYTES && maxPacketBytes % AXIS_BYTES == 0 && frameBytes >= maxPacketBytes
      && maxPacketsPerWrite == Min(MAX_AGGREGATE_PACKETS, Quot(frameBytes, maxPacketBytes))
      && maxWireSamplesPerPacket == (maxPacketBytes - HEADER_BYTES) / AXIS_BYTES * SAMPLES_PER_AXIS_WORD
      && 1 <= channels <= 2
      && maxSamplesPerPacket == PerChannel(maxWireSamplesPerPacket, channels)
      && 1 <= samplesPerPacket <= maxSamplesPerPacket
      && sequence < 0x1_0000
    }

    constructor (packetBytes: nat, xportFrameBytes: nat)
      requires packetBytes > HEADER_BYTES + AXIS_BYTES && packetBytes % AXIS_BYTES == 0 && xportFrameBytes >= packetBytes
      ensures Valid() && !active && enqueued == [] && channels == 1
      ensures maxPacketBytes == packetBytes && frameBytes == xportFrameBytes && samplesPerPacket == maxSamplesPerPacket
      ensures 16 + 4 * maxSamplesPerPacket == packetBytes
      ensures maxPacketsPerWrite == if xportFrameBytes / packetBytes > 16 then 16 else xportFrameBytes / packetBytes
    {
      QuotIsDiv(xportFrameBytes, packetBytes);
      WholeAxisWords(packetBytes, 1);
      maxPacketBytes, frameBytes := packetBytes, xportFrameBytes;
      maxPacketsPerWrite := Min(MAX_AGGREGATE_PACKETS, Quot(xportFrameBytes, packetBytes));
      maxWireSamplesPerPacket := (packetBytes - HEADER_BYTES) / AXIS_BYTES * SAMPLES_PER_AXIS_WORD;
      var size := (packetBytes - HEADER_BYTES) / AXIS_BYTES * SAMPLES_PER_AXIS_WORD;
      maxSamplesPerPacket, samplesPerPacket := size, size;
      maxSamplesPerSend := size * Min(MAX_AGGREGATE_PACKETS, Quot(xportFrameBytes, packetBytes));
      channels, ignoreTimestamps, active, sequence, enqueued := 1, true, false, 0, [];
    }

    /** configure: the channel mask, and a packet size within what one packet can hold. */
    method Configure(requested: nat, timed: bool, channelEnable: nat) returns (ok: bool)
      requires Valid()
      modifies `channels, `maxSamplesPerPacket, `maxSamplesPerSend, `samplesPerPacket, `ignoreTimestamps
      ensures Valid()
      ensures ok <==> channelEnable == 1 || channelEnable == 3
      ensures ok ==> channels == (if channelEnable == 3 then 2 else 1) && ignoreTimestamps == !timed
      ensures ok ==> samplesPerPacket == (if requested == 0 then 1 else Min(requested, maxSamplesPerPacket))
      ensures ok ==> maxSamplesPerSend == maxSamplesPerPacket * maxPacketsPerWrite && 16 + (if channels == 2 then 8 else 4) * maxSamplesPerPacket == maxPacketBytes
      ensures !ok ==> channels == old(channels) && samplesPerPacket == old(samplesPerPacket)
                      && ignoreTimestamps == old(ignoreTimestamps) && maxSamplesPerSend == old(maxSamplesPerSend)
    {
      if channelEnable != 1 && channelEnable != 3 {
        return false;
      }
      hide PerChannel, Quot;
      WholeAxisWords(maxPacketBytes, if channelEnable == 3 then 2 else 1);
      HoldsOne(maxPacketBytes, if channelEnable == 3 then 2 else 1);
      channels := if channelEnable == 3 then 2 else 1;
      maxSamplesPerPacket := PerChannel(maxWireSamplesPerPacket, channels);
      maxSamplesPerSend := maxSamplesPerPacket * maxPacketsPerWrite;
      samplesPerPacket := Min(requested, maxSamplesPerPacket);
      if samplesPerPacket < 1 {
        samplesPerPacket := 1;
      }
      ignoreTimestamps := !timed;
      ok := true;
    }

    /** set_stream_tx_start and set_stream_tx_stop, without the worker and the hardware registers. */
    method Start()
      requires Valid()
      modifies `active, `sequence
      ensures Valid() && active && sequence == 0
    {
      sequence := 0;
      active := true;
    }

    method Stop()
      requires Valid()
      modifies `active
      ensures Valid() && !active
    {
      active := false;
    }

    /** fill_packet: header, timestamp, payload, cleared padding. */
    method FillPacket(p: array<byte>, at: nat, src: Source, c: Chunk, padded: nat, timestamp: u64, hasAvx2: bool, ghost packet: Packet)
      requires src.Holds(c.first + c.count) && channels == src.Channels() && sequence < 0x1_0000
      requires padded == Padded(channels, c.count) && at + HEADER_BYTES + 4 * Width(channels, padded) <= p.Length
      requires packet == PacketFor(src, c, sequence, timestamp)
      modifies p, `sequence
      ensures sequence == (old(sequence) + 1) % 0x1_0000
      ensures p[..at + HEADER_BYTES + 4 * Width(channels, padded)] == old(p[..at]) + Encode(packet)
    {
      PaddingIsShort(channels, c.count);
      var words, paddedWords := Width(channels, c.count), Width(channels, padded);
      var header := Header(MAGIC_TX, sequence, 0, HEADER_BYTES + 4 * paddedWords);
      assert header == packet.h;
      sequence := (sequence + 1) % 0x1_0000;
      WritePacket(p, at, header, timestamp, src, c, words, paddedWords - words, hasAvx2, packet);
    }

    /** The rest of that body, when there is room: packet k of the job. */
    method PutPacket(frame: array<byte>, bytes: nat, sent: nat, c: Chunk, padded: nat, job: Job, hasAvx2: bool,
                     ghost plan: nat -> Packet, ghost k: nat, ghost image: seq<byte>)
      requires Planned(job, plan) && channels == job.src.Channels() && c == job.Share(k) && c.first == sent
      requires sequence == SeqAt(job.seqNo, k)
      requires bytes <= frame.Length && image + frame[..bytes] == Image(plan, k)
      requires padded == Padded(channels, c.count) && bytes + HEADER_BYTES + 4 * Width(channels, padded) <= frame.Length
      modifies frame, `sequence
      ensures sequence == SeqAt(job.seqNo, k + 1)
      ensures image + frame[..bytes + HEADER_BYTES + 4 * Width(channels, padded)] == Image(plan, k + 1)
    {
      hide PacketFor, PacketNo, Encode, Width, Padded;
      var stamp := (job.timestamp + sent) % 0x1_0000_0000_0000_0000;
      PlannedIs(job, plan, k, c, sequence, stamp);
      ImageMore(plan, k, image, frame[..bytes]);
      FillPacket(frame, bytes, job.src, c, padded, stamp, hasAvx2, plan(k));
    }

    /** The body of the inner loop of send_impl: one more packet; the buffer always has room for it. */
    method AddPacket(frame: array<byte>, bytes: nat, sent: nat, count: nat, job: Job, hasAvx2: bool,
                     ghost plan: nat -> Packet, ghost k: nat, ghost image: seq<byte>)
      returns (full: bool, bytes': nat, sent': nat)
      requires Room(maxPacketBytes, job) && channels == job.src.Channels() && Planned(job, plan)
      requires bytes <= Times(count, maxPacketBytes) && count < Quot(frame.Length, maxPacketBytes) && bytes <= frame.Length
      requires SentBy(job.n, job.perPacket, k) == sent < job.n && sequence == SeqAt(job.seqNo, k)
      requires image + frame[..bytes] == Image(plan, k)
      modifies frame, `sequence
      ensures bytes < bytes' <= Times(count + 1, maxPacketBytes) && bytes' <= frame.Length
      ensures !full && SentBy(job.n, job.perPacket, k + 1) == sent' > sent && sequence == SeqAt(job.seqNo, k + 1)
      ensures image + frame[..bytes'] == Image(plan, k + 1)
    {
      var c := Chunk(sent, Min(job.perPacket, job.n - sent));
      var padded := Padded(channels, c.count);
      bytes', sent' := bytes + HEADER_BYTES + 4 * Width(channels, padded), sent + c.count;
      PacketFits(channels, maxPacketBytes, c.count);
      RoomForOne(bytes, count, maxPacketBytes, frame.Length);
      full := bytes' > frame.Length;
      if !full {
        PutPacket(frame, bytes, sent, c, padded, job, hasAvx2, plan, k, image);
      }
    }

    /** The inner loop of send_impl: packets up to the limit or the end of the samples; k of them are sent already. */
    method FillAggregate(frame: array<byte>, total: nat, job: Job, hasAvx2: bool, ghost plan: nat -> Packet, ghost k: nat)
      returns (bytes: nat, sent: nat, count: nat, ghost k': nat)
      requires Room(maxPacketBytes, job) && channels == job.src.Channels() && Planned(job, plan)
      requires 1 <= maxPacketsPerWrite <= Quot(frame.Length, maxPacketBytes)
      requires SentBy(job.n, job.perPacket, k) == total < job.n && sequence == SeqAt(job.seqNo, k)
      modifies frame, `sequence
      ensures 0 < count <= maxPacketsPerWrite && 0 < bytes <= frame.Length && total < sent
      ensures sent == job.n || count == maxPacketsPerWrite
      ensures k' == k + count && SentBy(job.n, job.perPacket, k') == sent && sequence == SeqAt(job.seqNo, k')
      ensures SentBy(job.n, job.perPacket, k' - 1) < job.n
      ensures Image(plan, k) + frame[..bytes] == Image(plan, k')
    {
      hide Planned, Image, Room, SentBy, SeqAt;
      bytes, sent, count, k' := 0, total, 0, k;
      ghost var image := Image(plan, k);
      assert image + frame[..0] == image;
      while sent < job.n && count < maxPacketsPerWrite
        invariant count <= bytes <= Times(count, maxPacketBytes) && count <= maxPacketsPerWrite && bytes <= frame.Length
        invariant total + count <= sent && (count == 0 ==> sent < job.n)
        invariant k' == k + count && SentBy(job.n, job.perPacket, k') == sent && sequence == SeqAt(job.seqNo, k')
        invariant image + frame[..bytes] == Image(plan, k')
        invariant count > 0 ==> SentBy(job.n, job.perPacket, k' - 1) < job.n
      {
        var full, packetEnd, sampleEnd;
        full, packetEnd, sampleEnd := AddPacket(frame, bytes, sent, count, job, hasAvx2, plan, k', image);
        if full {
          break;
        }
        bytes, sent, count, k' := packetEnd, sampleEnd, count + 1, k' + 1;
      }
    }

    /**
     * send_impl. isNull says which of the caller's buffer pointers are null, grants how many send buffers the
     * transport hands out before a wait for one times out.
     */
    method SendImpl(src: Source, supported: bool, isNull: seq<bool>, n: nat, timestamp: u64, hasAvx2: bool, grants: nat)
      returns (r: SendResult, timestamp': u64, ghost plan: nat -> Packet, ghost k: nat)
      requires Valid() && |isNull| == src.Channels()
      requires src.Channels() == channels && AllSet(isNull) ==> src.Holds(n)
      modifies `sequence, `enqueued
      ensures Valid()
      ensures r.Threw? <==> !supported || (active && n > 0 && src.Channels() != channels)
      ensures r.Sent? && (!active || n == 0 || !AllSet(isNull)) ==> r.samples == 0
      ensures r.Threw? || r.samples == 0 ==>
                enqueued == old(enqueued) && sequence == old(sequence) && timestamp' == timestamp
      ensures r.Sent? && r.samples > 0 ==>
                var job := Job(src, n, samplesPerPacket, old(sequence), timestamp);
                && Planned(job, plan)
                && r.samples == SentBy(n, samplesPerPacket, k)
                && Concat(enqueued) == Concat(old(enqueued)) + Print(FirstPackets(plan, k))
                && sequence == SeqAt(old(sequence), k)
      ensures r.Sent? && r.samples > 0 ==>
                && AllSpelled(FirstPackets(plan, k), src, n, samplesPerPacket, old(sequence), timestamp)
                && r.samples == (if k * samplesPerPacket < n then k * samplesPerPacket else n) && (k - 1) * samplesPerPacket < n
                && sequence == (old(sequence) + k) % 0x1_0000
                && Aggregated(|enqueued| - |old(enqueued)|, k, maxPacketsPerWrite, r.samples < n)
      ensures r.Sent? ==> timestamp' == (timestamp + r.samples) % 0x1_0000_0000_0000_0000
      ensures r.Sent? && r.samples < n && active && AllSet(isNull) ==> |enqueued| == |old(enqueued)| + grants
    {
      hide Concat, Print, FirstPackets, Planned, SentBy, AllSpelled, Aggregated;
      plan, k, timestamp' := i => NO_PACKET, 0, timestamp;
      if !supported {
        r := Threw("M300 TX supports CF32 and CS16 samples");
        return;
      }
      r := Sent(0);
      if !active || n == 0 {
        return;
      }
      if src.Channels() != channels {
        r := Threw("M300 TX buffer count does not match configured channels");
        return;
      }
      for channel := 0 to channels
        invariant forall c :: 0 <= c < channel ==> !isNull[c]
      {
        if isNull[channel] {
          return;
        }
      }
      assert Quot(frameBytes, maxPacketBytes) >= 1;
      var total: nat;
      ghost var job := Job(src, n, samplesPerPacket, sequence, timestamp);
      total, plan, k := SendBuffers(Job(src, n, samplesPerPacket, sequence, timestamp), hasAvx2, grants);
      SendSpelled(job, plan, k);
      timestamp' := (timestamp + total) % 0x1_0000_0000_0000_0000;
      r := Sent(total);
    }

    /** The body of the outer loop of send_impl: one buffer, filled and enqueued. */
    method SendBuffer(total: nat, job: Job, hasAvx2: bool, ghost plan: nat -> Packet, ghost k: nat, ghost before: seq<byte>)
      returns (sent: nat, ghost k': nat)
      requires Room(maxPacketBytes, job) && channels == job.src.Channels() && Planned(job, plan)
      requires 1 <= maxPacketsPerWrite <= Quot(frameBytes, maxPacketBytes)
      requires SentBy(job.n, job.perPacket, k) == total < job.n && sequence == SeqAt(job.seqNo, k)
      requires Concat(enqueued) == before + Image(plan, k)
      modifies `sequence, `enqueued
      ensures total < sent && SentBy(job.n, job.perPacket, k') == sent && sequence == SeqAt(job.seqNo, k')
      ensures k < k' <= k + maxPacketsPerWrite && (sent < job.n ==> k' == k + maxPacketsPerWrite) && SentBy(job.n, job.perPacket, k' - 1) < job.n
      ensures |enqueued| == |old(enqueued)| + 1 && enqueued[..|old(enqueued)|] == old(enqueued)
      ensures 0 < |enqueued[|old(enqueued)|]| <= frameBytes
      ensures Concat(enqueued) == before + Image(plan, k')
    {
      var frame := new byte[frameBytes];
      var bytes, count;
      bytes, sent, count, k' := FillAggregate(frame, total, job, hasAvx2, plan, k);
      Assoc(before, Image(plan, k), frame[..bytes]);
      ConcatAppend(enqueued, frame[..bytes]);
      if count > 0 {
        enqueued := enqueued + [frame[..bytes]];
      }
    }

    /** The outer loop of send_impl: one buffer after the other until the samples or the buffers run out. */
    method SendBuffers(job: Job, hasAvx2: bool, grants: nat) returns (total: nat, ghost plan: nat -> Packet, ghost k: nat)
      requires Room(maxPacketBytes, job) && channels == job.src.Channels() && job.src.Holds(job.n)
      requires 1 <= maxPacketsPerWrite <= Quot(frameBytes, maxPacketBytes)
      requires sequence == SeqAt(job.seqNo, 0)
      modifies `sequence, `enqueued
      ensures Planned(job, plan) && total == SentBy(job.n, job.perPacket, k) && sequence == SeqAt(job.seqNo, k)
      ensures Concat(enqueued) == Concat(old(enqueued)) + Print(FirstPackets(plan, k))
      ensures total == 0 ==> enqueued == old(enqueued) && sequence == old(sequence)
      ensures total < job.n ==> |enqueued| == |old(enqueued)| + grants
      ensures Aggregated(|enqueued| - |old(enqueued)|, k, maxPacketsPerWrite, total < job.n)
      ensures k > 0 ==> SentBy(job.n, job.perPacket, k - 1) < job.n
    {
      hide FirstPackets, Print, Aggregated, Room, Planned, SentBy, SeqAt, Image, Concat;
      NoneSent(job, maxPacketsPerWrite);
      plan := PlanOf(job);
      total, k := 0, 0;
      ghost var before := Concat(enqueued);
      NoImage(plan, before);
      var used := 0;
      while total < job.n
        invariant total == SentBy(job.n, job.perPacket, k) && sequence == SeqAt(job.seqNo, k)
        invariant Concat(enqueued) == before + Image(plan, k)
        invariant used <= grants && |enqueued| == |old(enqueued)| + used
        invariant total == 0 ==> enqueued == old(enqueued) && sequence == old(sequence)
        invariant Aggregated(used, k, maxPacketsPerWrite, total < job.n)
        invariant k > 0 ==> SentBy(job.n, job.perPacket, k - 1) < job.n
        decreases job.n - total
      {
        if used == grants {
          break;
        }
        used := used + 1;
        ghost var packets := k;
        total, k := SendBuffer(total, job, hasAvx2, plan, k, before);
        AggregatedMore(used - 1, packets, k, maxPacketsPerWrite, total < job.n);
      }
      ImageIsPrint(plan, k);
    }
  }

  ghost function PlanOf(job: Job): (plan: nat -> Packet)
    requires job.src.Holds(job.n)
    ensures Planned(job, plan)
  {
    (i: nat) => if job.src.Holds(job.n) then PacketNo(job, i) else NO_PACKET
  }

  lemma NoneSent(job: Job, perBuffer: nat)
    ensures SentBy(job.n, job.perPacket, 0) == 0 && Aggregated(0, 0, perBuffer, 0 < job.n)
  {
  }

  lemma NoImage(plan: nat -> Packet, before: seq<byte>)
    ensures before + Image(plan, 0) == before
  {
  }

  /** One more buffer. */
  lemma AggregatedMore(buffers: nat, k: nat, k': nat, perBuffer: nat, more: bool)
    requires Aggregated(buffers, k, perBuffer, true) && k < k' <= k + perBuffer && (more ==> k' == k + perBuffer)
    ensures Aggregated(buffers + 1, k', perBuffer, more)
  {
  }

  lemma SendSpelled(job: Job, plan: nat -> Packet, k: nat)
    requires Planned(job, plan) && job.seqNo < 0x1_0000
    ensures AllSpelled(FirstPackets(plan, k), job.src, job.n, job.perPacket, job.seqNo, job.timestamp)
    ensures SeqAt(job.seqNo, k) == (job.seqNo + k) % 0x1_0000
    ensures SentBy(job.n, job.perPacket, k) == if k * job.perPacket < job.n then k * job.perPacket else job.n
    ensures k > 0 && SentBy(job.n, job.perPacket, k - 1) < job.n ==> (k - 1) * job.perPacket < job.n
  {
    PlanSpelled(job, plan, k);
    SeqAtIsSum(job.seqNo, k);
    SentByIs(job.n, job.perPacket, k);
    if k > 0 {
      SentByIs(job.n, job.perPacket, k - 1);
    }
  }

  /** k packets in these buffers: each buffer is filled before the next one is begun, and if samples are left the last one is full too. */
  ghost predicate Aggregated(buffers: int, k: nat, perBuffer: nat, more: bool) {
    && buffers >= 0 && k <= Times(buffers, perBuffer) && (buffers > 0 ==> Times(buffers - 1, perBuffer) < k)
    && (more ==> k == Times(buffers, perBuffer))
  }

  const NO_PACKET: Packet := Packet(Header(0, 0, 0, 0), 0, [])

  /** No pointer is null. */
  predicate AllSet(isNull: seq<bool>) {
    forall c :: 0 <= c < |isNull| ==> !isNull[c]
  }

  /** Buffers one behind the other. */
  function Concat(buffers: seq<seq<byte>>): seq<byte> {
    if buffers == [] then [] else Concat(buffers[..|buffers| - 1]) + buffers[|buffers| - 1]
  }

  lemma ConcatAppend(buffers: seq<seq<byte>>, last: seq<byte>)
    ensures Concat(buffers + [last]) == Concat(buffers) + last
  {
    assert (buffers + [last])[..|buffers|] == buffers;
  }

  method WritePacket(p: array<byte>, at: nat, header: Header, timestamp: u64, src: Source, c: Chunk, words: nat, padding: nat,
                     hasAvx2: bool, ghost packet: Packet)
    requires src.Holds(c.first + c.count) && packet == PacketFor(src, c, header.seqNo, timestamp) && header == packet.h
    requires words == Width(src.Channels(), c.count) && words + padding == Width(src.Channels(), Padded(src.Channels(), c.count))
    requires at + HEADER_BYTES + 4 * (words + padding) <= p.Length
    modifies p
    ensures p[..at + HEADER_BYTES + 4 * (words + padding)] == old(p[..at]) + Encode(packet)
  {
    ghost var wire := Wire(src, c.first, c.count);
    PacketBytes(src, c, packet, wire, Zeros(padding), p[..at]);
    WriteParts(p, at, header, timestamp, src, c, words, padding, hasAvx2);
  }

  method WriteParts(p: array<byte>, at: nat, header: Header, timestamp: u64, src: Source, c: Chunk, words: nat, padding: nat,
                    hasAvx2: bool)
    requires src.Holds(c.first + c.count) && words == Width(src.Channels(), c.count)
    requires at + HEADER_BYTES + 4 * (words + padding) <= p.Length
    modifies p
    ensures p[..at + HEADER_BYTES + 4 * (words + padding)]
            == old(p[..at]) + Le(Raw(header), 8) + Le(timestamp, 8) + WordBytes(Wire(src, c.first, c.count)) + WordBytes(Zeros(padding))
  {
    hide WordBytes, Le, Raw, Wire, Zeros, Width;
    WriteFront(p, at, header, timestamp);
    WriteSamples(p, at + 16, src, c, words, hasAvx2);
    ClearWords(p, at + 16 + 4 * words, padding);
  }

  method WriteSamples(p: array<byte>, at: nat, src: Source, c: Chunk, words: nat, hasAvx2: bool)
    requires src.Holds(c.first + c.count) && words == Width(src.Channels(), c.count) && at + 4 * words <= p.Length
    modifies p
    ensures p[..at + 4 * words] == old(p[..at]) + WordBytes(Wire(src, c.first, c.count))
  {
    WireIsOnWire(src, c.first, c.count);
    PackPayload(p, at, src, c.first, c.count, hasAvx2, Wire(src, c.first, c.count));
  }

  method WriteFront(p: array<byte>, at: nat, header: Header, timestamp: u64)
    requires at + HEADER_BYTES <= p.Length
    modifies p
    ensures p[..at + HEADER_BYTES] == old(p[..at]) + Le(Raw(header), 8) + Le(timestamp, 8)
  {
    Store(p, at, Raw(header), 8);
    Store(p, at + 8, timestamp, 8);
  }
}
