/**
 * The UDP receive path. Queued packets carry no data of their own: the samples
 * stay in the frame memory, so nothing is lost only if no frame is reused early.
 */
module RxTypes {
  import opened Arithmetic

  const TWO64: nat := 0x1_0000_0000_0000_0000

  type u64 = x: nat | x < TWO64

  function Add64(a: u64, b: nat): (c: u64) {
    (a + b) % TWO64
  }

  const NUM_FRAMES: nat := 2048
  const MAX_QUEUED: nat := 4096
  const RX_IQ: nat := 0x5503
  const HEADER_BYTES: nat := 16

  /** One CS16 item. */
  datatype Sample = Sample(i: int, q: int)

  datatype Header = Header(magic: nat, seqNo: nat, packetLen: nat, timestamp: u64)

  datatype RawDatagram = RawDatagram(size: nat, hdr: Header, samples: seq<Sample>)

  /** A received datagram: its size, the header its first 16 bytes parse to, and the whole items that follow. */
  type Datagram = d: RawDatagram | d.size >= HEADER_BYTES ==> |d.samples| == (d.size - HEADER_BYTES) / 4
    witness RawDatagram(0, Header(0, 0, 0, 0), [])

  /** What the worker's next receive call meets. */
  datatype Arrival = Silence | Arrives(d: Datagram)

  /** A queue entry: a reference to a frame, with the parsed header and item count. */
  datatype QueuedPacket = QueuedPacket(frame: nat, hdr: Header, count: nat)

  /** A valid packet as it came off the wire. */
  datatype Packet = Packet(hdr: Header, samples: seq<Sample>)

  /** One delivered item with where it came from. */
  datatype Item = Item(sample: Sample, packetTime: u64, index: nat)

  predicate IsValidPacket(d: Datagram) {
    && d.hdr.magic == RX_IQ
    && d.hdr.packetLen == d.size
    && d.hdr.packetLen >= HEADER_BYTES
    && (d.hdr.packetLen - HEADER_BYTES) % 4 == 0
  }

  function Items(p: Packet): (s: seq<Item>)
    ensures |s| == |p.samples|
  {
    seq(|p.samples|, k requires 0 <= k < |p.samples| => Item(p.samples[k], p.hdr.timestamp, k))
  }

  function AllItems(ps: seq<Packet>): seq<Item> {
    if ps == [] then [] else AllItems(ps[..|ps| - 1]) + Items(ps[|ps| - 1])
  }

  lemma AllItemsAppend(ps: seq<Packet>, p: Packet)
    ensures AllItems(ps + [p]) == AllItems(ps) + Items(p)
  {
    assert (ps + [p])[..|ps|] == ps;
  }

  lemma Assoc(a: seq<Item>, b: seq<Item>, c: seq<Item>)
    ensures a + b + c == a + (b + c)
  {
  }

  lemma {:induction false} AllItemsConcat(a: seq<Packet>, b: seq<Packet>)
    ensures AllItems(a + b) == AllItems(a) + AllItems(b)
  {
    if b == [] {
      assert a + b == a;
    } else {
      var front, last := b[..|b| - 1], b[|b| - 1];
      AllItemsConcat(a, front);
      AllItemsAppend(a + front, last);
      assert a + b == a + front + [last];
      Assoc(AllItems(a), AllItems(front), Items(last));
    }
  }

  /** The tick of an item, and the tick the item after it would have in an unbroken stream. */
  function TickOf(item: Item, channels: nat): u64
    requires channels > 0
  {
    Add64(item.packetTime, Quot(item.index, channels))
  }

  function NextTick(item: Item, channels: nat): u64
    requires channels > 0
  {
    Add64(item.packetTime, Quot(item.index + 1, channels))
  }

  /** No time gap anywhere inside a run of items. */
  ghost predicate Contiguous(items: seq<Item>, channels: nat)
    requires channels > 0
  {
    forall k {:trigger items[k]} :: 0 < k < |items| ==> TickOf(items[k], channels) == NextTick(items[k - 1], channels)
  }

  lemma ContiguousJoin(a: seq<Item>, b: seq<Item>, channels: nat)
    requires channels > 0 && Contiguous(a, channels) && Contiguous(b, channels)
    requires a != [] && b != [] ==> TickOf(b[0], channels) == NextTick(a[|a| - 1], channels)
    ensures Contiguous(a + b, channels)
  {
    forall k {:trigger (a + b)[k]} | 0 < k < |a + b|
      ensures TickOf((a + b)[k], channels) == NextTick((a + b)[k - 1], channels)
    {
      if k >= |a| {
        assert (a + b)[k] == b[k - |a|];
      }
    }
  }

  lemma PacketContiguous(p: Packet, from: nat, end: nat, channels: nat)
    requires channels > 0 && from <= end <= |p.samples|
    ensures Contiguous(Items(p)[from..end], channels)
  {
  }

  /** In a contiguous run of one channel, item k is k ticks after the first. */
  lemma {:induction false} SegmentTicks(items: seq<Item>, k: nat)
    requires Contiguous(items, 1) && k < |items|
    ensures TickOf(items[k], 1) == Add64(TickOf(items[0], 1), k)
  {
    if k > 0 {
      SegmentTicks(items, k - 1);
      var last := items[k - 1];
      assert TickOf(items[k], 1) == NextTick(last, 1);
      QuotIsDiv(last.index, 1);
      QuotIsDiv(last.index + 1, 1);
      NextResidue(last.packetTime + last.index, TickOf(items[0], 1) + (k - 1));
    }
  }

  lemma NextResidue(a: nat, b: nat)
    requires a % TWO64 == b % TWO64
    ensures (a + 1) % TWO64 == (b + 1) % TWO64
  {
  }

  /** The worker rounds a packet's duration up, the consumer rounds it down. */
  function WorkerNext(p: Packet, channels: nat): u64
    requires channels > 0
  {
    Add64(p.hdr.timestamp, Quot(|p.samples| + channels - 1, channels))
  }

  function ConsumerNext(p: Packet, channels: nat): u64
    requires channels > 0
  {
    Add64(p.hdr.timestamp, Quot(|p.samples|, channels))
  }

  /** How many of the packets [1, n) do not start where the worker, or the consumer, expects. */
  function WorkerGaps(ps: seq<Packet>, n: nat, channels: nat): nat
    requires n <= |ps| && channels > 0
  {
    if n <= 1 then 0
    else WorkerGaps(ps, n - 1, channels) + (if ps[n - 1].hdr.timestamp != WorkerNext(ps[n - 2], channels) then 1 else 0)
  }

  function ConsumerGaps(ps: seq<Packet>, n: nat, channels: nat): nat
    requires n <= |ps| && channels > 0
  {
    if n <= 1 then 0
    else ConsumerGaps(ps, n - 1, channels) + (if ps[n - 1].hdr.timestamp != ConsumerNext(ps[n - 2], channels) then 1 else 0)
  }

  /** How many of those gaps go back in time. */
  function WorkerBackwards(ps: seq<Packet>, n: nat, channels: nat): nat
    requires n <= |ps| && channels > 0
  {
    if n <= 1 then 0
    else WorkerBackwards(ps, n - 1, channels) + (if ps[n - 1].hdr.timestamp < WorkerNext(ps[n - 2], channels) then 1 else 0)
  }

  lemma {:induction false} GapsOfPrefix(ps: seq<Packet>, qs: seq<Packet>, n: nat, channels: nat)
    requires n <= |ps| && channels > 0
    ensures WorkerGaps(ps + qs, n, channels) == WorkerGaps(ps, n, channels)
    ensures WorkerBackwards(ps + qs, n, channels) == WorkerBackwards(ps, n, channels)
    ensures ConsumerGaps(ps + qs, n, channels) == ConsumerGaps(ps, n, channels)
  {
    if n > 1 {
      GapsOfPrefix(ps, qs, n - 1, channels);
    }
  }

  /** The two sides agree about a pair of packets exactly when the first one is whole frames or the second starts at neither tick. */
  lemma GapAgreement(a: Packet, b: Packet, channels: nat)
    requires channels > 0
    ensures ((b.hdr.timestamp != WorkerNext(a, channels)) == (b.hdr.timestamp != ConsumerNext(a, channels)))
            <==> (var down := Quot(|a.samples|, channels);
                  Rem(|a.samples|, channels) == 0
                  || b.hdr.timestamp !in {Add64(a.hdr.timestamp, down), Add64(a.hdr.timestamp, down + 1)})
  {
    var n := |a.samples|;
    QuotCeil(n, channels);
    if Rem(n, channels) != 0 {
      Add64Differs(a.hdr.timestamp, Quot(n, channels));
    }
  }

  lemma Add64Differs(t: u64, d: nat)
    ensures Add64(t, d) != Add64(t, d + 1)
  {
  }

  ghost predicate WholeFrames(ps: seq<Packet>, n: nat, channels: nat)
    requires n <= |ps| && channels > 0
  {
    forall k {:trigger ps[k]} :: 0 <= k < n ==> Rem(|ps[k].samples|, channels) == 0
  }

  lemma {:induction false} WholeFramesAgree(ps: seq<Packet>, n: nat, channels: nat)
    requires n <= |ps| && channels > 0 && WholeFrames(ps, n, channels)
    ensures WorkerGaps(ps, n, channels) == ConsumerGaps(ps, n, channels)
  {
    if n > 1 {
      WholeFramesAgree(ps, n - 1, channels);
      GapAgreement(ps[n - 2], ps[n - 1], channels);
    }
  }

  /** With two channels, an odd packet followed without a break is a gap to the consumer only. */
  lemma OddPacketDisagrees()
    ensures exists a: Packet, b: Packet ::
      b.hdr.timestamp == WorkerNext(a, 2) && b.hdr.timestamp != ConsumerNext(a, 2)
  {
    var s := Sample(0, 0);
    var a := Packet(Header(RX_IQ, 0, 28, 10), [s, s, s]);
    var b := Packet(Header(RX_IQ, 1, 24, 12), [s, s]);
    QuotIsDiv(4, 2);
    QuotIsDiv(3, 2);
    assert b.hdr.timestamp == WorkerNext(a, 2) && b.hdr.timestamp != ConsumerNext(a, 2);
  }
}
