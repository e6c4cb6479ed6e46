/** What the receive pipeline keeps of what arrives, kept beside a run and spelled out on the datagrams themselves. */
module RxHistory {
  import opened Arithmetic
  import opened Options
  import opened RxTypes
  import opened RxFrames
  import opened RxMachine
  import opened RxSafety

  /** A packet of IQ samples that fills its datagram and has at least one item. */
  ghost predicate WellFormed(d: Datagram) {
    d.hdr.magic == 0x5503 && d.size == d.hdr.packetLen && exists n: nat :: n >= 1 && d.size == 16 + 4 * n
  }

  /** The worker's two checks together let through exactly these. */
  lemma KeptAreWellFormed(d: Datagram)
    ensures !TooShort(d) && IsValidPacket(d) <==> WellFormed(d)
    ensures TooShort(d) <==> d.size < 20
  {
    if !TooShort(d) && IsValidPacket(d) {
      var n := (d.size - 16) / 4;
      assert d.size == 16 + 4 * n;
    }
  }

  /**
   * received counts the datagrams that found the frame in turn free. kept are the well-formed ones of them since the counters
   * were last cleared, rejected how many others were no shorter than a header and an item, since how many were kept when the
   * stream was last stopped, and ticks whether only tick calls have read since the counters were cleared.
   */
  datatype Log = Log(received: nat, kept: seq<Packet>, rejected: nat, since: nat, ticks: bool)

  const NOTHING_YET := Log(0, [], 0, 0, true)

  /** A datagram arrives where the frame in turn is free; the frames take turns. */
  ghost predicate Accepted(l: Log, s: Rx, input: Arrival) {
    && s.worker.Idle? && input.Arrives? && input.d.size > 0
    && |s.xport.locked| == 2048 && !s.xport.locked[l.received % 2048]
  }

  /** The log after action a, taken in state s. */
  ghost function Entry(l: Log, s: Rx, a: Action): Log {
    match a
    case Work(input) =>
      if !Accepted(l, s, input) then l
      else if WellFormed(input.d) then l.(received := l.received + 1, kept := l.kept + [Packet(input.d.hdr, input.d.samples)])
      else l.(received := l.received + 1, rejected := if input.d.size < 20 then l.rejected else l.rejected + 1)
    case DrainTransport(input) => if Accepted(l, s, input) then l.(received := l.received + 1) else l
    case PopOne(ticks) => l.(ticks := l.ticks && ticks)
    case TakeFlag(ticks) => l.(ticks := l.ticks && ticks)
    case CopyOut(_) => l
    case StopStream => l.(since := |l.kept|)
    case ClearStats => l.(kept := [], rejected := 0, since := 0, ticks := true)
  }

  /** The log of a run. */
  ghost function History(start: Rx, actions: seq<Action>): Log
    decreases |actions|
  {
    if actions == [] then NOTHING_YET
    else
      var front, a := actions[..|actions| - 1], actions[|actions| - 1];
      if Enabled(Run(start, front), a) then Entry(History(start, front), Run(start, front), a) else History(start, front)
  }

  /** The datagram in the worker's hands, before it has looked at it. */
  function InHand(s: Rx): Option<Datagram> {
    if s.worker.Received? && s.worker.frame < |s.xport.memory| then Some(s.xport.memory[s.worker.frame]) else None
  }

  /** The machine's history is that of the log, the datagram in the worker's hands counted in. */
  ghost predicate Agree(s: Rx, l: Log) {
    var d := InHand(s);
    && s.xport.Turn() == l.received % 2048
    && l.kept == s.counted + (if d.Some? && WellFormed(d.value) then [Packet(d.value.hdr, d.value.samples)] else [])
    && l.rejected == s.continuity.invalidPackets + (if d.Some? && !WellFormed(d.value) && d.value.size >= 20 then 1 else 0)
    && l.since == s.past.base && l.ticks == s.past.ticksOnly
  }

  lemma NextTurn(n: nat, turn: nat)
    requires turn == n % 2048
    ensures (n + 1) % 2048 == if turn + 1 == 2048 then 0 else turn + 1
  {
  }

  /** The worker claims a frame, or not. */
  lemma GetFrameAgrees(s: Rx, input: Arrival, l: Log)
    requires Inv(s) && s.worker == Idle && Agree(s, l)
    ensures Agree(GetFrame(s, input), Entry(l, s, Work(input)))
  {
    hide Inv, WellFormed;
    NextTurn(l.received, s.xport.Turn());
  }

  lemma InspectAgrees(s: Rx, l: Log)
    requires Inv(s) && s.worker.Received? && Agree(s, l)
    ensures Agree(Inspect(s), l)
  {
    hide Inv, WellFormed, TooShort, IsValidPacket;
    KeptAreWellFormed(s.xport.memory[s.worker.frame]);
  }

  lemma WorkAgrees(s: Rx, input: Arrival, l: Log)
    requires Inv(s) && Agree(s, l)
    ensures Agree(WorkerStep(s, input), Entry(l, s, Work(input)))
  {
    hide Inv;
    match s.worker
    case Idle => GetFrameAgrees(s, input, l);
    case Received(_) => InspectAgrees(s, l);
    case Counted(_) =>
    case Queued(_) =>
  }

  lemma {:induction false} DrainedKeepsTurn(x: Transport, fifo: seq<QueuedPacket>)
    requires x.Shaped() && forall k {:trigger fifo[k]} :: 0 <= k < |fifo| ==> fifo[k].frame < NUM_FRAMES
    ensures DrainedQueue(x, fifo).next == x.next
    decreases |fifo|
  {
    if fifo != [] {
      DrainedKeepsTurn(x.Unref(fifo[0].frame), fifo[1..]);
    }
  }

  lemma StopAgrees(s: Rx, l: Log)
    requires Inv(s) && s.worker == Idle && Agree(s, l)
    ensures Agree(Stop(s), Entry(l, s, StopStream))
  {
    hide Inv, WellFormed;
    DrainedKeepsTurn(s.xport, s.fifo);
  }

  lemma DiscardAgrees(s: Rx, input: Arrival, l: Log)
    requires Inv(s) && s.worker == Idle && Agree(s, l)
    ensures Agree(Discard(s, input), Entry(l, s, DrainTransport(input)))
  {
    hide Inv, WellFormed;
    NextTurn(l.received, s.xport.Turn());
  }

  lemma ConsumerAgrees(s: Rx, a: Action, l: Log)
    requires Inv(s) && Enabled(s, a) && Agree(s, l) && (a.PopOne? || a.TakeFlag? || a.CopyOut?)
    ensures Agree(Apply(s, a), Entry(l, s, a))
  {
    hide Inv, WellFormed;
  }

  lemma ApplyAgrees(s: Rx, a: Action, l: Log)
    requires Inv(s) && Enabled(s, a) && Agree(s, l)
    ensures Agree(Apply(s, a), Entry(l, s, a))
  {
    hide Inv, Agree, Entry;
    match a
    case Work(input) => WorkAgrees(s, input, l);
    case StopStream => StopAgrees(s, l);
    case DrainTransport(input) => DiscardAgrees(s, input, l);
    case ClearStats => ClearAgrees(s, l);
    case _ => ConsumerAgrees(s, a, l);
  }

  lemma ClearAgrees(s: Rx, l: Log)
    requires s.worker == Idle && Agree(s, l)
    ensures Agree(ClearCounters(s), Entry(l, s, ClearStats))
  {
  }

  /**
   * Over any interleaving from a new streamer on: the packets counted are exactly the well-formed datagrams that found the frame
   * in turn free, in order, since the counters were cleared, and invalid_packets counts the others that were long enough.
   */
  lemma {:induction false} CountedAreReceived(channels: nat, memory: seq<Datagram>, actions: seq<Action>)
    requires channels > 0 && |memory| == NUM_FRAMES
    ensures Agree(Run(Fresh(channels, memory), actions), History(Fresh(channels, memory), actions))
    decreases |actions|
  {
    var start := Fresh(channels, memory);
    FreshIsSafe(channels, memory);
    if actions != [] {
      hide Inv, Agree, Entry, Enabled, Apply;
      var front, a := actions[..|actions| - 1], actions[|actions| - 1];
      CountedAreReceived(channels, memory, front);
      RunKeeps(start, front);
      if Enabled(Run(start, front), a) {
        ApplyAgrees(Run(start, front), a, History(start, front));
      }
    }
  }

  // ---- What is delivered of it ----

  /** The items in the first j packets. */
  function Total(ps: seq<Packet>, j: nat): nat
    requires j <= |ps|
  {
    if j == 0 then 0 else Total(ps, j - 1) + |ps[j - 1].samples|
  }

  lemma {:induction false} TotalOfPrefix(ps: seq<Packet>, n: nat, j: nat)
    requires j <= n <= |ps|
    ensures Total(ps[..n], j) == Total(ps, j)
  {
    if j > 0 {
      TotalOfPrefix(ps, n, j - 1);
    }
  }

  /** Item k of packet j lies behind the items of the packets in front of it. */
  lemma {:induction false} ItemsInOrder(ps: seq<Packet>, j: nat, k: nat)
    requires j < |ps| && k < |ps[j].samples|
    ensures |AllItems(ps)| == Total(ps, |ps|) && Total(ps, j) + k < |AllItems(ps)|
    ensures AllItems(ps)[Total(ps, j) + k] == Item(ps[j].samples[k], ps[j].hdr.timestamp, k)
  {
    var n := |ps| - 1;
    TotalOfPrefix(ps, n, n);
    TotalOfPrefix(ps, n, j);
    ItemCount(ps[..n]);
    if j < n {
      ItemsInOrder(ps[..n], j, k);
    }
  }

  lemma {:induction false} ItemCount(ps: seq<Packet>)
    ensures |AllItems(ps)| == Total(ps, |ps|)
  {
    if ps != [] {
      var n := |ps| - 1;
      ItemCount(ps[..n]);
      TotalOfPrefix(ps, n, n);
    }
  }

  lemma PrefixOfKept(counted: seq<Packet>, more: seq<Packet>, base: nat, some: seq<Item>)
    requires base <= |counted| && some <= AllItems(counted[base..])
    ensures some <= AllItems((counted + more)[base..])
  {
    AllItemsConcat(counted[base..], more);
    assert (counted + more)[base..] == counted[base..] + more;
  }

  /**
   * Over any interleaving: what has been delivered since the last stop is, item by item with packet time and place, the samples
   * of the well-formed datagrams received since, and once nothing is pending, queued or in the worker's hands it is all of them.
   */
  lemma DeliveredAreReceived(channels: nat, memory: seq<Datagram>, actions: seq<Action>)
    requires channels > 0 && |memory| == NUM_FRAMES
    ensures var s, l := Run(Fresh(channels, memory), actions), History(Fresh(channels, memory), actions);
            && l.since <= |l.kept|
            && DeliversItems(s.past.delivered, l.kept[l.since..])
            && (s.con.pending.None? && s.fifo == [] && s.worker.Idle? ==>
                  |s.past.delivered| == Total(l.kept[l.since..], |l.kept| - l.since))
  {
    hide Inv;
    var start := Fresh(channels, memory);
    FreshIsSafe(channels, memory);
    CountedAreReceived(channels, memory, actions);
    NothingLostOrRepeated(start, actions);
    var s, l := Run(start, actions), History(start, actions);
    var more := l.kept[|s.counted|..];
    assert l.kept == s.counted + more;
    PrefixOfKept(s.counted, more, l.since, s.past.delivered);
    PrefixDelivers(s.past.delivered, l.kept[l.since..]);
    if s.con.pending.None? && s.fifo == [] && s.worker.Idle? {
      assert l.kept == s.counted;
      assert s.past.delivered + [] + [] == s.past.delivered;
      ItemCount(l.kept[l.since..]);
    }
  }

  /** These are the first of the packets' items. */
  ghost predicate DeliversItems(delivered: seq<Item>, ps: seq<Packet>) {
    && |delivered| <= Total(ps, |ps|)
    && forall j: nat, k: nat {:trigger ps[j].samples[k]} :: j < |ps| && k < |ps[j].samples| && Total(ps, j) + k < |delivered| ==>
         delivered[Total(ps, j) + k] == Item(ps[j].samples[k], ps[j].hdr.timestamp, k)
  }

  lemma PrefixDelivers(delivered: seq<Item>, ps: seq<Packet>)
    requires delivered <= AllItems(ps)
    ensures DeliversItems(delivered, ps)
  {
    ItemCount(ps);
    forall j: nat, k: nat {:trigger ps[j].samples[k]} | j < |ps| && k < |ps[j].samples| && Total(ps, j) + k < |delivered|
      ensures delivered[Total(ps, j) + k] == Item(ps[j].samples[k], ps[j].hdr.timestamp, k)
    {
      ItemsInOrder(ps, j, k);
    }
  }

  // ---- What the counters say of it ----

  /** The tick at which the worker expects the packet after p: a started sample time counts as a whole one. */
  function ExpectedTick(p: Packet, channels: nat): nat
    requires channels > 0
  {
    (p.hdr.timestamp + (|p.samples| + channels - 1) / channels) % 0x1_0000_0000_0000_0000
  }

  lemma NextIsExpected(p: Packet, channels: nat)
    requires channels > 0
    ensures ExpectedTick(p, channels) == WorkerNext(p, channels)
  {
    QuotIsDiv(|p.samples| + channels - 1, channels);
  }

  /** Packet k does not carry the number after that of the packet before it. */
  predicate OutOfOrder(ps: seq<Packet>, k: nat)
    requires 0 < k < |ps|
  {
    ps[k].hdr.seqNo != (ps[k - 1].hdr.seqNo + 1) % 0x1_0000
  }

  /** Packet k does not start where the packet before it leads to expect, or starts before that. */
  predicate OffTime(ps: seq<Packet>, channels: nat, k: nat)
    requires 0 < k < |ps| && channels > 0
  {
    ps[k].hdr.timestamp != ExpectedTick(ps[k - 1], channels)
  }

  predicate Early(ps: seq<Packet>, channels: nat, k: nat)
    requires 0 < k < |ps| && channels > 0
  {
    ps[k].hdr.timestamp < ExpectedTick(ps[k - 1], channels)
  }

  /** Those of the packets 1 .. n - 1. */
  ghost function OutOfOrders(ps: seq<Packet>, n: nat): set<nat>
    requires n <= |ps|
  {
    set k: nat | 0 < k < n && OutOfOrder(ps, k)
  }

  ghost function OffTimes(ps: seq<Packet>, channels: nat, n: nat): set<nat>
    requires n <= |ps| && channels > 0
  {
    set k: nat | 0 < k < n && OffTime(ps, channels, k)
  }

  ghost function Earlies(ps: seq<Packet>, channels: nat, n: nat): set<nat>
    requires n <= |ps| && channels > 0
  {
    set k: nat | 0 < k < n && Early(ps, channels, k)
  }

  lemma {:induction false} ErrorsAre(ps: seq<Packet>, n: nat)
    requires n <= |ps|
    ensures SeqErrors(ps, n) == |OutOfOrders(ps, n)|
  {
    if n <= 1 {
      assert OutOfOrders(ps, n) == {};
    } else {
      ErrorsAre(ps, n - 1);
      assert OutOfOrders(ps, n) == OutOfOrders(ps, n - 1) + if OutOfOrder(ps, n - 1) then {n - 1} else {};
    }
  }

  lemma {:induction false} GapsAre(ps: seq<Packet>, channels: nat, n: nat)
    requires n <= |ps| && channels > 0
    ensures WorkerGaps(ps, n, channels) == |OffTimes(ps, channels, n)|
  {
    hide ExpectedTick, WorkerNext;
    if n <= 1 {
      assert OffTimes(ps, channels, n) == {};
    } else {
      GapsAre(ps, channels, n - 1);
      GapIs(ps, channels, n - 1);
      hide OffTime;
      assert OffTimes(ps, channels, n) == OffTimes(ps, channels, n - 1) + if OffTime(ps, channels, n - 1) then {n - 1} else {};
    }
  }

  lemma GapIs(ps: seq<Packet>, channels: nat, k: nat)
    requires 0 < k < |ps| && channels > 0
    ensures OffTime(ps, channels, k) <==> ps[k].hdr.timestamp != WorkerNext(ps[k - 1], channels)
    ensures Early(ps, channels, k) <==> ps[k].hdr.timestamp < WorkerNext(ps[k - 1], channels)
  {
    NextIsExpected(ps[k - 1], channels);
  }

  lemma {:induction false} BackwardsAre(ps: seq<Packet>, channels: nat, n: nat)
    requires n <= |ps| && channels > 0
    ensures WorkerBackwards(ps, n, channels) == |Earlies(ps, channels, n)|
  {
    hide ExpectedTick, WorkerNext;
    if n <= 1 {
      assert Earlies(ps, channels, n) == {};
    } else {
      BackwardsAre(ps, channels, n - 1);
      GapIs(ps, channels, n - 1);
      hide Early;
      assert Earlies(ps, channels, n) == Earlies(ps, channels, n - 1) + if Early(ps, channels, n - 1) then {n - 1} else {};
    }
  }

  /** In every reachable state the counters are the numbers of such packets among those counted. */
  lemma CountersAre(start: Rx, actions: seq<Action>)
    requires Inv(start)
    ensures var s := Run(start, actions);
            var c, ps := s.continuity, s.counted;
            && s.channels > 0
            && c.packetCount == |ps| && c.sampleCount == Total(ps, |ps|)
            && c.seqErrors == |OutOfOrders(ps, |ps|)|
            && c.timestampErrors == |OffTimes(ps, s.channels, |ps|)|
            && c.timestampBackwards == |Earlies(ps, s.channels, |ps|)|
  {
    RunKeeps(start, actions);
    hide OutOfOrders, OffTimes, Earlies, Run;
    var s := Run(start, actions);
    ItemCount(s.counted);
    ErrorsAre(s.counted, |s.counted|);
    GapsAre(s.counted, s.channels, |s.counted|);
    BackwardsAre(s.counted, s.channels, |s.counted|);
  }
}
