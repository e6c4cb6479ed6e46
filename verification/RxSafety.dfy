/** The invariant of the receive machine is kept by every step, and what it implies. */
module RxSafety {
  import opened Options
  import opened RxTypes
  import opened RxFrames
  import opened RxMachine

  // ---- The worker's steps ----

  lemma GetFrameKeeps(s: Rx, input: Arrival)
    requires Inv(s) && s.worker == Idle
    ensures Inv(GetFrame(s, input))
  {
    hide QueueOk, DeliveryOk, ExpectationOk, FlagsOk, Tally, NoneEmpty;
    if s.xport.CanReceive(input) {
      var f := s.xport.Turn();
      ClaimKeeps(s.xport.locked, s.xport.refs, s.fifo, s.con.Frame(), f);
      assert s.xport.refs[f] == Holders(None, s.fifo, s.con.Frame(), f) == 0;
      UnheldFrameQueue(s.xport.memory, f, input.d, s.fifo, s.counted, s.past.popped);
      UnheldFrameDelivery(s.xport.memory, f, input.d, s.con, s.counted, s.past);
    }
  }

  /** Receiving into a frame that nobody holds changes no queued packet. */
  lemma UnheldFrameQueue(memory: seq<Datagram>, f: nat, d: Datagram, queue: seq<QueuedPacket>, counted: seq<Packet>, popped: nat)
    requires QueueOk(memory, queue, counted, popped)
    requires f < |memory| && f !in Frames(queue)
    ensures QueueOk(memory[f := d], queue, counted, popped)
  {
    forall k {:trigger queue[k]} | 0 <= k < |queue|
      ensures Matches(memory[f := d], queue[k], counted[popped + k])
    {
      assert queue[k].frame in Frames(queue);
    }
  }

  lemma UnheldFrameDelivery(memory: seq<Datagram>, f: nat, d: Datagram, con: Consumer, counted: seq<Packet>, past: Past)
    requires DeliveryOk(memory, con, counted, past)
    requires f < |memory| && con.Frame() != Some(f)
    ensures DeliveryOk(memory[f := d], con, counted, past)
  {
  }

  lemma InspectKeeps(s: Rx)
    requires Inv(s) && s.worker.Received?
    ensures Inv(Inspect(s))
  {
    var d := s.xport.memory[s.worker.frame];
    if TooShort(d) || !IsValidPacket(d) {
      DroppedInv(s, Inspect(s));
    } else {
      CountKeeps(s, d);
    }
  }

  lemma DroppedInv(s: Rx, t: Rx)
    requires Inv(s) && s.worker.Received?
    requires t == s.(xport := s.xport.Unref(s.worker.frame), worker := Idle, continuity := t.continuity)
    requires t.continuity == s.continuity.(invalidPackets := t.continuity.invalidPackets)
    ensures Inv(t)
  {
    hide QueueOk, DeliveryOk, ExpectationOk, FlagsOk, NoneEmpty, AllItems;
    DropWorkerKeeps(s.xport.locked, s.xport.refs, s.worker.frame, false, s.fifo, s.con.Frame());
  }

  lemma CountKeeps(s: Rx, d: Datagram)
    requires Inv(s) && s.worker.Received?
    requires d == s.xport.memory[s.worker.frame] && !TooShort(d) && IsValidPacket(d)
    ensures Inv(Inspect(s))
  {
    CountedInv(s, Inspect(s), QueuedPacket(s.worker.frame, d.hdr, (d.hdr.packetLen - HEADER_BYTES) / 4), Packet(d.hdr, d.samples));
  }

  lemma CountedInv(s: Rx, t: Rx, q: QueuedPacket, p: Packet)
    requires Inv(s) && s.worker == Received(q.frame) && Matches(s.xport.memory, q, p)
    requires t == s.(worker := Counted(q), continuity := NotePacket(s.continuity, p.hdr, q.count, s.channels), counted := s.counted + [p])
    ensures Inv(t)
  {
    hide Accounted, QueueOk, DeliveryOk, ExpectationOk, FlagsOk, Tally;
    CountPacketTally(s.continuity, s.counted, p, s.channels);
    CountPacketQueue(s.xport.memory, s.fifo, q, s.counted, p, s.past.popped);
    CountPacketConsumer(s.xport.memory, s.con, s.counted, p, s.past, s.channels);
  }

  lemma CountPacketQueue(memory: seq<Datagram>, queue: seq<QueuedPacket>, q: QueuedPacket,
                         counted: seq<Packet>, p: Packet, popped: nat)
    requires QueueOk(memory, queue, counted, popped) && Matches(memory, q, p)
    ensures QueueOk(memory, queue + [q], counted + [p], popped)
  {
    forall k {:trigger (queue + [q])[k]} | 0 <= k < |queue| + 1
      ensures Matches(memory, (queue + [q])[k], (counted + [p])[popped + k])
    {
      if k < |queue| {
        assert (queue + [q])[k] == queue[k] && (counted + [p])[popped + k] == counted[popped + k];
      }
    }
  }

  lemma CountPacketConsumer(memory: seq<Datagram>, con: Consumer, counted: seq<Packet>, p: Packet, past: Past, channels: nat)
    requires DeliveryOk(memory, con, counted, past) && FlagsOk(channels, con, counted, past)
    ensures DeliveryOk(memory, con, counted + [p], past) && FlagsOk(channels, con, counted + [p], past)
  {
    assert (counted + [p])[past.base..past.popped] == counted[past.base..past.popped];
    GapsOfPrefix(counted, [p], past.popped, channels);
  }

  /** Counting one more packet keeps every counter equal to what it is meant to count. */
  lemma CountPacketTally(c: Continuity, counted: seq<Packet>, p: Packet, channels: nat)
    requires Tally(c, counted, channels)
    ensures Tally(NotePacket(c, p.hdr, |p.samples|, channels), counted + [p], channels)
  {
    var n := |counted|;
    GapsOfPrefix(counted, [p], n, channels);
    SeqErrorsOfPrefix(counted, [p], n);
    AllItemsAppend(counted, p);
  }

  /** The queue always has room: its entries hold distinct frames, so the drop-oldest branch is never taken. */
  lemma PushKeepsInv(s: Rx)
    requires Inv(s) && s.worker.Counted?
    ensures |s.fifo| < NUM_FRAMES < MAX_QUEUED && Push(s).fifo == s.fifo + [s.worker.packet]
    ensures Inv(Push(s))
  {
    hide QueueOk, DeliveryOk, ExpectationOk, FlagsOk, Tally, NoneEmpty;
    PushKeeps(s.xport.locked, s.xport.refs, s.worker.packet, s.fifo, s.con.Frame());
    assert Push(s) == s.(fifo := s.fifo + [s.worker.packet], xport := s.xport.Ref(s.worker.packet.frame), worker := Queued(s.worker.packet));
  }

  lemma EndIterationKeeps(s: Rx)
    requires Inv(s) && s.worker.Queued?
    ensures Inv(EndIteration(s))
  {
    hide QueueOk, DeliveryOk, ExpectationOk, FlagsOk, NoneEmpty, AllItems;
    QueueBounded(s.fifo, {});
    DropWorkerKeeps(s.xport.locked, s.xport.refs, s.worker.packet.frame, true, s.fifo, s.con.Frame());
  }

  lemma WorkerStepKeeps(s: Rx, input: Arrival)
    requires Inv(s)
    ensures Inv(WorkerStep(s, input))
  {
    hide Inv;
    match s.worker
    case Idle => GetFrameKeeps(s, input);
    case Received(_) => InspectKeeps(s);
    case Counted(_) => PushKeepsInv(s);
    case Queued(_) => EndIterationKeeps(s);
  }

  // ---- The consumer's steps ----

  lemma PopKeepsInv(s: Rx, ticks: bool)
    requires Inv(s) && s.con.pending.None? && s.fifo != []
    ensures Inv(Pop(s, ticks))
  {
    hide Accounted, QueueOk, DeliveryOk, FlagsOk, Tally;
    PopFrames(s, ticks);
    PopQueue(s.xport.memory, Queue(s.fifo, s.worker), s.counted, s.past.popped);
    assert Queue(s.fifo, s.worker)[1..] == Queue(s.fifo[1..], s.worker);
    PopDelivery(s, ticks);
    PopFlags(s, ticks);
  }

  lemma PopFrames(s: Rx, ticks: bool)
    requires FramesOk(s.xport, s.worker, s.fifo, s.con.Frame()) && Tally(s.continuity, s.counted, s.channels)
    requires s.con.pending.None? && s.fifo != []
    ensures FramesOk(s.xport, s.worker, s.fifo[1..], Some(s.fifo[0].frame))
    ensures Tally(Pop(s, ticks).continuity, s.counted, s.channels)
  {
    PopKeeps(s.xport.locked, s.xport.refs, s.worker.Held(), s.worker.Queued?, s.fifo);
    QueueBounded(s.fifo, {});
  }

  lemma PopQueue(memory: seq<Datagram>, queue: seq<QueuedPacket>, counted: seq<Packet>, popped: nat)
    requires QueueOk(memory, queue, counted, popped) && queue != []
    ensures QueueOk(memory, queue[1..], counted, popped + 1)
    ensures Matches(memory, queue[0], counted[popped])
  {
    forall k {:trigger queue[1..][k]} | 0 <= k < |queue[1..]|
      ensures Matches(memory, queue[1..][k], counted[popped + 1 + k])
    {
      assert queue[1..][k] == queue[k + 1];
    }
  }

  lemma PopDelivery(s: Rx, ticks: bool)
    requires DeliveryOk(s.xport.memory, s.con, s.counted, s.past) && s.con.pending.None? && s.fifo != []
    requires s.past.popped < |s.counted| && Matches(s.xport.memory, s.fifo[0], s.counted[s.past.popped])
    ensures DeliveryOk(s.xport.memory, Pop(s, ticks).con, s.counted, Pop(s, ticks).past)
  {
    PoppedItems(s.xport.memory, s.fifo[0], s.counted, s.past);
    PoppedRest(s.xport.memory, Pop(s, ticks).con, s.fifo[0]);
  }

  lemma PoppedItems(memory: seq<Datagram>, q: QueuedPacket, counted: seq<Packet>, past: Past)
    requires past.base <= past.popped < |counted| && Matches(memory, q, counted[past.popped])
    ensures AllItems(counted[past.base..past.popped + 1])
            == AllItems(counted[past.base..past.popped]) + Items(Packet(q.hdr, memory[q.frame].samples))
  {
    var p := counted[past.popped];
    AllItemsAppend(counted[past.base..past.popped], p);
    assert counted[past.base..past.popped] + [p] == counted[past.base..past.popped + 1];
    assert Packet(q.hdr, memory[q.frame].samples) == p;
  }

  lemma PoppedRest(memory: seq<Datagram>, con: Consumer, q: QueuedPacket)
    requires con.pending == Some(q) && con.offset == 0 && q.frame < |memory|
    ensures Rest(memory, con) == Items(Packet(q.hdr, memory[q.frame].samples))
  {
  }

  /** The gap the consumer sees at a new packet is the gap between that packet and the one before it. */
  lemma PopFlags(s: Rx, ticks: bool)
    requires DeliveryOk(s.xport.memory, s.con, s.counted, s.past) && ExpectationOk(s.channels, s.con, s.past)
    requires FlagsOk(s.channels, s.con, s.counted, s.past) && s.con.pending.None? && s.fifo != []
    requires s.past.popped < |s.counted| && Matches(s.xport.memory, s.fifo[0], s.counted[s.past.popped])
    requires s.past.popped > 0 ==> s.counted[s.past.popped - 1].samples != []
    ensures FlagsOk(s.channels, Pop(s, ticks).con, s.counted, Pop(s, ticks).past)
  {
    var base, popped := s.past.base, s.past.popped;
    if popped > base {
      var ps, last := s.counted[base..popped], s.counted[popped - 1];
      assert ps[|ps| - 1] == last;
      assert s.past.delivered == AllItems(ps[..|ps| - 1]) + Items(last);
    } else {
      assert s.counted[base..popped] == [];
    }
  }

  lemma TakeFlagsKeeps(s: Rx, ticks: bool)
    requires Inv(s) && s.con.pending.Some?
    ensures Inv(TakeFlags(s, ticks))
  {
    hide Accounted, QueueOk, Tally, NoneEmpty, AllItems;
  }

  lemma CopyKeeps(s: Rx, n: nat)
    requires Inv(s) && s.con.pending.Some? && 0 < n && !s.con.discontinuity
    requires s.con.offset + n <= s.con.pending.value.count
    ensures Inv(Copy(s, n))
    ensures Copy(s, n).past.delivered == s.past.delivered + Rest(s.xport.memory, s.con)[..n]
  {
    hide Accounted, QueueOk, Tally, NoneEmpty, AllItems;
    CopyDelivery(s, n);
    if s.con.offset + n >= s.con.pending.value.count {
      DropPendingKeeps(s.xport.locked, s.xport.refs, s.worker.Held(), s.worker.Queued?, s.fifo, s.con.pending.value.frame);
    }
  }

  lemma CopyDelivery(s: Rx, n: nat)
    requires CanCopy(s, n) && DeliveryOk(s.xport.memory, s.con, s.counted, s.past)
    requires ExpectationOk(s.channels, s.con, s.past) && 0 < n && !s.con.discontinuity
    ensures var t := Copy(s, n);
            && t.past.delivered == s.past.delivered + Rest(s.xport.memory, s.con)[..n]
            && DeliveryOk(s.xport.memory, t.con, s.counted, t.past) && ExpectationOk(s.channels, t.con, t.past)
  {
    hide DeliveryOk, ExpectationOk, Items;
    var all := Items(Packet(s.con.pending.value.hdr, s.xport.memory[s.con.pending.value.frame].samples));
    CopyTaken(s, n, all);
    CopyExpectation(s, n, all);
  }

  lemma CopyTaken(s: Rx, n: nat, all: seq<Item>)
    requires CanCopy(s, n) && DeliveryOk(s.xport.memory, s.con, s.counted, s.past) && 0 < n
    requires var p := s.con.pending.value; all == Items(Packet(p.hdr, s.xport.memory[p.frame].samples))
    ensures var t := Copy(s, n);
            && t.past.delivered == s.past.delivered + Rest(s.xport.memory, s.con)[..n]
            && DeliveryOk(s.xport.memory, t.con, s.counted, t.past)
  {
    hide Items, AllItems;
    var end := s.con.offset + n;
    CutItems(s.past.delivered, all, s.con.offset, end);
    var t := Copy(s, n);
    assert Rest(s.xport.memory, t.con) == if end == |all| then [] else all[end..];
    assert t.past.delivered == s.past.delivered + all[s.con.offset..end];
  }

  lemma CopyExpectation(s: Rx, n: nat, all: seq<Item>)
    requires CanCopy(s, n) && 0 < n && !s.con.discontinuity && ExpectationOk(s.channels, s.con, s.past)
    requires var p := s.con.pending.value; all == Items(Packet(p.hdr, s.xport.memory[p.frame].samples))
    ensures ExpectationOk(s.channels, Copy(s, n).con, Copy(s, n).past)
  {
    var p, end := s.con.pending.value, s.con.offset + n;
    assert all[end - 1].packetTime == p.hdr.timestamp && all[end - 1].index + 1 == end;
    hide AllItems, Items;
    var items := all[s.con.offset..end];
    var delivered := s.past.delivered + items;
    assert delivered[|delivered| - 1] == items[|items| - 1] == all[end - 1];
  }

  lemma CutItems(before: seq<Item>, all: seq<Item>, from: nat, end: nat)
    requires from < end <= |all|
    ensures all[from..][..end - from] == all[from..end]
    ensures before + all[from..end] + all[end..] == before + all[from..]
    ensures end == |all| ==> before + all[from..end] + [] == before + all[from..]
    ensures var s := before + all[from..end]; s != [] && s[|s| - 1] == all[end - 1]
  {
    assert all[from..] == all[from..end] + all[end..];
  }

  // ---- Stopping and resetting ----

  lemma {:induction false} DrainedQueueKeeps(x: Transport, fifo: seq<QueuedPacket>, pending: Option<nat>)
    requires FramesOk(x, Idle, fifo, pending)
    ensures FramesOk(DrainedQueue(x, fifo), Idle, [], pending)
    ensures DrainedQueue(x, fifo).memory == x.memory
    decreases |fifo|
  {
    if fifo != [] {
      DropHeadKeeps(x, fifo, pending);
      DrainedQueueKeeps(x.Unref(fifo[0].frame), fifo[1..], pending);
    }
  }

  lemma DropHeadKeeps(x: Transport, fifo: seq<QueuedPacket>, pending: Option<nat>)
    requires FramesOk(x, Idle, fifo, pending) && fifo != []
    ensures FramesOk(x.Unref(fifo[0].frame), Idle, fifo[1..], pending)
  {
    var f := fifo[0].frame;
    FramesPop(fifo);
    assert f in Frames(fifo);
    assert x.refs[f] == Holders(None, fifo, pending, f);
  }

  lemma StoppedFrames(s: Rx)
    requires FramesOk(s.xport, Idle, s.fifo, s.con.Frame())
    ensures var y := DroppedPending(DrainedQueue(s.xport, s.fifo), s.con);
            && FramesOk(y, Idle, [], None)
            && forall f :: 0 <= f < NUM_FRAMES ==> !y.locked[f]
  {
    DrainedQueueKeeps(s.xport, s.fifo, s.con.Frame());
    var x := DrainedQueue(s.xport, s.fifo);
    if s.con.pending.Some? {
      DropPendingKeeps(x.locked, x.refs, None, false, [], s.con.pending.value.frame);
    }
    var y := DroppedPending(x, s.con);
    forall f | 0 <= f < NUM_FRAMES
      ensures !y.locked[f]
    {
      assert y.refs[f] == Holders(None, [], None, f);
    }
  }

  /** A stop returns every frame, and what it throws away is never delivered later. */
  lemma StopKeeps(s: Rx)
    requires Inv(s) && s.worker == Idle
    ensures Inv(Stop(s))
    ensures forall f :: 0 <= f < NUM_FRAMES ==> !Stop(s).xport.locked[f]
  {
    StoppedFrames(s);
    StopHistory(s);
  }

  lemma StopHistory(s: Rx)
    requires Inv(s) && s.worker == Idle
    ensures FlagsOk(s.channels, NOTHING_PENDING, s.counted, Stop(s).past)
    ensures DeliveryOk(s.xport.memory, NOTHING_PENDING, s.counted, Stop(s).past)
  {
    assert s.counted[|s.counted|..|s.counted|] == [];
  }

  lemma DiscardKeeps(s: Rx, input: Arrival)
    requires Inv(s) && s.worker == Idle
    ensures Inv(Discard(s, input))
  {
    GetFrameKeeps(s, input);
    if s.xport.CanReceive(input) {
      var t := GetFrame(s, input);
      DropWorkerKeeps(t.xport.locked, t.xport.refs, s.xport.Turn(), false, s.fifo, s.con.Frame());
    }
  }

  lemma ClearCountersKeeps(s: Rx)
    requires Inv(s) && s.worker == Idle && s.fifo == [] && s.con == NOTHING_PENDING
    ensures Inv(ClearCounters(s))
  {
  }

  // ---- Whole runs ----

  datatype Action = Work(input: Arrival) | PopOne(ticks: bool) | TakeFlag(ticks: bool) | CopyOut(n: nat)
                  | StopStream | DrainTransport(input: Arrival) | ClearStats

  /** When the program takes an action; a packet's flags are always taken before its first item is copied. */
  predicate Enabled(s: Rx, a: Action) {
    Shaped(s) &&
    match a
    case Work(_) => true
    case PopOne(_) => s.con.pending.None? && s.fifo != []
    case TakeFlag(_) => s.con.pending.Some?
    case CopyOut(n) => 0 < n && !s.con.discontinuity && CanCopy(s, n)
    case StopStream => s.worker == Idle
    case DrainTransport(_) => s.worker == Idle
    case ClearStats => s.worker == Idle && s.fifo == [] && s.con == NOTHING_PENDING
  }

  function Apply(s: Rx, a: Action): Rx
    requires Enabled(s, a)
  {
    match a
    case Work(input) => WorkerStep(s, input)
    case PopOne(ticks) => Pop(s, ticks)
    case TakeFlag(ticks) => TakeFlags(s, ticks)
    case CopyOut(n) => Copy(s, n)
    case StopStream => Stop(s)
    case DrainTransport(input) => Discard(s, input)
    case ClearStats => ClearCounters(s)
  }

  lemma ApplyKeeps(s: Rx, a: Action)
    requires Inv(s) && Enabled(s, a)
    ensures Inv(Apply(s, a))
  {
    match a
    case Work(input) => WorkerStepKeeps(s, input);
    case PopOne(ticks) => PopKeepsInv(s, ticks);
    case TakeFlag(ticks) => TakeFlagsKeeps(s, ticks);
    case CopyOut(n) => CopyKeeps(s, n);
    case StopStream => StopKeeps(s);
    case DrainTransport(input) => DiscardKeeps(s, input);
    case ClearStats => ClearCountersKeeps(s);
  }

  /** Any interleaving of the two threads' steps; a step that is not enabled does nothing. */
  function Run(s: Rx, actions: seq<Action>): Rx
    decreases |actions|
  {
    if actions == [] then s
    else
      var t := Run(s, actions[..|actions| - 1]);
      if Enabled(t, actions[|actions| - 1]) then Apply(t, actions[|actions| - 1]) else t
  }

  lemma {:induction false} RunKeeps(s: Rx, actions: seq<Action>)
    requires Inv(s)
    ensures Inv(Run(s, actions))
    decreases |actions|
  {
    if actions != [] {
      RunKeeps(s, actions[..|actions| - 1]);
      var t := Run(s, actions[..|actions| - 1]);
      if Enabled(t, actions[|actions| - 1]) {
        ApplyKeeps(t, actions[|actions| - 1]);
      }
    }
  }

  /** A streamer before its first packet. */
  function Fresh(channels: nat, memory: seq<Datagram>): Rx {
    Rx(channels, Transport(memory, seq(NUM_FRAMES, _ => false), seq(NUM_FRAMES, _ => 0), 0), Idle, FRESH, [], [],
       NOTHING_PENDING, Past(0, 0, [], 0, true, false))
  }

  lemma FreshIsSafe(channels: nat, memory: seq<Datagram>)
    requires channels > 0 && |memory| == NUM_FRAMES
    ensures Inv(Fresh(channels, memory))
  {
  }

  // ---- What the invariant means ----

  /** The items in the frames that the queue refers to. */
  function QueuedItems(memory: seq<Datagram>, queue: seq<QueuedPacket>): seq<Item>
    requires forall k {:trigger queue[k]} :: 0 <= k < |queue| ==> queue[k].frame < |memory|
  {
    if queue == [] then []
    else QueuedItems(memory, queue[..|queue| - 1])
         + Items(Packet(queue[|queue| - 1].hdr, memory[queue[|queue| - 1].frame].samples))
  }

  lemma {:induction false} QueuedItemsMatch(memory: seq<Datagram>, queue: seq<QueuedPacket>, counted: seq<Packet>, popped: nat)
    requires QueueOk(memory, queue, counted, popped)
    ensures QueuedItems(memory, queue) == AllItems(counted[popped..])
  {
    if queue != [] {
      var n := |queue| - 1;
      assert QueueOk(memory, queue[..n], counted[..|counted| - 1], popped) by {
        forall k {:trigger queue[..n][k]} | 0 <= k < n
          ensures Matches(memory, queue[..n][k], counted[..|counted| - 1][popped + k])
        {
          assert Matches(memory, queue[k], counted[popped + k]);
        }
      }
      QueuedItemsMatch(memory, queue[..n], counted[..|counted| - 1], popped);
      assert Matches(memory, queue[n], counted[popped + n]);
      assert counted[popped..][..n] == counted[..|counted| - 1][popped..];
    } else {
      assert counted[popped..] == [];
    }
  }

  /**
   * Over any interleaving, what was delivered, the rest of the pending packet and the packets
   * still queued are together, in order and with their timestamps, every valid packet received
   * since the last stop. The queued part is read from the frames, so no frame was overwritten.
   */
  lemma NothingLostOrRepeated(start: Rx, actions: seq<Action>)
    requires Inv(start)
    ensures var s := Run(start, actions);
            && PendingOk(s.xport.memory, s.con, s.counted, s.past)
            && QueueOk(s.xport.memory, Queue(s.fifo, s.worker), s.counted, s.past.popped)
            && s.past.delivered + Rest(s.xport.memory, s.con) + QueuedItems(s.xport.memory, Queue(s.fifo, s.worker))
               == AllItems(s.counted[s.past.base..])
  {
    RunKeeps(start, actions);
    var s := Run(start, actions);
    QueuedItemsMatch(s.xport.memory, Queue(s.fifo, s.worker), s.counted, s.past.popped);
    AllItemsSplit(s.counted, s.past.base, s.past.popped);
  }

  lemma AllItemsSplit(ps: seq<Packet>, base: nat, popped: nat)
    requires base <= popped <= |ps|
    ensures AllItems(ps[base..]) == AllItems(ps[base..popped]) + AllItems(ps[popped..])
  {
    AllItemsConcat(ps[base..popped], ps[popped..]);
    assert ps[base..] == ps[base..popped] + ps[popped..];
  }

  /** In every reachable state a locked frame has a holder, no two queue entries share one, and the queue is never full. */
  lemma FramesAreExclusive(start: Rx, actions: seq<Action>)
    requires Inv(start)
    ensures var s := Run(start, actions);
            && Shaped(s) && |s.fifo| <= NUM_FRAMES < MAX_QUEUED && s.continuity.queueDrops == 0
            && s.continuity.queueDepthPeak <= NUM_FRAMES
            && (forall f :: 0 <= f < NUM_FRAMES ==>
                  (s.xport.locked[f] <==> s.worker.Held() == Some(f) || s.con.Frame() == Some(f) || f in Frames(s.fifo)))
            && (forall j, k :: 0 <= j < k < |s.fifo| ==> s.fifo[j].frame != s.fifo[k].frame)
            && (s.con.Frame().Some? ==> s.con.Frame().value !in Frames(s.fifo))
            && (s.worker.Received? || s.worker.Counted? ==>
                  s.worker.Held().value !in Frames(s.fifo) && s.worker.Held() != s.con.Frame())
  {
    RunKeeps(start, actions);
    var s := Run(start, actions);
    QueueBounded(s.fifo, {});
    forall f | 0 <= f < NUM_FRAMES
      ensures s.xport.locked[f] <==> s.worker.Held() == Some(f) || s.con.Frame() == Some(f) || f in Frames(s.fifo)
    {
      assert s.xport.refs[f] == Holders(s.worker.Held(), s.fifo, s.con.Frame(), f);
    }
  }

  /** The gaps in front of the packets [from, end), as the consumer will see them. */
  function GapsAhead(ps: seq<Packet>, from: nat, end: nat, channels: nat): nat
    requires end <= |ps| && channels > 0
    decreases end
  {
    if end <= 1 || end <= from then 0
    else GapsAhead(ps, from, end - 1, channels) + (if ps[end - 1].hdr.timestamp != ConsumerNext(ps[end - 2], channels) then 1 else 0)
  }

  lemma {:induction false} GapsSplit(ps: seq<Packet>, from: nat, end: nat, channels: nat)
    requires from <= end <= |ps| && channels > 0
    ensures ConsumerGaps(ps, end, channels) == ConsumerGaps(ps, from, channels) + GapsAhead(ps, from, end, channels)
    decreases end
  {
    if end > 1 && end > from {
      GapsSplit(ps, from, end - 1, channels);
    }
  }

  /**
   * Counter and flags agree: in an epoch read only through tick calls, on whole frames, the
   * worker's timestamp_errors is the number of flags the callers got plus the gaps still to come.
   */
  lemma CounterMatchesFlags(start: Rx, actions: seq<Action>)
    requires Inv(start)
    ensures var s := Run(start, actions);
            s.past.popped <= |s.counted| && s.channels > 0 &&
            (s.past.base == 0 && s.past.ticksOnly && WholeFrames(s.counted, |s.counted|, s.channels) ==>
              s.continuity.timestampErrors
              == s.past.flagsReported + (if s.con.discontinuity then 1 else 0)
                 + GapsAhead(s.counted, s.past.popped, |s.counted|, s.channels))
  {
    RunKeeps(start, actions);
    var s := Run(start, actions);
    if WholeFrames(s.counted, |s.counted|, s.channels) {
      WholeFramesAgree(s.counted, |s.counted|, s.channels);
      GapsSplit(s.counted, s.past.popped, |s.counted|, s.channels);
    }
  }
}
