/**
 * The receive path as a state machine. Every step is one lock-protected or
 * thread-private action of the worker, the consumer or a stop, so a run of the
 * machine is an interleaving of the two threads.
 */
module RxMachine {
  import opened Arithmetic
  import opened Options
  import opened RxTypes
  import opened RxFrames

  /** Where the worker thread is inside one iteration of its loop. */
  datatype Stage = Idle | Received(frame: nat) | Counted(packet: QueuedPacket) | Queued(packet: QueuedPacket) {
    function Held(): Option<nat> {
      match this
      case Idle => None
      case Received(f) => Some(f)
      case Counted(p) => Some(p.frame)
      case Queued(p) => Some(p.frame)
    }
  }

  /** The counters the worker keeps. */
  datatype Continuity = Continuity(
    haveLast: bool, packetCount: nat, sampleCount: nat, seqErrors: nat, timestampErrors: nat, timestampBackwards: nat,
    expectedTimestamp: u64, expectedSeq: nat, queueDrops: nat, queueDepth: nat, queueDepthPeak: nat, invalidPackets: nat)

  const FRESH := Continuity(false, 0, 0, 0, 0, 0, 0, 0, 0, 0, 0, 0)

  /** The receive frames: contents, lock, number of smart pointers, and whose turn is next. */
  datatype Transport = Transport(memory: seq<Datagram>, locked: seq<bool>, refs: seq<nat>, next: nat) {
    predicate Shaped() {
      |memory| == |locked| == |refs| == NUM_FRAMES && next <= NUM_FRAMES
    }

    function Turn(): nat {
      if next == NUM_FRAMES then 0 else next
    }

    predicate CanReceive(input: Arrival) {
      Turn() < |locked| && !locked[Turn()] && input.Arrives? && input.d.size > 0
    }

    /** get_recv_buff: the next frame in turn, if it is free and a datagram arrives. */
    function Receive(input: Arrival): Transport
      requires Shaped()
    {
      var f := Turn();
      if CanReceive(input) then Transport(memory[f := input.d], locked[f := true], refs[f := 1], f + 1)
      else Transport(memory, locked, refs, f)
    }

    function Ref(f: nat): Transport
      requires Shaped() && f < NUM_FRAMES
    {
      Transport(memory, locked, refs[f := refs[f] + 1], next)
    }

    /** Dropping one smart pointer to frame f; the last drop unlocks the frame. */
    function Unref(f: nat): Transport
      requires Shaped() && f < NUM_FRAMES
    {
      if refs[f] == 0 then this
      else Transport(memory, locked[f := refs[f] > 1], refs[f := refs[f] - 1], next)
    }
  }

  datatype Consumer = Consumer(pending: Option<QueuedPacket>, offset: nat, discontinuity: bool, backwards: bool,
                               haveExpected: bool, expected: u64)
  {
    function Frame(): Option<nat> {
      if pending.Some? then Some(pending.value.frame) else None
    }

    predicate Gap() {
      pending.Some? && haveExpected && pending.value.hdr.timestamp != expected
    }
  }

  /**
   * History of the consumer: how many counted packets a stop discarded, how many left the
   * queue, what was delivered since that stop; how many flags were reported, whether every
   * call was a tick call, and whether the pending packet's flag went to a call that copied nothing.
   */
  datatype Past = Past(base: nat, popped: nat, delivered: seq<Item>, flagsReported: nat, ticksOnly: bool, flagLost: bool)

  /** `counted` is the history of the worker: every valid packet since the counters were reset. */
  datatype Rx = Rx(channels: nat, xport: Transport, worker: Stage, continuity: Continuity, counted: seq<Packet>,
                   fifo: seq<QueuedPacket>, con: Consumer, past: Past)

  const NOTHING_PENDING := Consumer(None, 0, false, false, false, 0)

  // ---- The invariant ----

  ghost predicate FramesOk(x: Transport, worker: Stage, fifo: seq<QueuedPacket>, pending: Option<nat>) {
    x.Shaped() && Accounted(x.locked, x.refs, worker.Held(), worker.Queued?, fifo, pending)
  }

  /** The queue, with the packet the worker has counted but not pushed yet. */
  function Queue(fifo: seq<QueuedPacket>, worker: Stage): seq<QueuedPacket> {
    if worker.Counted? then fifo + [worker.packet] else fifo
  }

  /** The entry stands for the packet, and its frame still holds the packet's data. */
  ghost predicate Matches(memory: seq<Datagram>, q: QueuedPacket, p: Packet) {
    && q.frame < |memory| && q.hdr == p.hdr && q.count == |p.samples| && memory[q.frame].samples == p.samples
    && p.samples != []
  }

  /** The queue entries stand, in order, for the packets counted and not popped. */
  ghost predicate QueueOk(memory: seq<Datagram>, queue: seq<QueuedPacket>, counted: seq<Packet>, popped: nat) {
    && |queue| + popped == |counted|
    && forall k {:trigger queue[k]} :: 0 <= k < |queue| ==> Matches(memory, queue[k], counted[popped + k])
  }

  ghost predicate PendingOk(memory: seq<Datagram>, con: Consumer, counted: seq<Packet>, past: Past) {
    && past.base <= past.popped <= |counted|
    && (con.pending.Some? ==> past.base < past.popped && Matches(memory, con.pending.value, counted[past.popped - 1])
                              && con.offset < con.pending.value.count)
    && (con.pending.None? ==> con.offset == 0)
  }

  ghost predicate NoneEmpty(counted: seq<Packet>) {
    forall k {:trigger counted[k]} :: 0 <= k < |counted| ==> counted[k].samples != []
  }

  /** The undelivered items of the pending packet. */
  ghost function Rest(memory: seq<Datagram>, con: Consumer): seq<Item>
    requires con.pending.Some? ==>
      con.pending.value.frame < |memory| && con.offset <= |memory[con.pending.value.frame].samples|
  {
    if con.pending.Some? then
      Items(Packet(con.pending.value.hdr, memory[con.pending.value.frame].samples))[con.offset..]
    else []
  }

  ghost predicate DeliveryOk(memory: seq<Datagram>, con: Consumer, counted: seq<Packet>, past: Past) {
    PendingOk(memory, con, counted, past) && past.delivered + Rest(memory, con) == AllItems(counted[past.base..past.popped])
  }

  ghost predicate ExpectationOk(channels: nat, con: Consumer, past: Past) {
    && channels > 0
    && (con.haveExpected <==> past.delivered != [])
    && (con.haveExpected ==> con.expected == NextTick(past.delivered[|past.delivered| - 1], channels))
    && (con.discontinuity || past.flagLost ==> con.pending.Some? && con.offset == 0)
    && !(con.discontinuity && past.flagLost)
    && (con.pending.Some? && con.offset == 0 && !past.flagLost ==> (con.discontinuity <==> con.Gap()))
    && (con.backwards <==> con.discontinuity && con.pending.value.hdr.timestamp < con.expected)
  }

  ghost predicate FlagsOk(channels: nat, con: Consumer, counted: seq<Packet>, past: Past) {
    && channels > 0 && past.popped <= |counted|
    && (past.base == 0 && past.ticksOnly ==>
          past.flagsReported + (if con.discontinuity then 1 else 0) == ConsumerGaps(counted, past.popped, channels))
  }

  function SeqErrors(ps: seq<Packet>, n: nat): nat
    requires n <= |ps|
  {
    if n <= 1 then 0
    else SeqErrors(ps, n - 1) + (if ps[n - 1].hdr.seqNo != (ps[n - 2].hdr.seqNo + 1) % 0x10000 then 1 else 0)
  }

  lemma {:induction false} SeqErrorsOfPrefix(ps: seq<Packet>, qs: seq<Packet>, n: nat)
    requires n <= |ps|
    ensures SeqErrors(ps + qs, n) == SeqErrors(ps, n)
  {
    if n > 1 {
      SeqErrorsOfPrefix(ps, qs, n - 1);
    }
  }

  /** What the worker's counters say about the packets counted since the last reset. */
  ghost predicate Tally(c: Continuity, counted: seq<Packet>, channels: nat) {
    var n := |counted|;
    && channels > 0
    && (c.haveLast <==> n > 0)
    && c.packetCount == n
    && c.sampleCount == |AllItems(counted)|
    && (n > 0 ==> c.expectedTimestamp == WorkerNext(counted[n - 1], channels)
                  && c.expectedSeq == (counted[n - 1].hdr.seqNo + 1) % 0x10000)
    && c.timestampErrors == WorkerGaps(counted, n, channels)
    && c.timestampBackwards == WorkerBackwards(counted, n, channels)
    && c.seqErrors == SeqErrors(counted, n)
    && c.queueDrops == 0 && c.queueDepth <= c.queueDepthPeak <= NUM_FRAMES
  }

  ghost predicate Inv(s: Rx)
    ensures Inv(s) ==> Shaped(s)
  {
    match s
    case Rx(channels, xport, worker, continuity, counted, fifo, con, past) =>
      && FramesOk(xport, worker, fifo, con.Frame())
      && QueueOk(xport.memory, Queue(fifo, worker), counted, past.popped)
      && DeliveryOk(xport.memory, con, counted, past)
      && ExpectationOk(channels, con, past)
      && FlagsOk(channels, con, counted, past)
      && Tally(continuity, counted, channels) && NoneEmpty(counted)
  }

  // ---- The worker ----

  predicate Shaped(s: Rx) {
    && s.channels > 0 && s.xport.Shaped()
    && (s.worker.Held().Some? ==> s.worker.Held().value < NUM_FRAMES)
    && (s.con.pending.Some? ==> s.con.pending.value.frame < NUM_FRAMES)
    && (forall k {:trigger s.fifo[k]} :: 0 <= k < |s.fifo| ==> s.fifo[k].frame < NUM_FRAMES)
  }

  function GetFrame(s: Rx, input: Arrival): Rx
    requires Shaped(s)
  {
    s.(xport := s.xport.Receive(input), worker := if s.xport.CanReceive(input) then Received(s.xport.Turn()) else s.worker)
  }

  function NotePacket(c: Continuity, hdr: Header, count: nat, channels: nat): Continuity
    requires channels > 0
  {
    var step := Quot(count + channels - 1, channels);
    var late := c.haveLast && hdr.timestamp != c.expectedTimestamp;
    c.(haveLast := true,
       packetCount := if c.haveLast then c.packetCount + 1 else 1,
       sampleCount := if c.haveLast then c.sampleCount + count else count,
       seqErrors := c.seqErrors + (if c.haveLast && hdr.seqNo != c.expectedSeq then 1 else 0),
       timestampErrors := c.timestampErrors + (if late then 1 else 0),
       timestampBackwards := c.timestampBackwards + (if late && hdr.timestamp < c.expectedTimestamp then 1 else 0),
       expectedTimestamp := Add64(hdr.timestamp, step),
       expectedSeq := (hdr.seqNo + 1) % 0x10000)
  }

  predicate TooShort(d: Datagram) {
    d.size / 2 / 2 <= 4
  }

  /** The worker inspects the datagram in its frame: too short, invalid, or counted. */
  function Inspect(s: Rx): Rx
    requires Shaped(s) && s.worker.Received?
  {
    var d := s.xport.memory[s.worker.frame];
    if TooShort(d) then s.(xport := s.xport.Unref(s.worker.frame), worker := Idle)
    else if !IsValidPacket(d) then
      s.(xport := s.xport.Unref(s.worker.frame), worker := Idle,
         continuity := s.continuity.(invalidPackets := s.continuity.invalidPackets + 1))
    else
      var count := (d.hdr.packetLen - HEADER_BYTES) / 4;
      s.(worker := Counted(QueuedPacket(s.worker.frame, d.hdr, count)),
         continuity := NotePacket(s.continuity, d.hdr, count, s.channels),
         counted := s.counted + [Packet(d.hdr, d.samples)])
  }

  /** push: a copy of the worker's entry joins the queue; a full queue would lose its oldest entry. */
  function Push(s: Rx): Rx
    requires Shaped(s) && s.worker.Counted?
  {
    var kept := if |s.fifo| == MAX_QUEUED then s.fifo[1..] else s.fifo;
    s.(fifo := kept + [s.worker.packet], xport := s.xport.Ref(s.worker.packet.frame), worker := Queued(s.worker.packet))
  }

  function NoteDepth(c: Continuity, depth: nat): Continuity {
    c.(queueDepth := depth, queueDepthPeak := if depth > c.queueDepthPeak then depth else c.queueDepthPeak)
  }

  /** The end of an iteration: the depth statistic, and the worker's own entry goes out of scope. */
  function EndIteration(s: Rx): Rx
    requires Shaped(s) && s.worker.Queued?
  {
    s.(xport := s.xport.Unref(s.worker.packet.frame), worker := Idle, continuity := NoteDepth(s.continuity, |s.fifo|))
  }

  function WorkerStep(s: Rx, input: Arrival): Rx
    requires Shaped(s)
  {
    match s.worker
    case Idle => GetFrame(s, input)
    case Received(_) => Inspect(s)
    case Counted(_) => Push(s)
    case Queued(_) => EndIteration(s)
  }

  // ---- The consumer ----

  /** The oldest queue entry becomes the pending packet; a tick call compares it with the expected tick. */
  function Pop(s: Rx, ticks: bool): Rx
    requires s.fifo != []
  {
    var p := s.fifo[0];
    var gap := s.con.haveExpected && p.hdr.timestamp != s.con.expected;
    s.(fifo := s.fifo[1..],
       continuity := NoteDepth(s.continuity, |s.fifo| - 1),
       con := s.con.(pending := Some(p), offset := 0,
                     discontinuity := if ticks && gap then true else s.con.discontinuity,
                     backwards := if ticks && gap then p.hdr.timestamp < s.con.expected else s.con.backwards),
       past := s.past.(popped := s.past.popped + 1, flagLost := !ticks && gap, ticksOnly := s.past.ticksOnly && ticks))
  }

  /** The first packet of a call hands its flags to the caller; a call without a flag argument discards them. */
  function TakeFlags(s: Rx, ticks: bool): Rx {
    s.(con := s.con.(discontinuity := false, backwards := false),
       past := s.past.(flagLost := s.past.flagLost || s.con.discontinuity,
                       ticksOnly := s.past.ticksOnly && ticks,
                       flagsReported := s.past.flagsReported + (if ticks && s.con.discontinuity then 1 else 0)))
  }

  predicate CanCopy(s: Rx, n: nat) {
    && Shaped(s) && s.con.pending.Some?
    && s.con.offset + n <= s.con.pending.value.count == |s.xport.memory[s.con.pending.value.frame].samples|
  }

  /** Copying the next n items of the pending packet, and letting it go when it is used up. */
  function Copy(s: Rx, n: nat): Rx
    requires CanCopy(s, n)
  {
    var p, end := s.con.pending.value, s.con.offset + n;
    var items := Items(Packet(p.hdr, s.xport.memory[p.frame].samples))[s.con.offset..end];
    var con := s.con.(haveExpected := true, expected := Add64(p.hdr.timestamp, Quot(end, s.channels)));
    var past := s.past.(delivered := s.past.delivered + items, flagLost := false);
    if end >= p.count then s.(xport := s.xport.Unref(p.frame), con := con.(pending := None, offset := 0), past := past)
    else s.(con := con.(offset := end), past := past)
  }

  // ---- Stopping and resetting, with the worker joined ----

  /** drain_rx_fifo: every entry is popped and let go. */
  function DrainedQueue(x: Transport, fifo: seq<QueuedPacket>): (y: Transport)
    requires x.Shaped() && forall k {:trigger fifo[k]} :: 0 <= k < |fifo| ==> fifo[k].frame < NUM_FRAMES
    ensures y.Shaped()
    decreases |fifo|
  {
    if fifo == [] then x else DrainedQueue(x.Unref(fifo[0].frame), fifo[1..])
  }

  /** stop_pending_packet. */
  function DroppedPending(x: Transport, con: Consumer): Transport
    requires x.Shaped() && (con.pending.Some? ==> con.pending.value.frame < NUM_FRAMES)
  {
    if con.pending.Some? then x.Unref(con.pending.value.frame) else x
  }

  /** _stop after the join: the queue and the pending packet are given up, and deliveries start again after them. */
  function Stop(s: Rx): Rx
    requires Shaped(s)
  {
    s.(xport := DroppedPending(DrainedQueue(s.xport, s.fifo), s.con), fifo := [], con := NOTHING_PENDING,
       continuity := NoteDepth(s.continuity, 0),
       past := s.past.(base := |s.counted|, popped := |s.counted|, delivered := [], flagLost := false))
  }

  /** drain_rx_transport, one datagram: claimed, received and dropped. */
  function Discard(s: Rx, input: Arrival): Rx
    requires Shaped(s)
  {
    var x := s.xport.Receive(input);
    s.(xport := if s.xport.CanReceive(input) then x.Unref(s.xport.Turn()) else x)
  }

  /** The counters and the history start afresh. */
  function ClearCounters(s: Rx): Rx {
    s.(continuity := FRESH, counted := [], past := Past(0, 0, [], 0, true, false))
  }
}
