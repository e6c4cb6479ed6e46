/**
 * recv_packet_streamer: the worker's and the consumer's code, each method tied to a step
 * of RxMachine. A receive call lets the worker run, for any number of its steps, before
 * every pop; copying touches nothing the worker writes, so this covers every interleaving.
 */
module RxStreamer {
  import opened Arithmetic
  import opened Options
  import opened Fifo
  import opened RxTypes
  import opened RxFrames
  import opened RxMachine
  import opened RxSafety
  import opened RxHistory

  datatype Format = Float32 | Int16 | Unsupported

  /** One item in the caller's buffer. */
  datatype Cpu = Cs16(i: int, q: int) | Cf32(re: real, im: real)

  function Convert(format: Format, s: Sample): Cpu {
    if format == Float32 then Cf32(s.i as real / 32768.0, s.q as real / 32768.0) else Cs16(s.i, s.q)
  }

  function ConvertAll(format: Format, items: seq<Item>): (s: seq<Cpu>)
    ensures |s| == |items|
  {
    seq(|items|, k requires 0 <= k < |items| => Convert(format, items[k].sample))
  }

  /** The item in the caller's buffer: the sample's two numbers, as they are or divided by 32768. */
  ghost predicate IsSample(entry: Cpu, format: Format, s: Sample) {
    match entry
    case Cs16(i, q) => format != Float32 && i == s.i && q == s.q
    case Cf32(re, im) => format == Float32 && re * 32768.0 == s.i as real && im * 32768.0 == s.q as real
  }

  lemma ConvertedSample(format: Format, s: Sample)
    ensures IsSample(Convert(format, s), format, s)
  {
  }

  /** Entry by entry. */
  ghost predicate AreSamples(out: seq<Cpu>, format: Format, items: seq<Item>) {
    |out| == |items| && forall k: nat :: k < |out| ==> IsSample(out[k], format, items[k].sample)
  }

  lemma ConvertedItems(format: Format, items: seq<Item>)
    ensures AreSamples(ConvertAll(format, items), format, items)
  {
    hide IsSample, Convert;
    forall k: nat | k < |items| ensures IsSample(ConvertAll(format, items)[k], format, items[k].sample) {
      ConvertedSample(format, items[k].sample);
    }
  }

  /** The tick of a place in a packet: the packet's and one more for every sample time in front, modulo 2^64. */
  function TickAt(packetTime: nat, index: nat, channels: nat): nat
    requires channels > 0
  {
    (packetTime + index / channels) % 0x1_0000_0000_0000_0000
  }

  lemma TicksAre(item: Item, channels: nat)
    requires channels > 0
    ensures TickOf(item, channels) == TickAt(item.packetTime, item.index, channels)
    ensures NextTick(item, channels) == TickAt(item.packetTime, item.index + 1, channels)
  {
    QuotIsDiv(item.index, channels);
    QuotIsDiv(item.index + 1, channels);
  }

  /** Every item has the tick that would follow the item before it. */
  ghost predicate Unbroken(items: seq<Item>, channels: nat)
    requires channels > 0
  {
    forall k: nat :: k + 1 < |items| ==> Follows(items[k], items[k + 1], channels)
  }

  ghost predicate Follows(a: Item, b: Item, channels: nat)
    requires channels > 0
  {
    TickAt(b.packetTime, b.index, channels) == TickAt(a.packetTime, a.index + 1, channels)
  }

  lemma ContiguousIsUnbroken(items: seq<Item>, channels: nat)
    requires channels > 0 && Contiguous(items, channels)
    ensures Unbroken(items, channels)
  {
    hide TickAt, TickOf, NextTick;
    forall k: nat | k + 1 < |items| ensures Follows(items[k], items[k + 1], channels) {
      TicksAre(items[k], channels);
      TicksAre(items[k + 1], channels);
      assert TickOf(items[k + 1], channels) == NextTick(items[k], channels);
    }
  }

  datatype Flags = Flags(discontinuity: bool, backwards: bool)

  /** What a receive call has established so far: samples_copied, first_packet, the returned tick and status. */
  datatype Call = Call(copied: nat, first: bool, time: u64, flags: Flags)

  datatype Outcome = Full | TimedOut | AtGap | BadFormat

  /** What earlier deliveries lead the caller to expect: the tick after the last item, if any. */
  function Follow(delivered: seq<Item>, channels: nat): Option<u64>
    requires channels > 0
  {
    if delivered == [] then None else Some(NextTick(delivered[|delivered| - 1], channels))
  }

  /** The call so far, against what had been delivered before it (`before`, with its flag lost or not). */
  ghost predicate CallOk(call: Call, before: Past, now: Past, ticks: bool, channels: nat)
    requires channels > 0
  {
    match call
    case Call(copied, first, time, flags) =>
      && before.delivered <= now.delivered && |now.delivered| == |before.delivered| + copied
      && (first ==> copied == 0 && flags == Flags(false, false))
      && (copied > 0 ==> time == TickOf(now.delivered[|before.delivered|], channels))
      && (ticks ==> Contiguous(now.delivered[|before.delivered|..], channels))
      && (ticks && !first && !before.flagLost ==> FlagsRight(call, Follow(before.delivered, channels)))
      && (!ticks ==> flags == Flags(false, false))
      && now.flagsReported == before.flagsReported + (if flags.discontinuity then 1 else 0)
  }

  ghost predicate FlagsRight(call: Call, follow: Option<u64>) {
    && (call.flags.discontinuity <==> follow.Some? && call.time != follow.value)
    && (call.flags.backwards <==> follow.Some? && call.time < follow.value)
  }

  lemma OutcomeIs(o: Outcome)
    ensures o == Full || o == TimedOut || o == AtGap || o == BadFormat
  {
  }

  /** What a tick call that delivered n items has established. */
  lemma CallMeans(call: Call, before: Past, now: Past, channels: nat, n: nat)
    requires channels > 0 && CallOk(call, before, now, true, channels) && |now.delivered| == |before.delivered| + n
    ensures n > 0 ==> call.time == TickOf(now.delivered[|before.delivered|], channels)
    ensures Contiguous(now.delivered[|before.delivered|..], channels)
    ensures n > 0 && !before.flagLost ==> FlagsRight(call, Follow(before.delivered, channels))
    ensures now.flagsReported == before.flagsReported + (if call.flags.discontinuity then 1 else 0)
  {
  }

  /** The flags of a call: time is not the tick after the last item delivered before it, or is earlier than that. */
  ghost predicate FlagsSpelled(flags: Flags, time: nat, before: seq<Item>, channels: nat)
    requires channels > 0
  {
    if before == [] then !flags.discontinuity && !flags.backwards
    else
      var last := before[|before| - 1];
      && (flags.discontinuity <==> time != TickAt(last.packetTime, last.index + 1, channels))
      && (flags.backwards <==> time < TickAt(last.packetTime, last.index + 1, channels))
  }

  /** What a receive call has established, spelled out: `items` were delivered behind `before`. */
  ghost predicate CallSpelled(call: Call, before: seq<Item>, items: seq<Item>, ticks: bool, flagLost: bool, channels: nat)
    requires channels > 0
  {
    && |items| == call.copied
    && (items != [] ==> call.time == TickAt(items[0].packetTime, items[0].index, channels))
    && (ticks ==> Unbroken(items, channels))
    && (ticks && items != [] && !flagLost ==> FlagsSpelled(call.flags, call.time, before, channels))
    && (!ticks ==> call.flags == Flags(false, false))
  }

  lemma CallIsSpelled(call: Call, before: Past, now: Past, ticks: bool, channels: nat)
    requires channels > 0 && CallOk(call, before, now, ticks, channels)
    ensures CallSpelled(call, before.delivered, now.delivered[|before.delivered|..], ticks, before.flagLost, channels)
  {
    hide TickAt, TickOf, NextTick, Unbroken;
    var items := now.delivered[|before.delivered|..];
    if items != [] {
      TicksAre(items[0], channels);
    }
    if ticks {
      ContiguousIsUnbroken(items, channels);
      if items != [] && !before.flagLost {
        RightIsSpelled(call, before.delivered, channels);
      }
    }
  }

  lemma RightIsSpelled(call: Call, before: seq<Item>, channels: nat)
    requires channels > 0 && FlagsRight(call, Follow(before, channels))
    ensures FlagsSpelled(call.flags, call.time, before, channels)
  {
    if before != [] {
      TicksAre(before[|before| - 1], channels);
    }
  }

  /** The worker's steps on the given inputs. */
  ghost function WorkAll(s: Rx, inputs: seq<Arrival>): Rx {
    if inputs == [] then s
    else
      var t := WorkAll(s, inputs[..|inputs| - 1]);
      if Shaped(t) then WorkerStep(t, inputs[|inputs| - 1]) else t
  }

  /** The copy into the caller's buffer, converting where the format asks for it. */
  method ConvertSamples(samples: seq<Sample>, from: nat, n: nat, format: Format) returns (out: seq<Cpu>)
    requires from + n <= |samples|
    ensures |out| == n && forall k :: 0 <= k < n ==> out[k] == Convert(format, samples[from + k])
    ensures forall k: nat :: k < n ==> IsSample(out[k], format, samples[from + k])
  {
    out := [];
    for k := 0 to n
      invariant |out| == k && forall j :: 0 <= j < k ==> out[j] == Convert(format, samples[from + j])
    {
      out := out + [Convert(format, samples[from + k])];
    }
  }

  class RecvPacketStreamer {
    const channels: nat
    const fifo: TSQueue<QueuedPacket>

    // The transport's receive frames.
    var memory: seq<Datagram>
    var locked: seq<bool>
    var refs: seq<nat>
    var nextFrame: nat

    // The worker thread.
    var worker: Stage
    var continuity: Continuity

    // The consumer.
    var pending: Option<QueuedPacket>
    var pendingOffset: nat
    var pendingDiscontinuity: bool
    var pendingBackwards: bool
    var haveExpected: bool
    var expected: u64

    ghost var counted: seq<Packet>
    ghost var past: Past

    ghost function View(): Rx
      reads this, fifo
    {
      Rx(channels, Transport(memory, locked, refs, nextFrame), worker, continuity, counted, fifo.items,
         Consumer(pending, pendingOffset, pendingDiscontinuity, pendingBackwards, haveExpected, expected), past)
    }

    ghost predicate Valid()
      reads this, fifo
      ensures Valid() ==> Shaped(View())
    {
      fifo.maxSize == MAX_QUEUED && fifo.overwriteWhenFull && Inv(View())
    }

    constructor (enabledChannels: nat, memory: seq<Datagram>)
      requires |memory| == NUM_FRAMES
      ensures Valid() && fresh(fifo)
      ensures View() == Fresh(if enabledChannels > 0 then enabledChannels else 1, memory)
      ensures fifo.items == [] && fifo.maxSize == 4096 && fifo.overwriteWhenFull
    {
      channels := if enabledChannels > 0 then enabledChannels else 1;
      fifo := new TSQueue(MAX_QUEUED, true);
      this.memory, locked, refs, nextFrame := memory, seq(NUM_FRAMES, _ => false), seq(NUM_FRAMES, _ => 0), 0;
      worker, continuity := Idle, FRESH;
      pending, pendingOffset, pendingDiscontinuity, pendingBackwards := None, 0, false, false;
      haveExpected, expected := false, 0;
      counted, past := [], Past(0, 0, [], 0, true, false);
      new;
      FreshIsSafe(channels, memory);
    }

    // ---- The worker ----

    /** get_recv_buff: the next frame in turn, if it can be claimed and a datagram arrives. */
    method GetFrame(input: Arrival)
      requires Shaped(View()) && worker == Idle
      modifies this
      ensures View() == RxMachine.GetFrame(old(View()), input)
    {
      if nextFrame == NUM_FRAMES {
        nextFrame := 0;
      }
      var f := nextFrame;
      if !locked[f] {
        if input.Arrives? && input.d.size > 0 {
          locked := locked[f := true];
          memory := memory[f := input.d];
          refs := refs[f := 1];
          nextFrame := nextFrame + 1;
          worker := Received(f);
        }
      }
    }

    /** One smart pointer to frame f goes out of scope. */
    method Unref(f: nat)
      requires View().xport.Shaped() && f < NUM_FRAMES
      modifies this`refs, this`locked
      ensures View() == old(View()).(xport := old(View()).xport.Unref(f))
    {
      if refs[f] > 0 {
        refs := refs[f := refs[f] - 1];
        if refs[f] == 0 {
          locked := locked[f := false];
        } else {
          locked := locked[f := true];
        }
      }
    }

    /** update_rx_continuity_stats. */
    method UpdateContinuity(hdr: Header, samples: nat)
      requires channels > 0
      modifies this`continuity
      ensures continuity == NotePacket(old(continuity), hdr, samples, channels)
    {
      var c := continuity;
      QuotIsDiv(samples + channels - 1, channels);
      var step := (samples + channels - 1) / channels;
      if !c.haveLast {
        c := c.(haveLast := true, packetCount := 1, sampleCount := samples);
      } else {
        if hdr.seqNo != c.expectedSeq {
          c := c.(seqErrors := c.seqErrors + 1);
        }
        if hdr.timestamp != c.expectedTimestamp {
          c := c.(timestampErrors := c.timestampErrors + 1);
          if hdr.timestamp < c.expectedTimestamp {
            c := c.(timestampBackwards := c.timestampBackwards + 1);
          }
        }
        c := c.(packetCount := c.packetCount + 1, sampleCount := c.sampleCount + samples);
      }
      continuity := c.(expectedSeq := (hdr.seqNo + 1) % 0x10000, expectedTimestamp := Add64(hdr.timestamp, step));
    }

    /** Too short, invalid, or counted and kept. */
    method Inspect()
      requires Shaped(View()) && worker.Received?
      modifies this
      ensures View() == RxMachine.Inspect(old(View()))
      ensures var d := old(memory[worker.frame]);
              && counted == old(counted) + (if WellFormed(d) then [Packet(d.hdr, d.samples)] else [])
              && continuity.invalidPackets == old(continuity).invalidPackets + (if !WellFormed(d) && d.size >= 20 then 1 else 0)
              && (worker.Idle? <==> !WellFormed(d))
    {
      hide WellFormed;
      var f := worker.frame;
      var d := memory[f];
      KeptAreWellFormed(d);
      if d.size / 2 / 2 <= 4 {
        Unref(f);
        worker := Idle;
      } else if !IsValidPacket(d) {
        continuity := continuity.(invalidPackets := continuity.invalidPackets + 1);
        Unref(f);
        worker := Idle;
      } else {
        var count := (d.hdr.packetLen - HEADER_BYTES) / 4;
        UpdateContinuity(d.hdr, count);
        worker := Counted(QueuedPacket(f, d.hdr, count));
        counted := counted + [Packet(d.hdr, d.samples)];
      }
    }

    method UpdateDepth(depth: nat)
      modifies this`continuity
      ensures continuity == NoteDepth(old(continuity), depth)
      ensures continuity.queueDepth == depth
      ensures continuity.queueDepthPeak == if depth > old(continuity).queueDepthPeak then depth else old(continuity).queueDepthPeak
    {
      var peak := if depth > continuity.queueDepthPeak then depth else continuity.queueDepthPeak;
      continuity := continuity.(queueDepth := depth, queueDepthPeak := peak);
    }

    /** The push; its answer is always true, so the drop counter is never reached. */
    method PushPacket()
      requires Shaped(View()) && worker.Counted? && fifo.maxSize == MAX_QUEUED && |fifo.items| < NUM_FRAMES
      modifies this, fifo
      ensures View() == Push(old(View())) && fifo.items == old(fifo.items) + [old(worker).packet]
    {
      var p := worker.packet;
      var pushed := fifo.Push(p);
      if !pushed {
        // note_host_queue_drop: cannot happen.
        assert false;
      } else {
        refs := refs[p.frame := refs[p.frame] + 1];
        worker := Queued(p);
      }
    }

    method EndIteration()
      requires Shaped(View()) && worker.Queued?
      modifies this
      ensures View() == RxMachine.EndIteration(old(View()))
    {
      UpdateDepth(|fifo.items|);
      Unref(worker.packet.frame);
      worker := Idle;
    }

    method WorkerStep(input: Arrival)
      requires Valid()
      modifies this, fifo
      ensures Valid()
      ensures View() == RxMachine.WorkerStep(old(View()), input)
    {
      hide Inv;
      WorkerStepKeeps(View(), input);
      if worker.Counted? {
        PushKeepsInv(View());
      }
      match worker
      case Idle => GetFrame(input);
      case Received(_) => Inspect();
      case Counted(_) => PushPacket();
      case Queued(_) => EndIteration();
    }

    method RunWorker(inputs: seq<Arrival>)
      requires Valid()
      modifies this, fifo
      ensures Valid()
      ensures View() == WorkAll(old(View()), inputs)
    {
      hide Inv;
      var k := 0;
      while k < |inputs|
        invariant k <= |inputs| && Valid()
        invariant View() == WorkAll(old(View()), inputs[..k])
      {
        WorkAllNext(old(View()), inputs, k);
        WorkerStep(inputs[k]);
        k := k + 1;
      }
      assert inputs[..k] == inputs;
    }

    // ---- The consumer ----

    /** The pop out of the queue, with its depth statistic. */
    method PopHead() returns (packet: QueuedPacket)
      requires fifo.items != []
      modifies `continuity, fifo
      ensures packet == old(fifo.items)[0]
      ensures View() == old(View()).(fifo := old(fifo.items)[1..], continuity := NoteDepth(old(continuity), |old(fifo.items)| - 1))
    {
      var head := fifo.Pop();
      packet := head.value;
      UpdateDepth(|fifo.items|);
    }

    /** pop_next_packet when the wait found a packet, and the gap check against the expected tick. */
    method PopPacket(ticks: bool)
      requires pending.None? && fifo.items != []
      modifies this, fifo
      ensures View() == Pop(old(View()), ticks)
    {
      var packet := PopHead();
      pending, pendingOffset := Some(packet), 0;
      var gap := haveExpected && packet.hdr.timestamp != expected;
      if gap && ticks {
        pendingDiscontinuity := true;
        pendingBackwards := packet.hdr.timestamp < expected;
      }
      past := past.(popped := past.popped + 1, flagLost := !ticks && gap, ticksOnly := past.ticksOnly && ticks);
    }

    /** The first packet of a call: its tick, and its flags for a caller that takes them. */
    method TakeFirst(ticks: bool) returns (time: u64, flags: Flags)
      requires pending.Some? && channels > 0
      modifies this
      ensures View() == TakeFlags(old(View()), ticks)
      ensures time == Add64(pending.value.hdr.timestamp, Quot(pendingOffset, channels))
      ensures flags == if ticks && old(pendingDiscontinuity) then Flags(true, old(pendingBackwards)) else Flags(false, false)
    {
      QuotIsDiv(pendingOffset, channels);
      time := Add64(pending.value.hdr.timestamp, pendingOffset / channels);
      flags := Flags(false, false);
      if ticks && pendingDiscontinuity {
        flags := Flags(true, pendingBackwards);
      }
      past := past.(flagLost := past.flagLost || pendingDiscontinuity, ticksOnly := past.ticksOnly && ticks,
                    flagsReported := past.flagsReported + (if ticks && pendingDiscontinuity then 1 else 0));
      pendingDiscontinuity := false;
      pendingBackwards := false;
    }

    /** The copy of n items out of the pending packet's frame. */
    method CopyItems(n: nat, format: Format) returns (out: seq<Cpu>)
      requires CanCopy(View(), n) && 0 < n
      modifies this
      ensures View() == Copy(old(View()), n)
      ensures out == ConvertAll(format, Copy(old(View()), n).past.delivered[|old(past).delivered|..])
    {
      var p := pending.value;
      ghost var items := Items(Packet(p.hdr, memory[p.frame].samples))[pendingOffset..pendingOffset + n];
      assert (past.delivered + items)[|past.delivered|..] == items;
      out := ConvertSamples(memory[p.frame].samples, pendingOffset, n, format);
      assert out == ConvertAll(format, items);
      Advance(n);
    }

    /** The bookkeeping behind a copy of n items. */
    method Advance(n: nat)
      requires CanCopy(View(), n) && 0 < n
      modifies this
      ensures View() == Copy(old(View()), n)
    {
      var p := pending.value;
      past := past.(delivered := past.delivered + Items(Packet(p.hdr, memory[p.frame].samples))[pendingOffset..pendingOffset + n],
                    flagLost := false);
      pendingOffset := pendingOffset + n;
      haveExpected := true;
      QuotIsDiv(pendingOffset, channels);
      expected := Add64(p.hdr.timestamp, pendingOffset / channels);
      if pendingOffset >= p.count {
        pending, pendingOffset := None, 0;
        Unref(p.frame);
      }
    }

    /** Where a call stands between two rounds of its copy loop. */
    ghost predicate Between(call: Call, before: Past, format: Format, ticks: bool)
      reads this
      requires channels > 0
    {
      match call
      case Call(copied, first, _, _) =>
        && CallOk(call, before, past, ticks, channels)
        && (first ==> past.delivered == before.delivered && past.flagsReported == before.flagsReported
                      && (ticks && past.flagLost ==> before.flagLost))
        && (copied > 0 && pending.Some? ==> pendingOffset > 0)
        && (if format == Unsupported then copied == 0 else first || copied > 0)
    }

    /** The wait for the next packet: the worker runs, and the oldest entry becomes the pending packet. */
    method AwaitPacket(inputs: seq<Arrival>, call: Call, ticks: bool, format: Format, ghost before: Past) returns (ok: bool)
      requires Valid() && pending.None? && Between(call, before, format, ticks)
      modifies this, fifo
      ensures Valid() && past.delivered == old(past).delivered
      ensures !ok ==> pending.None? && fifo.items == [] && Between(call, before, format, ticks)
      ensures ok ==> pending.Some? && pendingOffset == 0 && CallOk(call, before, past, ticks, channels)
      ensures ok ==> (pendingDiscontinuity <==> ticks && View().con.Gap())
      ensures call.first ==> past.flagsReported == before.flagsReported && (ticks && past.flagLost ==> before.flagLost)
    {
      hide Accounted, QueueOk, DeliveryOk, FlagsOk, Tally, NoneEmpty;
      WorkLeavesConsumer(View(), inputs);
      RunWorker(inputs);
      if |fifo.items| == 0 {
        return false;
      }
      PopKeepsInv(View(), ticks);
      PopPacket(ticks);
      return true;
    }

    /** The first packet of a call. */
    method StartCall(call0: Call, ticks: bool, ghost before: Past) returns (call: Call)
      requires Valid() && pending.Some? && call0.first && CallOk(call0, before, past, ticks, channels)
      requires past.delivered == before.delivered && past.flagsReported == before.flagsReported
      requires ticks && past.flagLost ==> before.flagLost
      modifies this
      ensures Valid() && View() == TakeFlags(old(View()), ticks)
      ensures CallOk(call, before, past, ticks, channels) && !call.first && call.copied == 0
      ensures call.time == Add64(pending.value.hdr.timestamp, Quot(pendingOffset, channels))
    {
      hide Accounted, QueueOk, DeliveryOk, ExpectationOk, FlagsOk, Tally, NoneEmpty;
      TakeFlagsKeeps(View(), ticks);
      ghost var s := View();
      var time, flags := TakeFirst(ticks);
      FirstSettles(s, before, ticks, time, flags);
      call := Call(0, false, time, flags);
    }

    /** A pending packet is ready to be copied from. */
    ghost predicate Ready(call: Call, before: Past, ticks: bool)
      reads this, fifo
      requires channels > 0
    {
      match call
      case Call(copied, first, time, _) =>
        && pending.Some? && !pendingDiscontinuity && CallOk(call, before, past, ticks, channels) && !first
        && (copied == 0 ==> time == Add64(pending.value.hdr.timestamp, Quot(pendingOffset, channels)))
        && (ticks && copied > 0 && pendingOffset == 0 ==> !View().con.Gap())
    }

    /** One copy out of the pending packet, as much as is wanted and there. */
    method CopyRound(left: nat, call0: Call, ticks: bool, format: Format, ghost before: Past) returns (out: seq<Cpu>, call: Call)
      requires Valid() && 0 < left && format != Unsupported && Ready(call0, before, ticks)
      modifies this
      ensures Valid() && Between(call, before, format, ticks) && !call.first
      ensures 0 < |out| <= left && call.copied == call0.copied + |out|
      ensures old(past).delivered <= past.delivered && out == ConvertAll(format, past.delivered[|old(past).delivered|..])
      ensures |out| < left ==> pending.None?
    {
      hide Accounted, QueueOk, ExpectationOk, FlagsOk, Tally, NoneEmpty, AllItems;
      var n := if pending.value.count - pendingOffset < left then pending.value.count - pendingOffset else left;
      CopyExtends(View(), before, call0, ticks, n);
      CopyKeeps(View(), n);
      ChunkCopied(View(), n);
      out := CopyItems(n, format);
      call := call0.(copied := call0.copied + n);
    }

    /** A tick call ended in front of a gap: the packet behind it is pending with its flag set. */
    ghost predicate Stopped(call: Call, before: Past)
      reads this
      requires channels > 0
    {
      call.copied > 0 && pending.Some? && pendingDiscontinuity && CallOk(call, before, past, true, channels)
    }

    /** The part of a round before the copy: wait for a packet if none is pending, and settle the call's tick and flags. */
    method Prepare(call0: Call, ticks: bool, format: Format, inputs: seq<Arrival>, ghost before: Past)
      returns (call: Call, outcome: Outcome)
      requires Valid() && Between(call0, before, format, ticks)
      modifies this, fifo
      ensures Valid() && call.copied == call0.copied && past.delivered == old(past).delivered
      ensures outcome == Full ==> Ready(call, before, ticks) && format != Unsupported
      ensures outcome == TimedOut ==> pending.None? && fifo.items == [] && call == call0 && Between(call, before, format, ticks)
      ensures outcome == AtGap ==> ticks && Stopped(call, before)
      ensures outcome == BadFormat ==> format == Unsupported && Between(call, before, format, ticks)
    {
      hide Accounted, QueueOk, FlagsOk, Tally, NoneEmpty, AllItems;
      call := call0;
      if pending.None? {
        var ok := AwaitPacket(inputs, call, ticks, format, before);
        if !ok {
          return call, TimedOut;
        }
        if ticks && pendingDiscontinuity && call.copied > 0 {
          return call, AtGap;
        }
      }
      if call.first {
        call := StartCall(call, ticks, before);
      }
      outcome := if format == Unsupported then BadFormat else Full;
    }

    /** One round of the copy loop: it copies something, or ends the work on this buffer. */
    method Round(left: nat, call0: Call, ticks: bool, format: Format, inputs: seq<Arrival>, ghost before: Past)
      returns (out: seq<Cpu>, call: Call, outcome: Outcome)
      requires Valid() && 0 < left && Between(call0, before, format, ticks)
      modifies this, fifo
      ensures Valid() && call.copied == call0.copied + |out|
      ensures if outcome == AtGap then Stopped(call, before) else Between(call, before, format, ticks)
      ensures old(past).delivered <= past.delivered && out == ConvertAll(format, past.delivered[|old(past).delivered|..])
      ensures if outcome == Full then 0 < |out| <= left else out == []
      ensures outcome == TimedOut ==> pending.None? && fifo.items == []
      ensures outcome == AtGap ==> ticks
      ensures outcome == BadFormat ==> format == Unsupported
    {
      hide Inv;
      out := [];
      assert past.delivered[|past.delivered|..] == [];
      call, outcome := Prepare(call0, ticks, format, inputs, before);
      if outcome == Full {
        out, call := CopyRound(left, call, ticks, format, before);
      }
    }

    /** The copy loop for one buffer. `script(k)` is what the worker meets before pop number k. */
    method FillBuffer(n: nat, call0: Call, ticks: bool, format: Format, script: nat -> seq<Arrival>, ghost before: Past)
      returns (out: seq<Cpu>, call: Call, outcome: Outcome)
      requires Valid() && Between(call0, before, format, ticks)
      modifies this, fifo
      ensures Valid() && call.copied == call0.copied + |out|
      ensures if outcome == AtGap then Stopped(call, before) else Between(call, before, format, ticks)
      ensures old(past).delivered <= past.delivered && out == ConvertAll(format, past.delivered[|old(past).delivered|..])
      ensures |out| <= n && (outcome == Full <==> |out| == n)
      ensures outcome == TimedOut ==> pending.None? && fifo.items == []
      ensures outcome == AtGap ==> ticks
      ensures outcome == BadFormat ==> format == Unsupported
    {
      hide Inv;
      ghost var start := past.delivered;
      out, call, outcome := [], call0, Full;
      var pops := 0;
      assert past.delivered[|start|..] == [];
      while |out| < n && outcome == Full
        invariant |out| <= n && call.copied == call0.copied + |out|
        invariant Valid()
        invariant if outcome == AtGap then Stopped(call, before) else Between(call, before, format, ticks)
        invariant start <= past.delivered && out == ConvertAll(format, past.delivered[|start|..])
        invariant outcome != Full ==> |out| < n
        invariant outcome == TimedOut ==> pending.None? && fifo.items == []
        invariant outcome == AtGap ==> ticks
        invariant outcome == BadFormat ==> format == Unsupported
        decreases n - |out|, outcome == Full
      {
        ghost var mid := past.delivered;
        var more;
        more, call, outcome := Round(n - |out|, call, ticks, format, script(pops), before);
        ConvertJoin(format, start, mid, past.delivered);
        out := out + more;
        pops := pops + 1;
      }
    }

    /** The loop over the buffers. */
    method FillBuffers(nbuffs: nat, n: nat, call0: Call, ticks: bool, format: Format, script: (nat, nat) -> seq<Arrival>, ghost before: Past)
      returns (outs: seq<seq<Cpu>>, call: Call, outcome: Outcome)
      requires Valid() && past == before && Between(call0, before, format, ticks)
      modifies this, fifo
      ensures Valid() && |outs| == nbuffs && AllAtMost(outs, n)
      ensures if outcome == AtGap then ticks && Stopped(call, before) else Between(call, before, format, ticks)
      ensures before.delivered <= past.delivered
      ensures Flat(outs) == ConvertAll(format, past.delivered[|before.delivered|..])
      ensures outcome == Full && nbuffs > 0 ==> |outs[nbuffs - 1]| == n
      ensures outcome == TimedOut ==> pending.None? && fifo.items == []
      ensures outcome == BadFormat ==> format == Unsupported
    {
      hide Inv;
      outs, call, outcome := [], call0, Full;
      assert past.delivered[|before.delivered|..] == [];
      for i := 0 to nbuffs
        invariant Valid() && |outs| == i && AllAtMost(outs, n)
        invariant if outcome == AtGap then ticks && Stopped(call, before) else Between(call, before, format, ticks)
        invariant before.delivered <= past.delivered
        invariant Flat(outs) == ConvertAll(format, past.delivered[|before.delivered|..])
        invariant outcome == Full && i > 0 ==> |outs[i - 1]| == n
        invariant outcome == TimedOut ==> pending.None? && fifo.items == []
        invariant outcome == BadFormat ==> format == Unsupported
      {
        ghost var mid := past.delivered;
        var out;
        out, call, outcome := FillNext(n, call, outcome, ticks, format, (k: nat) => script(i, k), before);
        ConvertJoin(format, before.delivered, mid, past.delivered);
        FlatAppend(outs, out, n);
        outs := outs + [out];
      }
    }

    /**
     * recv_with_timeout: the buffers are filled one after the other. Whatever the worker does
     * meanwhile, the caller gets exactly the next items of the stream; the returned tick is that
     * of the first one; and a tick call (the only kind with a flag argument) gets one segment
     * without a time gap, flagged if and only if it does not continue the previous delivery.
     */
    method RecvWithTimeout(nbuffs: nat, n: nat, time0: u64, ticks: bool, format: Format, script: (nat, nat) -> seq<Arrival>)
      returns (outs: seq<seq<Cpu>>, call: Call, outcome: Outcome)
      requires Valid()
      modifies this, fifo
      ensures Valid() && |outs| == nbuffs && AllAtMost(outs, n)
      ensures old(past).delivered <= past.delivered
      ensures Flat(outs) == ConvertAll(format, past.delivered[|old(past).delivered|..])
      ensures CallOk(call, old(past), past, ticks, channels)
      ensures AreSamples(Flat(outs), format, past.delivered[|old(past).delivered|..])
      ensures CallSpelled(call, old(past).delivered, past.delivered[|old(past).delivered|..], ticks, old(past).flagLost, channels)
      ensures outcome == AtGap ==> ticks && call.copied > 0 && pending.Some? && pendingDiscontinuity
      ensures outcome == Full && nbuffs > 0 ==> |outs[nbuffs - 1]| == n
      ensures outcome == TimedOut ==> pending.None? && fifo.items == []
      ensures outcome == BadFormat ==> format == Unsupported
    {
      hide Inv, AreSamples, CallSpelled;
      assert past.delivered[|past.delivered|..] == [];
      outs, call, outcome := FillBuffers(nbuffs, n, Call(0, true, time0, Flags(false, false)), ticks, format, script, past);
      ConvertedItems(format, past.delivered[|old(past).delivered|..]);
      CallIsSpelled(call, old(past), past, ticks, channels);
    }

    /** The next buffer, unless the call has already returned at a gap. */
    method FillNext(n: nat, call0: Call, outcome0: Outcome, ticks: bool, format: Format, script: nat -> seq<Arrival>, ghost before: Past)
      returns (out: seq<Cpu>, call: Call, outcome: Outcome)
      requires Valid()
      requires if outcome0 == AtGap then ticks && Stopped(call0, before) else Between(call0, before, format, ticks)
      modifies this, fifo
      ensures Valid() && call.copied == call0.copied + |out| && |out| <= n
      ensures if outcome == AtGap then ticks && Stopped(call, before) else Between(call, before, format, ticks)
      ensures old(past).delivered <= past.delivered && out == ConvertAll(format, past.delivered[|old(past).delivered|..])
      ensures if outcome0 == AtGap then outcome == AtGap else (outcome == Full <==> |out| == n)
      ensures outcome == TimedOut ==> pending.None? && fifo.items == []
      ensures outcome == BadFormat ==> format == Unsupported
    {
      hide Inv;
      if outcome0 == AtGap {
        assert past.delivered[|past.delivered|..] == [];
        return [], call0, AtGap;
      }
      out, call, outcome := FillBuffer(n, call0, ticks, format, script, before);
    }

    /** recv_from_fifo_ticks. */
    method RecvFromFifoTicks(n: nat, time0: u64, format: Format, script: (nat, nat) -> seq<Arrival>)
      returns (out: seq<Cpu>, time: u64, flags: Flags)
      requires Valid() && format != Unsupported
      modifies this, fifo
      ensures Valid() && |out| <= n
      ensures old(past).delivered <= past.delivered && out == ConvertAll(format, past.delivered[|old(past).delivered|..])
      ensures |out| > 0 ==> time == TickOf(past.delivered[|old(past).delivered|], channels)
      ensures Contiguous(past.delivered[|old(past).delivered|..], channels)
      ensures |out| > 0 && !old(past).flagLost ==>
        (flags.discontinuity <==> old(past).delivered != [] && time != Follow(old(past).delivered, channels).value)
      ensures |out| > 0 && !old(past).flagLost ==>
        (flags.backwards <==> old(past).delivered != [] && time < Follow(old(past).delivered, channels).value)
      ensures past.flagsReported == old(past).flagsReported + (if flags.discontinuity then 1 else 0)
      ensures |out| < n ==> AtEnd()
      ensures AreSamples(out, format, past.delivered[|old(past).delivered|..])
      ensures CallSpelled(Call(|out|, false, time, flags), old(past).delivered, past.delivered[|old(past).delivered|..], true, old(past).flagLost, channels)
    {
      hide Inv;
      var outs, call, outcome := RecvWithTimeout(1, n, time0, true, format, script);
      OutcomeIs(outcome);
      out, time, flags := outs[0], call.time, call.flags;
      assert |out| < n ==> AtEnd();
      FlatOne(outs);
      CallMeans(call, old(past), past, channels, |out|);
    }

    /** Nothing is left to deliver, or only what lies behind a gap. */
    ghost predicate AtEnd()
      reads this, fifo
    {
      (pending.None? && fifo.items == []) || (pending.Some? && pendingDiscontinuity)
    }

    // ---- Stopping and resetting ----

    /** The join: the worker completes the iteration it is in. */
    method JoinWorker()
      requires Valid()
      modifies this, fifo
      ensures Valid() && worker == Idle
      ensures View().con == old(View()).con && past == old(past) && old(counted) <= counted
    {
      hide Inv;
      while worker != Idle
        invariant Valid() && View().con == old(View()).con && past == old(past) && old(counted) <= counted
        decreases Rank(worker)
      {
        StepLeavesConsumer(View(), Silence);
        WorkerStep(Silence);
      }
    }

    method DrainFifo()
      requires FramesOk(View().xport, worker, fifo.items, View().con.Frame()) && worker == Idle
      modifies this, fifo
      ensures FramesOk(View().xport, worker, [], View().con.Frame()) && fifo.items == []
      ensures View() == old(View()).(fifo := [], xport := DrainedQueue(old(View()).xport, old(fifo.items)),
                                     continuity := NoteDepth(old(continuity), 0))
    {
      hide AllItems;
      while |fifo.items| > 0
        invariant worker == Idle && FramesOk(View().xport, worker, fifo.items, View().con.Frame())
        invariant DrainedQueue(View().xport, fifo.items) == DrainedQueue(old(View()).xport, old(fifo.items))
        invariant View() == old(View()).(fifo := fifo.items, xport := View().xport)
        decreases |fifo.items|
      {
        DropHeadKeeps(View().xport, fifo.items, View().con.Frame());
        var head := fifo.Pop();
        Unref(head.value.frame);
      }
      UpdateDepth(0);
    }

    method StopPending()
      requires Shaped(View())
      modifies this
      ensures View() == old(View()).(con := NOTHING_PENDING, xport := DroppedPending(old(View()).xport, old(View()).con))
    {
      if pending.Some? {
        Unref(pending.value.frame);
      }
      ForgetPending();
    }

    method ForgetPending()
      modifies this
      ensures View() == old(View()).(con := NOTHING_PENDING)
    {
      pending, pendingOffset, pendingDiscontinuity, pendingBackwards := None, 0, false, false;
      haveExpected, expected := false, 0;
    }

    /** _stop, after the join. */
    method Stop()
      requires Valid() && worker == Idle
      modifies this, fifo
      ensures Valid() && View() == RxMachine.Stop(old(View()))
      ensures forall f :: 0 <= f < NUM_FRAMES ==> !locked[f]
      ensures fifo.items == [] && pending.None? && !haveExpected && !pendingDiscontinuity && continuity.queueDepth == 0 && counted == old(counted)
    {
      hide Accounted, QueueOk, DeliveryOk, ExpectationOk, FlagsOk, Tally, NoneEmpty;
      StopKeeps(View());
      DrainFifo();
      StopPending();
      past := past.(base := |counted|, popped := |counted|, delivered := [], flagLost := false);
    }

    /** drain_rx_transport: datagrams left over from an earlier session are received and dropped. */
    method DrainTransport(arrivals: seq<Arrival>)
      requires Shaped(View()) && worker == Idle && FramesOk(View().xport, Idle, fifo.items, View().con.Frame())
      modifies this
      ensures FramesOk(View().xport, Idle, fifo.items, View().con.Frame())
      ensures View() == old(View()).(xport := View().xport)
    {
      var drained := 0;
      while drained < |arrivals| && drained != 65536
        invariant drained <= |arrivals| && worker == Idle && View() == old(View()).(xport := View().xport)
        invariant FramesOk(View().xport, Idle, fifo.items, View().con.Frame())
      {
        DiscardFrames(View(), arrivals[drained]);
        GetFrame(arrivals[drained]);
        if worker == Idle {
          return;
        }
        Unref(worker.frame);
        worker := Idle;
        drained := drained + 1;
      }
    }

    /** reset_rx_continuity_stats, with the worker joined: the start of an epoch. */
    method ResetContinuity(arrivals: seq<Arrival>)
      requires Valid() && worker == Idle
      modifies this, fifo
      ensures Valid() && View() == Emptied(channels, View().xport)
      ensures forall f :: 0 <= f < NUM_FRAMES ==> !locked[f]
      ensures fifo.items == [] && pending.None? && !haveExpected && !pendingDiscontinuity && counted == []
      ensures continuity == Continuity(false, 0, 0, 0, 0, 0, 0, 0, 0, 0, 0, 0)
    {
      hide Accounted, QueueOk, DeliveryOk, ExpectationOk, FlagsOk, Tally, NoneEmpty;
      DrainFifo();
      DrainTransport(arrivals);
      PendingFrameFree(View());
      EmptyIsSafe(channels, DroppedPending(View().xport, View().con));
      StopPending();
      continuity := FRESH;
      counted, past := [], Past(0, 0, [], 0, true, false);
    }
  }

  function Flat(outs: seq<seq<Cpu>>): seq<Cpu> {
    if outs == [] then [] else Flat(outs[..|outs| - 1]) + outs[|outs| - 1]
  }

  /** No buffer gets more than was asked for it. */
  predicate AllAtMost(outs: seq<seq<Cpu>>, n: nat) {
    forall k {:trigger outs[k]} :: 0 <= k < |outs| ==> |outs[k]| <= n
  }

  lemma FlatAppend(outs: seq<seq<Cpu>>, out: seq<Cpu>, n: nat)
    requires AllAtMost(outs, n) && |out| <= n
    ensures Flat(outs + [out]) == Flat(outs) + out && AllAtMost(outs + [out], n)
  {
    assert (outs + [out])[..|outs|] == outs;
  }

  lemma FlatOne(outs: seq<seq<Cpu>>)
    requires |outs| == 1
    ensures Flat(outs) == outs[0]
  {
    assert outs[..0] == [];
  }

  /** The start of an epoch: nothing counted, queued, pending or delivered. */
  function Emptied(channels: nat, x: Transport): Rx {
    Rx(channels, x, Idle, FRESH, [], [], NOTHING_PENDING, Past(0, 0, [], 0, true, false))
  }

  lemma EmptyIsSafe(channels: nat, x: Transport)
    requires channels > 0 && FramesOk(x, Idle, [], None)
    ensures Inv(Emptied(channels, x))
  {
  }

  lemma DiscardFrames(s: Rx, input: Arrival)
    requires Shaped(s) && s.worker == Idle && FramesOk(s.xport, Idle, s.fifo, s.con.Frame())
    ensures FramesOk(Discard(s, input).xport, Idle, s.fifo, s.con.Frame())
  {
    if s.xport.CanReceive(input) {
      var f := s.xport.Turn();
      ClaimKeeps(s.xport.locked, s.xport.refs, s.fifo, s.con.Frame(), f);
      var x := s.xport.Receive(input);
      DropWorkerKeeps(x.locked, x.refs, f, false, s.fifo, s.con.Frame());
    }
  }

  lemma PendingFrameFree(s: Rx)
    requires Shaped(s) && s.worker == Idle && s.fifo == [] && FramesOk(s.xport, Idle, [], s.con.Frame())
    ensures FramesOk(DroppedPending(s.xport, s.con), Idle, [], None)
    ensures forall f :: 0 <= f < NUM_FRAMES ==> !DroppedPending(s.xport, s.con).locked[f]
  {
    if s.con.pending.Some? {
      DropPendingKeeps(s.xport.locked, s.xport.refs, None, false, [], s.con.pending.value.frame);
    }
    var y := DroppedPending(s.xport, s.con);
    forall f | 0 <= f < NUM_FRAMES
      ensures !y.locked[f]
    {
      assert y.refs[f] == Holders(None, [], None, f);
    }
  }

  lemma ConvertJoin(format: Format, a: seq<Item>, b: seq<Item>, c: seq<Item>)
    requires a <= b <= c
    ensures ConvertAll(format, c[|a|..]) == ConvertAll(format, b[|a|..]) + ConvertAll(format, c[|b|..])
  {
    assert c[|a|..] == b[|a|..] + c[|b|..];
  }

  lemma WorkAllNext(s: Rx, inputs: seq<Arrival>, k: nat)
    requires k < |inputs| && Inv(WorkAll(s, inputs[..k]))
    ensures WorkAll(s, inputs[..k + 1]) == WorkerStep(WorkAll(s, inputs[..k]), inputs[k])
  {
    assert inputs[..k + 1][..k] == inputs[..k];
  }

  lemma StepLeavesConsumer(s: Rx, input: Arrival)
    requires Shaped(s)
    ensures var t := WorkerStep(s, input);
            && t.con == s.con && t.past == s.past && t.channels == s.channels && s.counted <= t.counted
            && (s.worker != Idle ==> Rank(t.worker) < Rank(s.worker))
  {
  }

  function Rank(w: Stage): nat {
    match w
    case Idle => 0
    case Received(_) => 3
    case Counted(_) => 2
    case Queued(_) => 1
  }

  /** The worker's steps change nothing the consumer owns. */
  lemma {:induction false} WorkLeavesConsumer(s: Rx, inputs: seq<Arrival>)
    ensures var t := WorkAll(s, inputs);
            t.con == s.con && t.past == s.past && t.channels == s.channels && s.counted <= t.counted
    decreases |inputs|
  {
    if inputs != [] {
      WorkLeavesConsumer(s, inputs[..|inputs| - 1]);
    }
  }

  /** In the middle of a packet the next item continues the last one delivered. */
  lemma PendingFollows(s: Rx)
    requires DeliveryOk(s.xport.memory, s.con, s.counted, s.past) && ExpectationOk(s.channels, s.con, s.past)
    requires s.con.pending.Some? && s.con.offset > 0
    ensures s.con.haveExpected && s.con.expected == Add64(s.con.pending.value.hdr.timestamp, Quot(s.con.offset, s.channels))
  {
    var past, p := s.past, s.counted[s.past.popped - 1];
    var ps, all := s.counted[past.base..past.popped], Items(p);
    assert ps[|ps| - 1] == p;
    assert Packet(s.con.pending.value.hdr, s.xport.memory[s.con.pending.value.frame].samples) == p;
    var earlier := AllItems(ps[..|ps| - 1]);
    assert past.delivered + all[s.con.offset..] == earlier + all;
    assert past.delivered[|past.delivered| - 1] == (earlier + all)[|past.delivered| - 1] == all[s.con.offset - 1];
  }

  /** Taking the first packet's flags settles the returned tick and the flags. */
  lemma FirstSettles(s: Rx, before: Past, ticks: bool, time: u64, flags: Flags)
    requires DeliveryOk(s.xport.memory, s.con, s.counted, s.past) && ExpectationOk(s.channels, s.con, s.past)
    requires s.con.pending.Some? && s.past.delivered == before.delivered && s.past.flagsReported == before.flagsReported
    requires ticks && s.past.flagLost ==> before.flagLost
    requires time == Add64(s.con.pending.value.hdr.timestamp, Quot(s.con.offset, s.channels))
    requires flags == if ticks && s.con.discontinuity then Flags(true, s.con.backwards) else Flags(false, false)
    ensures CallOk(Call(0, false, time, flags), before, TakeFlags(s, ticks).past, ticks, s.channels)
  {
    if s.con.offset > 0 {
      PendingFollows(s);
    } else {
      assert Quot(s.con.offset, s.channels) == 0;
    }
  }

  /** A copy that starts where the last one ended, without a gap for a tick call, extends the segment. */
  lemma CopyExtends(s: Rx, before: Past, call: Call, ticks: bool, n: nat)
    requires DeliveryOk(s.xport.memory, s.con, s.counted, s.past) && ExpectationOk(s.channels, s.con, s.past)
    requires CanCopy(s, n) && 0 < n
    requires CallOk(call, before, s.past, ticks, s.channels) && !call.first
    requires call.copied == 0 ==> call.time == Add64(s.con.pending.value.hdr.timestamp, Quot(s.con.offset, s.channels))
    requires ticks && call.copied > 0 && s.con.offset == 0 ==> !s.con.Gap()
    ensures CallOk(call.(copied := call.copied + n), before, Copy(s, n).past, ticks, s.channels)
  {
    ChunkCopied(s, n);
    PendingContinuesCall(s, before, call, ticks);
    CallExtends(call, before, s.past, Copy(s, n).past, ticks, s.channels, Chunk(s, n));
  }

  /** Where a tick call has something already, the next item continues it. */
  lemma PendingContinuesCall(s: Rx, before: Past, call: Call, ticks: bool)
    requires DeliveryOk(s.xport.memory, s.con, s.counted, s.past) && ExpectationOk(s.channels, s.con, s.past)
    requires s.con.pending.Some? && CallOk(call, before, s.past, ticks, s.channels)
    requires ticks && call.copied > 0 && s.con.offset == 0 ==> !s.con.Gap()
    ensures ticks && call.copied > 0 ==>
              && s.past.delivered != []
              && Add64(s.con.pending.value.hdr.timestamp, Quot(s.con.offset, s.channels))
                 == NextTick(s.past.delivered[|s.past.delivered| - 1], s.channels)
  {
    if ticks && call.copied > 0 {
      PendingContinues(s);
    }
  }

  /** The items that the next copy of n takes from the pending packet's frame. */
  function Chunk(s: Rx, n: nat): (chunk: seq<Item>)
    requires CanCopy(s, n)
    ensures |chunk| == n
  {
    Items(Packet(s.con.pending.value.hdr, s.xport.memory[s.con.pending.value.frame].samples))[s.con.offset..s.con.offset + n]
  }

  lemma ChunkCopied(s: Rx, n: nat)
    requires CanCopy(s, n) && 0 < n
    ensures Copy(s, n).past.delivered == s.past.delivered + Chunk(s, n) && Contiguous(Chunk(s, n), s.channels)
    ensures TickOf(Chunk(s, n)[0], s.channels) == Add64(s.con.pending.value.hdr.timestamp, Quot(s.con.offset, s.channels))
  {
    PacketContiguous(Packet(s.con.pending.value.hdr, s.xport.memory[s.con.pending.value.frame].samples),
                     s.con.offset, s.con.offset + n, s.channels);
  }

  lemma PendingContinues(s: Rx)
    requires DeliveryOk(s.xport.memory, s.con, s.counted, s.past) && ExpectationOk(s.channels, s.con, s.past)
    requires s.con.pending.Some? && s.past.delivered != [] && (s.con.offset > 0 || !s.con.Gap())
    ensures Add64(s.con.pending.value.hdr.timestamp, Quot(s.con.offset, s.channels))
            == NextTick(s.past.delivered[|s.past.delivered| - 1], s.channels)
  {
    if s.con.offset > 0 {
      PendingFollows(s);
    } else {
      assert Quot(s.con.offset, s.channels) == 0;
    }
  }

  lemma CallExtends(call: Call, before: Past, mid: Past, now: Past, ticks: bool, channels: nat, chunk: seq<Item>)
    requires channels > 0 && CallOk(call, before, mid, ticks, channels) && !call.first
    requires now.delivered == mid.delivered + chunk && now.flagsReported == mid.flagsReported
    requires chunk != [] && Contiguous(chunk, channels)
    requires call.copied == 0 ==> call.time == TickOf(chunk[0], channels)
    requires ticks && call.copied > 0 ==>
      TickOf(chunk[0], channels) == NextTick(mid.delivered[|mid.delivered| - 1], channels)
    ensures CallOk(call.(copied := call.copied + |chunk|), before, now, ticks, channels)
  {
    var items := mid.delivered[|before.delivered|..];
    assert now.delivered[|before.delivered|..] == items + chunk;
    if ticks {
      ContiguousJoin(items, chunk, channels);
    }
  }
}
