/** The UHD streamer on top: cached start-of-burst, running timestamp, one burst a call on request. */
module UhdTx {
  import opened Options
  import opened Simd
  import opened UdpTx

  /** uhd::tx_metadata_t, its time already in ticks. */
  datatype TxMetadata = TxMetadata(time: Option<nat>, startOfBurst: bool, endOfBurst: bool)

  /** What a send works with: a cached zero-length start of burst joins the next call that has samples. */
  function Effective(cached: Option<TxMetadata>, m: TxMetadata, n: nat, burstPerSend: bool): TxMetadata {
    var joined := if cached.Some? && n != 0
                  then TxMetadata(if m.time.None? then cached.value.time else m.time, cached.value.startOfBurst,
                                  m.endOfBurst || cached.value.endOfBurst)
                  else m;
    if burstPerSend && n != 0 && joined.time.Some? then joined.(startOfBurst := true, endOfBurst := true) else joined
  }

  /** The tick a call starts at. */
  function StartTick(e: TxMetadata, hasTime: bool, timestamp: nat, device: Option<nat>): nat {
    if e.time.Some? then e.time.value
    else if !hasTime && device.Some? then device.value
    else timestamp
  }

  /**
   * What is in effect, field by field: a call without a time takes that of the cached start it is joined to; a start of burst is
   * the cached one's for a joined call; an end may come from either; and with one burst a send a timed call has both.
   */
  ghost predicate InEffect(e: TxMetadata, cached: Option<TxMetadata>, m: TxMetadata, n: nat, burstPerSend: bool) {
    var joins := cached.Some? && n != 0;
    && (m.time.Some? ==> e.time == m.time)
    && (m.time.None? ==> e.time == if joins then cached.value.time else None)
    && (e.startOfBurst <==> (burstPerSend && n != 0 && e.time.Some?) || if joins then cached.value.startOfBurst else m.startOfBurst)
    && (e.endOfBurst <==> (burstPerSend && n != 0 && e.time.Some?) || m.endOfBurst || (joins && cached.value.endOfBurst))
  }

  lemma EffectiveIs(cached: Option<TxMetadata>, m: TxMetadata, n: nat, burstPerSend: bool)
    ensures InEffect(Effective(cached, m, n, burstPerSend), cached, m, n, burstPerSend)
  {
  }

  function PacketMeta(e: TxMetadata): Metadata {
    Metadata(true, e.time.Some?, e.startOfBurst, e.endOfBurst)
  }

  /** What the streamer remembers between calls. */
  datatype Clock = Clock(timestamp: nat, hasTime: bool, cached: Option<TxMetadata>)

  /** A send call, and how many samples the transport took of it. */
  datatype SendCall = SendCall(n: nat, m: TxMetadata, supported: bool, device: Option<nat>, total: nat) {
    /** An empty start of burst is kept for the next call with samples. */
    predicate Caches() {
      n == 0 && m.startOfBurst
    }
  }

  function EffectiveOf(u: Clock, c: SendCall, burstPerSend: bool): TxMetadata {
    Effective(u.cached, c.m, c.n, burstPerSend)
  }

  function TickOf(u: Clock, c: SendCall, burstPerSend: bool): nat {
    StartTick(EffectiveOf(u, c, burstPerSend), u.hasTime, u.timestamp, c.device)
  }

  function Next(u: Clock, c: SendCall, burstPerSend: bool): Clock {
    if c.Caches() then u.(cached := Some(c.m))
    else Clock(if c.supported then Tick(TickOf(u, c, burstPerSend) + c.total) else u.timestamp,
               u.hasTime || EffectiveOf(u, c, burstPerSend).time.Some? || c.device.Some?,
               if c.n != 0 then None else u.cached)
  }

  /** A run of sends from a new streamer on. */
  ghost predicate Run(us: seq<Clock>, cs: seq<SendCall>, burstPerSend: bool) {
    && |us| == |cs| + 1 && us[0] == Clock(0, false, None)
    && forall k {:trigger Next(us[k], cs[k], burstPerSend)} :: 0 <= k < |cs| ==> us[k + 1] == Next(us[k], cs[k], burstPerSend)
  }

  /** Where the ticks of the calls before call k ended: those of the last one that was handed to the transport. */
  function EndTick(us: seq<Clock>, cs: seq<SendCall>, burstPerSend: bool, k: nat): nat
    requires k <= |cs| && k <= |us|
  {
    if k == 0 then 0
    else if cs[k - 1].Caches() || !cs[k - 1].supported then EndTick(us, cs, burstPerSend, k - 1)
    else Tick(TickOf(us[k - 1], cs[k - 1], burstPerSend) + cs[k - 1].total)
  }

  /** The call is given a time, itself or by the start of burst it is joined to, or can ask a device clock. */
  predicate GivesTime(u: Clock, c: SendCall, burstPerSend: bool) {
    !c.Caches() && (EffectiveOf(u, c, burstPerSend).time.Some? || c.device.Some?)
  }

  /** Some call before call k was, or could. */
  ghost predicate TimeKnown(us: seq<Clock>, cs: seq<SendCall>, burstPerSend: bool, k: nat)
    requires k <= |cs| && k <= |us|
  {
    exists j :: 0 <= j < k && GivesTime(us[j], cs[j], burstPerSend)
  }

  lemma {:induction false} ClockAt(us: seq<Clock>, cs: seq<SendCall>, burstPerSend: bool, k: nat)
    requires Run(us, cs, burstPerSend) && k <= |cs|
    ensures us[k].timestamp == EndTick(us, cs, burstPerSend, k)
    ensures us[k].hasTime <==> TimeKnown(us, cs, burstPerSend, k)
  {
    if k > 0 {
      ClockAt(us, cs, burstPerSend, k - 1);
      assert us[k - 1 + 1] == Next(us[k - 1], cs[k - 1], burstPerSend);
      assert us[k].hasTime <==> us[k - 1].hasTime || GivesTime(us[k - 1], cs[k - 1], burstPerSend);
    }
  }

  lemma UntimedTick(us: seq<Clock>, cs: seq<SendCall>, burstPerSend: bool, k: nat)
    requires Run(us, cs, burstPerSend) && k < |cs| && Untimed(us, cs, burstPerSend, k)
    ensures TickOf(us[k], cs[k], burstPerSend) == us[k].timestamp
  {
    hide EndTick, TimeKnown;
    ClockAt(us, cs, burstPerSend, k);
  }

  /** The call has no time of its own and need not ask a clock. */
  ghost predicate Untimed(us: seq<Clock>, cs: seq<SendCall>, burstPerSend: bool, k: nat)
    requires k < |cs| && k < |us|
  {
    EffectiveOf(us[k], cs[k], burstPerSend).time.None? && (TimeKnown(us, cs, burstPerSend, k) || cs[k].device.None?)
  }

  /** The time a call is given, or asks for. */
  function Given(u: Clock, c: SendCall, burstPerSend: bool): Option<nat> {
    if EffectiveOf(u, c, burstPerSend).time.Some? then EffectiveOf(u, c, burstPerSend).time else c.device
  }

  /**
   * In every run, a call starts where the ticks before it ended if and only if it has no time and need not ask a clock, or the
   * time it has or asks for happens to be that tick; any other call starts at its own time.
   */
  lemma StartsWherePreviousEnded(us: seq<Clock>, cs: seq<SendCall>, burstPerSend: bool, k: nat)
    requires Run(us, cs, burstPerSend) && k < |cs|
    ensures var start, end := TickOf(us[k], cs[k], burstPerSend), EndTick(us, cs, burstPerSend, k);
            && (start == end <==> Untimed(us, cs, burstPerSend, k) || Given(us[k], cs[k], burstPerSend) == Some(end))
            && (!Untimed(us, cs, burstPerSend, k) ==> Given(us[k], cs[k], burstPerSend) == Some(start))
  {
    hide EndTick, TimeKnown;
    ClockAt(us, cs, burstPerSend, k);
  }

  /** The samples that the transport took from calls i to j. */
  function Transported(cs: seq<SendCall>, i: nat, j: nat): nat
    requires i <= j <= |cs|
    decreases j
  {
    if i == j then 0 else Transported(cs, i, j - 1) + (if cs[j - 1].Caches() || !cs[j - 1].supported then 0 else cs[j - 1].total)
  }

  /** Over any run of untimed calls the ticks go on by all samples transported, a zero-length end of burst included. */
  lemma {:induction false} TicksRunOn(us: seq<Clock>, cs: seq<SendCall>, burstPerSend: bool, i: nat, j: nat)
    requires Run(us, cs, burstPerSend) && i <= j <= |cs|
    requires forall k :: i <= k < j ==> cs[k].Caches() || Untimed(us, cs, burstPerSend, k)
    ensures Tick(us[j].timestamp) == Tick(us[i].timestamp + Transported(cs, i, j))
    decreases j
  {
    if i < j {
      hide Untimed, Tick, EffectiveOf, TickOf;
      var c := cs[j - 1];
      TicksRunOn(us, cs, burstPerSend, i, j - 1);
      assert us[j - 1 + 1] == Next(us[j - 1], c, burstPerSend);
      if !c.Caches() && c.supported {
        UntimedTick(us, cs, burstPerSend, j - 1);
        TickStep(us[j - 1].timestamp, us[i].timestamp + Transported(cs, i, j - 1), c.total);
      }
    }
  }

  lemma TickStep(a: nat, b: nat, n: nat)
    requires Tick(a) == Tick(b)
    ensures Tick(Tick(a + n)) == Tick(b + n)
  {
    TickSum(a, n);
    TickSum(b, n);
  }

  /** A call that starts at a tick has packets at the ticks from there on. */
  lemma PacketsContinue(before: nat, call: Call, counts: seq<nat>, j: nat, stamp: nat)
    requires call.time0 == Tick(before) && Sum(counts) <= |call.input| && j < |counts|
    requires stamp == Packets(call, counts)[j].timestamp
    ensures stamp == Tick(before + Sum(counts[..j]))
  {
    PacketTimes(call, counts, j);
    ShiftedTime(before, Sum(counts[..j]), call.time0, stamp);
  }

  lemma ShiftedTime(a: nat, b: nat, time0: nat, stamp: nat)
    requires time0 == Tick(a) && stamp == Tick(time0 + b)
    ensures stamp == Tick(a + b)
  {
    TickSum(a, b);
  }

  /** With one burst a send, a completed timed send starts a burst on its first packet and ends it on its last, nowhere else. */
  lemma TimedSendIsOneBurst(cached: Option<TxMetadata>, m: TxMetadata, call: Call, counts: seq<nat>, j: nat)
    requires call.meta == PacketMeta(Effective(cached, m, |call.input|, true)) && m.time.Some?
    requires Sum(counts) == |call.input| && AllPositive(counts) && j < |counts|
    ensures ReadField(Packets(call, counts)[j].seqFlags) == Fields((call.count0 + j) % 0x1000, true, true, j == 0, j == |counts| - 1)
  {
    SumsGrow(counts, j);
    PacketFrames(call, counts, j, j == |counts| - 1);
  }

  /** A start of burst cached from an empty send is on the first packet of the next send that has samples, and only there. */
  lemma CachedStartJoins(c: TxMetadata, m: TxMetadata, call: Call, counts: seq<nat>, j: nat)
    requires c.startOfBurst && call.meta == PacketMeta(Effective(Some(c), m, |call.input|, false))
    requires Sum(counts) <= |call.input| && AllPositive(counts) && j < |counts|
    ensures ReadField(Packets(call, counts)[j].seqFlags).startOfBurst <==> j == 0
  {
    SumsGrow(counts, j);
    PacketFrames(call, counts, j, j == |counts| - 1 && Sum(counts) == |call.input|);
  }

  class TxStreamer {
    const tx: SendPacketStreamer
    const burstPerSend: bool
    var timestamp: nat
    var hasTime: bool
    var cached: Option<TxMetadata>

    function View(): Clock
      reads this
    {
      Clock(timestamp, hasTime, cached)
    }

    constructor (tx: SendPacketStreamer, burstPerSend: bool)
      ensures this.tx == tx && this.burstPerSend == burstPerSend && View() == Clock(0, false, None)
    {
      this.tx, this.burstPerSend := tx, burstPerSend;
      timestamp, hasTime, cached := 0, false, None;
    }

    /** The part of send that is left to the transport. */
    method Transmit(buffs: seq<Buffer>, n: nat, e: TxMetadata, tick: nat, turns: seq<Turn>)
      returns (total: nat, after: nat, ghost counts: seq<nat>)
      requires (forall b :: b in buffs ==> n <= b.Count()) && RoomForOne(turns) && tx.lastSeqOut < 0x1_0000_0000
      modifies tx
      ensures Handed(buffs, n, e, tick, turns, old(tx.wire), old(tx.lastSeqOut), total, counts)
      ensures after == Tick(tick + total) == (tick + total) % 0x1_0000_0000_0000_0000
    {
      hide Outcome, Flat, AllSpelled, Sent;
      total, after, counts := tx.SendImpl(buffs, n, tick, PacketMeta(e), true, turns);
      TickIsModulo(tick + total);
    }

    /** What one call of the transport has put on the wire. */
    ghost predicate Handed(buffs: seq<Buffer>, n: nat, e: TxMetadata, start: nat, turns: seq<Turn>, wire: seq<Packet>, count0: nat,
                           total: nat, counts: seq<nat>)
      requires forall b :: b in buffs ==> n <= b.Count()
      reads tx
    {
      && wire <= tx.wire && total == Sum(counts) && counts == Outcome(turns, |buffs|, n, true).counts
      && AllSpelled(tx.wire[|wire|..], buffs, n, Metadata(true, e.time.Some?, e.startOfBurst, e.endOfBurst), count0, start, counts)
      && tx.lastSeqOut == (count0 + |counts|) % 0x1_0000_0000
      && Sent(Call(Flat(buffs, n, |buffs|), PacketMeta(e), count0, start), wire, counts, total, tx.wire, tx.lastSeqOut)
    }

    /** send. zeroBuffs is the one-sample padding that carries a zero-length end of burst; start is the tick the call starts at. */
    method Send(buffs: seq<Buffer>, zeroBuffs: seq<Buffer>, n: nat, m: TxMetadata, supported: bool, device: Option<nat>, turns: seq<Turn>)
      returns (r: nat, ghost e: TxMetadata, ghost start: nat, ghost total: nat, ghost counts: seq<nat>)
      requires (forall b :: b in buffs ==> n <= b.Count()) && (forall b :: b in zeroBuffs ==> 1 <= b.Count())
      requires RoomForOne(turns) && tx.lastSeqOut < 0x1_0000_0000
      modifies this, tx
      ensures View() == Next(old(View()), SendCall(n, m, supported, device, total), burstPerSend)
      ensures n == 0 && m.startOfBurst ==> View() == old(View()).(cached := Some(m))
      ensures (n == 0 && m.startOfBurst) || !supported ==> r == 0 == total && tx.wire == old(tx.wire) && tx.lastSeqOut == old(tx.lastSeqOut)
      ensures !(n == 0 && m.startOfBurst) ==>
                && InEffect(e, old(cached), m, n, burstPerSend)
                && cached == (if n == 0 then old(cached) else None)
                && hasTime == (old(hasTime) || e.time.Some? || device.Some?)
                && start == (if e.time.Some? then e.time.value else if device.Some? && !old(hasTime) then device.value else old(timestamp))
                && timestamp == if supported then (start + total) % 0x1_0000_0000_0000_0000 else old(timestamp)
      ensures !(n == 0 && m.startOfBurst) && supported ==>
                if n == 0 && e.endOfBurst
                then r == 0 && Handed(zeroBuffs, 1, e, start, turns, old(tx.wire), old(tx.lastSeqOut), total, counts)
                else r == total && Handed(buffs, n, e, start, turns, old(tx.wire), old(tx.lastSeqOut), total, counts)
    {
      hide Handed, Tick;
      e, start, total, counts := m, 0, 0, [];
      if n == 0 && m.startOfBurst {
        cached := Some(m);
        return 0, e, start, total, counts;
      }
      var effective := Effective(cached, m, n, burstPerSend);
      EffectiveIs(cached, m, n, burstPerSend);
      if n != 0 {
        cached := None;
      }
      e := effective;
      var zeroLengthEob := n == 0 && effective.endOfBurst;
      var tick := StartTick(effective, hasTime, timestamp, device);
      start := tick;
      hasTime := hasTime || effective.time.Some? || device.Some?;
      if !supported {
        return 0, e, start, total, counts;
      }
      var sent, after;
      if zeroLengthEob {
        sent, after, counts := Transmit(zeroBuffs, 1, effective, tick, turns);
      } else {
        sent, after, counts := Transmit(buffs, n, effective, tick, turns);
      }
      total := sent;
      timestamp := after;
      r := if zeroLengthEob then 0 else sent;
    }
  }
}
