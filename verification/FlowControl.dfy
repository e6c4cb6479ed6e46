/** The transmit flow-control gate, and the pause time its monitor reports. */
module FlowControl {
  import UdpTx

  const PAUSE_WORD: nat := 0x5555
  const READY_WORD: nat := 0xAAAA

  /**
   * The gate and the monitor's numbers. Clock readings are nanoseconds; 0 stands for no time point, which a running
   * clock never shows.
   */
  datatype Gate = Gate(ready: bool, monitoring: bool, lastWord: nat, pauses: nat, pauseTotalUs: nat, pauseStart: nat, monitorStart: nat)

  const OPEN: Gate := Gate(true, false, 0, 0, 0, 0, 0)

  /** duration_cast to microseconds: the rest of a microsecond is cut off. */
  function Micros(ns: nat): nat {
    ns / 1000
  }

  function Since(now: nat, start: nat): nat {
    if now >= start then now - start else 0
  }

  /** begin_tx_flow_control_monitoring. */
  function Begun(g: Gate, now: nat): Gate {
    Gate(g.ready, true, 0, 0, 0, if g.ready then 0 else now, now)
  }

  /** end_tx_flow_control_monitoring. */
  function Ended(g: Gate): Gate {
    Gate(g.ready, false, 0, 0, 0, 0, 0)
  }

  /** update_flow_control_state. */
  function Updated(g: Gate, ready: bool, word: nat, now: nat): Gate {
    var noted := if g.monitoring then g.(lastWord := word) else g;
    if g.ready == ready then noted
    else if g.monitoring && !ready then noted.(ready := false, pauses := g.pauses + 1, pauseStart := now)
    else if g.monitoring && g.pauseStart != 0 then
      noted.(ready := true, pauseTotalUs := g.pauseTotalUs + Micros(Since(now, g.pauseStart)), pauseStart := 0)
    else noted.(ready := ready)
  }

  /** What get_tx_flow_control_stats reports for the time being monitored and for the pauses in it. */
  function ElapsedUs(g: Gate, now: nat): nat {
    if g.monitoring && g.monitorStart != 0 then Micros(Since(now, g.monitorStart)) else 0
  }

  function PausedUs(g: Gate, now: nat): nat {
    g.pauseTotalUs + (if g.monitoring && !g.ready && g.pauseStart != 0 then Micros(Since(now, g.pauseStart)) else 0)
  }

  datatype Event =
    | Begin
    | End
    | Word(ready: bool, word: nat)   // a flow-control word arrives
    | Check                          // wait_until_send_ready looks at the gate
    | NoBuffer                       // the transport has no buffer in time
    | Send                           // a data packet leaves

  /** An event and the clock when it happens. */
  datatype Timed = Timed(event: Event, now: nat)

  function Step(g: Gate, t: Timed): Gate {
    match t.event
    case Begin => Begun(g, t.now)
    case End => Ended(g)
    case Word(ready, word) => Updated(g, ready, word, t.now)
    case _ => g
  }

  /** What really happened since monitoring began: pause time in finished pauses, how many, and since when the gate is closed. */
  datatype Truth = Truth(closedNs: nat, closings: nat, since: nat)

  function TruthStep(g: Gate, u: Truth, t: Timed): Truth {
    match t.event
    case Begin => Truth(0, 0, t.now)
    case Word(ready, _) =>
      if g.ready == ready then u
      else if ready then Truth(u.closedNs + Since(t.now, u.since), u.closings + 1, t.now)
      else u.(since := t.now)
    case _ => u
  }

  /** The pause time up to now. */
  function TruePauseNs(g: Gate, u: Truth, now: nat): nat {
    u.closedNs + (if g.ready then 0 else Since(now, u.since))
  }

  /** The monitor's numbers against the truth. */
  ghost predicate Agrees(g: Gate, u: Truth, now: nat) {
    if g.monitoring then
      && 0 < g.monitorStart
      && (if g.ready then g.pauseStart == 0 && g.monitorStart + u.closedNs <= now
          else 0 < g.pauseStart == u.since <= now && g.monitorStart + u.closedNs <= u.since)
      && 1000 * g.pauseTotalUs <= u.closedNs <= 1000 * g.pauseTotalUs + 999 * u.closings
    else g.pauseStart == 0 && g.monitorStart == 0 && g.pauseTotalUs == 0
  }

  lemma MicrosBound(ns: nat)
    ensures 1000 * Micros(ns) <= ns <= 1000 * Micros(ns) + 999
  {
  }

  lemma StepAgrees(g: Gate, u: Truth, before: nat, t: Timed)
    requires Agrees(g, u, before) && 0 < t.now && before <= t.now
    ensures Agrees(Step(g, t), TruthStep(g, u, t), t.now)
  {
    MicrosBound(Since(t.now, g.pauseStart));
  }

  /** Truncation apart, the reported pause time is the true one; it never exceeds the reported elapsed time. */
  lemma ReportIsSound(g: Gate, u: Truth, before: nat, now: nat)
    requires Agrees(g, u, before) && before <= now && g.monitoring
    ensures PausedUs(g, now) <= ElapsedUs(g, now)
    ensures 1000 * PausedUs(g, now) <= TruePauseNs(g, u, now) <= 1000 * PausedUs(g, now) + 999 * (u.closings + if g.ready then 0 else 1)
  {
    MicrosBound(Since(now, g.pauseStart));
    MicrosBound(Since(now, g.monitorStart));
  }

  /** A run from the open gate: the clock runs and never goes back. */
  ghost predicate Clocked(ts: seq<Timed>) {
    forall i {:trigger ts[i]} :: 0 <= i < |ts| ==> 0 < ts[i].now && (i > 0 ==> ts[i - 1].now <= ts[i].now)
  }

  function Run(ts: seq<Timed>): Gate {
    if ts == [] then OPEN else Step(Run(ts[..|ts| - 1]), ts[|ts| - 1])
  }

  function RunTruth(ts: seq<Timed>): Truth {
    if ts == [] then Truth(0, 0, 0) else TruthStep(Run(ts[..|ts| - 1]), RunTruth(ts[..|ts| - 1]), ts[|ts| - 1])
  }

  function LastTime(ts: seq<Timed>): nat {
    if ts == [] then 0 else ts[|ts| - 1].now
  }

  lemma {:induction false} RunAgrees(ts: seq<Timed>)
    requires Clocked(ts)
    ensures Agrees(Run(ts), RunTruth(ts), LastTime(ts))
  {
    if ts != [] {
      var front := ts[..|ts| - 1];
      RunAgrees(front);
      assert front != [] ==> LastTime(front) == ts[|ts| - 2].now;
      StepAgrees(Run(front), RunTruth(front), LastTime(front), ts[|ts| - 1]);
    }
  }

  /** In every reachable monitored state the pause time reported, open pause included, is within the elapsed time reported. */
  lemma PauseWithinElapsed(ts: seq<Timed>, now: nat)
    requires Clocked(ts) && LastTime(ts) <= now && Run(ts).monitoring
    ensures PausedUs(Run(ts), now) <= ElapsedUs(Run(ts), now)
    ensures var truth := TruePauseNs(Run(ts), RunTruth(ts), now);
            1000 * PausedUs(Run(ts), now) <= truth <= 1000 * PausedUs(Run(ts), now) + 999 * (RunTruth(ts).closings + if Run(ts).ready then 0 else 1)
  {
    RunAgrees(ts);
    ReportIsSound(Run(ts), RunTruth(ts), LastTime(ts), now);
  }

  /** At time x the last flow-control word that had come said pause. */
  predicate ClosedAt(ts: seq<Timed>, x: nat) {
    if ts == [] then false
    else
      var last := ts[|ts| - 1];
      if last.now <= x && last.event.Word? then !last.event.ready else ClosedAt(ts[..|ts| - 1], x)
  }

  /** The nanoseconds from a on, before b, at which it had. */
  function ClosedTime(ts: seq<Timed>, a: nat, b: nat): nat
    requires a <= b
    decreases b
  {
    if a == b then 0 else ClosedTime(ts, a, b - 1) + if ClosedAt(ts, b - 1) then 1 else 0
  }

  lemma {:induction false} ClosedNow(ts: seq<Timed>, x: nat)
    requires Clocked(ts) && LastTime(ts) <= x
    ensures ClosedAt(ts, x) == !Run(ts).ready
    decreases |ts|
  {
    if ts != [] {
      ClockedFront(ts);
      ClosedNow(ts[..|ts| - 1], x);
    }
  }

  lemma ClockedFront(ts: seq<Timed>)
    requires ts != [] && Clocked(ts)
    ensures Clocked(ts[..|ts| - 1]) && LastTime(ts[..|ts| - 1]) <= LastTime(ts)
  {
    assert forall i {:trigger ts[..|ts| - 1][i]} :: 0 <= i < |ts| - 1 ==> ts[..|ts| - 1][i] == ts[i];
    if |ts| > 1 {
      assert ts[|ts| - 1].now >= ts[|ts| - 2].now;
    }
  }

  /** Before the last event it does not matter. */
  lemma {:induction false} ClosedEarlier(ts: seq<Timed>, a: nat, b: nat)
    requires ts != [] && a <= b <= ts[|ts| - 1].now
    ensures ClosedTime(ts, a, b) == ClosedTime(ts[..|ts| - 1], a, b)
    decreases b
  {
    if a < b {
      ClosedEarlier(ts, a, b - 1);
    }
  }

  /** From the last event on the gate is as it is now. */
  lemma {:induction false} ClosedSince(ts: seq<Timed>, a: nat, t: nat, b: nat)
    requires Clocked(ts) && a <= t <= b && LastTime(ts) <= t
    ensures ClosedTime(ts, a, b) == ClosedTime(ts, a, t) + if Run(ts).ready then 0 else b - t
    decreases b
  {
    if t < b {
      ClosedSince(ts, a, t, b - 1);
      ClosedNow(ts, b - 1);
    }
  }

  /** The pause time of the history is the time for which the gate was closed since monitoring began with event b. */
  lemma {:induction false} TruthIsClosedTime(ts: seq<Timed>, b: nat, now: nat)
    requires Clocked(ts) && LastTime(ts) <= now
    requires b < |ts| && ts[b].event.Begin? && forall i :: b < i < |ts| ==> !ts[i].event.Begin? && !ts[i].event.End?
    ensures ts[b].now <= now && TruePauseNs(Run(ts), RunTruth(ts), now) == ClosedTime(ts, ts[b].now, now)
    ensures RunTruth(ts).closings + (if Run(ts).ready then 0 else 1) <= Run(ts).pauses + 1
    decreases |ts|
  {
    hide Updated;
    var front, t := ts[..|ts| - 1], ts[|ts| - 1].now;
    ClockedFront(ts);
    if b == |ts| - 1 {
      ClosedSince(ts, t, t, now);
    } else {
      assert front[b] == ts[b];
      TruthIsClosedTime(front, b, t);
      MonitorsSince(front, b);
      RunAgrees(front);
      ClosedSince(ts, ts[b].now, t, now);
      ClosedEarlier(ts, ts[b].now, t);
      TruthMore(Run(front), RunTruth(front), LastTime(front), ts[|ts| - 1], now);
    }
  }

  lemma TruthMore(g: Gate, u: Truth, before: nat, e: Timed, now: nat)
    requires Agrees(g, u, before) && before <= e.now <= now && g.monitoring && !e.event.Begin? && !e.event.End?
    ensures TruePauseNs(Step(g, e), TruthStep(g, u, e), now) == TruePauseNs(g, u, e.now) + if Step(g, e).ready then 0 else now - e.now
    ensures TruthStep(g, u, e).closings + (if Step(g, e).ready then 0 else 1) - Step(g, e).pauses
            == u.closings + (if g.ready then 0 else 1) - g.pauses
  {
  }

  /**
   * The two times reported, against the words that came and nothing else: since monitoring began with event b, the gate was closed
   * for the pause time reported, and less than a microsecond more for each pause counted and one that was on at the start.
   */
  lemma ReportIsClosedTime(ts: seq<Timed>, b: nat, now: nat)
    requires Clocked(ts) && LastTime(ts) <= now
    requires b < |ts| && ts[b].event.Begin? && forall i :: b < i < |ts| ==> !ts[i].event.Begin? && !ts[i].event.End?
    ensures ts[b].now <= now && PausedUs(Run(ts), now) <= (now - ts[b].now) / 1000
    ensures var closed, paused := ClosedTime(ts, ts[b].now, now), PausedUs(Run(ts), now);
            1000 * paused <= closed <= 1000 * paused + 999 * (|Closings(ts, b)| + 1)
  {
    TruthIsClosedTime(ts, b, now);
    MonitorsSince(ts, b);
    RunAgrees(ts);
    ReportIsSound(Run(ts), RunTruth(ts), LastTime(ts), now);
  }

  /** The gate is what the last flow-control word says; until the first one it is open. */
  lemma {:induction false} GateIsLastWord(ts: seq<Timed>, k: nat)
    requires k <= |ts| && forall i :: k <= i < |ts| ==> !ts[i].event.Word?
    ensures k == 0 ==> Run(ts).ready
    ensures k > 0 && ts[k - 1].event.Word? ==> Run(ts).ready == ts[k - 1].event.ready
    decreases |ts|
  {
    if ts != [] && k < |ts| {
      GateIsLastWord(ts[..|ts| - 1], k);
    }
  }

  /** Event i closes an open gate. */
  predicate Closes(ts: seq<Timed>, i: nat)
    requires i < |ts|
  {
    ts[i].event.Word? && !ts[i].event.ready && Run(ts[..i]).ready
  }

  ghost function Closings(ts: seq<Timed>, b: nat): set<nat> {
    set i: nat | b < i < |ts| && Closes(ts, i)
  }

  lemma ClosingsMore(ts: seq<Timed>, b: nat)
    requires b < |ts| - 1
    ensures var n := |ts| - 1; |Closings(ts, b)| == |Closings(ts[..n], b)| + if Closes(ts, n) then 1 else 0
  {
    var n := |ts| - 1;
    forall i: nat | i < n ensures Closes(ts[..n], i) == Closes(ts, i) {
      assert ts[..n][..i] == ts[..i];
    }
    assert Closings(ts, b) == Closings(ts[..n], b) + if Closes(ts, n) then {n} else {};
  }

  lemma NoClosings(ts: seq<Timed>, b: nat)
    requires |ts| == b + 1
    ensures |Closings(ts, b)| == 0
  {
    assert Closings(ts, b) == {};
  }

  /** While monitoring since event b: the start it notes, and the number of times the gate has closed since. */
  lemma {:induction false} MonitorsSince(ts: seq<Timed>, b: nat)
    requires b < |ts| && ts[b].event.Begin? && forall i :: b < i < |ts| ==> !ts[i].event.Begin? && !ts[i].event.End?
    ensures var g := Run(ts); g.monitoring && g.monitorStart == ts[b].now && g.pauses == |Closings(ts, b)|
    decreases |ts|
  {
    hide Closings;
    if b == |ts| - 1 {
      NoClosings(ts, b);
    } else {
      MonitorsSince(ts[..|ts| - 1], b);
      ClosingsMore(ts, b);
    }
  }

  /** The time reported is that since monitoring began, in whole microseconds. */
  lemma ElapsedIsSince(ts: seq<Timed>, b: nat, now: nat)
    requires b < |ts| && ts[b].event.Begin? && (forall i :: b < i < |ts| ==> !ts[i].event.Begin? && !ts[i].event.End?)
    requires 0 < ts[b].now <= now
    ensures ElapsedUs(Run(ts), now) == (now - ts[b].now) / 1000
  {
    MonitorsSince(ts, b);
  }

  /** The word reported is the last one since then, or 0. */
  lemma {:induction false} LastWordIs(ts: seq<Timed>, b: nat, k: nat)
    requires b < k <= |ts| && ts[b].event.Begin? && (forall i :: b < i < |ts| ==> !ts[i].event.Begin? && !ts[i].event.End?)
    requires forall i :: k <= i < |ts| ==> !ts[i].event.Word?
    ensures k == b + 1 ==> Run(ts).lastWord == 0
    ensures k > b + 1 && ts[k - 1].event.Word? ==> Run(ts).lastWord == ts[k - 1].event.word
    decreases |ts|
  {
    var front := ts[..|ts| - 1];
    if k < |ts| {
      LastWordIs(front, b, k);
    } else if k > b + 1 {
      MonitorsSince(front, b);
    }
  }

  /** Before the first begin, and after an end, nothing is monitored and all numbers are 0. */
  lemma {:induction false} NotMonitored(ts: seq<Timed>, e: nat)
    requires e <= |ts| && (e > 0 ==> ts[e - 1].event.End?) && forall i :: e <= i < |ts| ==> !ts[i].event.Begin?
    ensures var g := Run(ts); !g.monitoring && g.pauses == g.pauseTotalUs == g.lastWord == g.pauseStart == g.monitorStart == 0
    decreases |ts|
  {
    if e < |ts| {
      NotMonitored(ts[..|ts| - 1], e);
    }
  }

  /** A single sender: it sends only after a check that found the gate open, and checks again for every packet. */
  function Cleared(ts: seq<Timed>): bool {
    if ts == [] then false
    else
      var front, e := ts[..|ts| - 1], ts[|ts| - 1].event;
      if e.Check? then Run(front).ready else if e.Send? then false else Cleared(front)
  }

  ghost predicate OneSender(ts: seq<Timed>) {
    forall i {:trigger ts[i]} :: 0 <= i < |ts| && ts[i].event.Send? ==> Cleared(ts[..i])
  }

  /** Packets among events i .. . */
  function Sends(ts: seq<Timed>, i: nat): nat
    requires i <= |ts|
    decreases |ts|
  {
    if i == |ts| then 0 else Sends(ts[..|ts| - 1], i) + (if ts[|ts| - 1].event.Send? then 1 else 0)
  }

  /**
   * The send loop's own events in ts are those of its turns, in order, with any other events between them: a turn looks at the
   * gate, and a turn that found it open sends or finds no buffer. passed: one more turn is past its look. A turn that is
   * aborted, or whose wait is, leaves no event.
   */
  ghost predicate LoopTrace(ts: seq<Timed>, turns: seq<UdpTx.Turn>, passed: bool)
    decreases |ts| + |turns|
  {
    || (turns != [] && !passed && (turns[|turns| - 1].Abort? || turns[|turns| - 1].NotReady?) && LoopTrace(ts, turns[..|turns| - 1], false))
    || if ts == [] then turns == [] && !passed
       else
         var front := ts[..|ts| - 1];
         match ts[|ts| - 1].event
         case Check =>
           if Run(front).ready then passed && LoopTrace(front, turns, false)
           else !passed && turns != [] && turns[|turns| - 1].NotReady? && LoopTrace(front, turns[..|turns| - 1], false)
         case NoBuffer => !passed && turns != [] && turns[|turns| - 1].NoBuffer? && LoopTrace(front, turns[..|turns| - 1], true)
         case Send => !passed && turns != [] && turns[|turns| - 1].Granted? && LoopTrace(front, turns[..|turns| - 1], true)
         case _ => LoopTrace(front, turns, passed)
  }

  lemma OneSenderMore(ts: seq<Timed>)
    requires ts != [] && OneSender(ts[..|ts| - 1]) && (ts[|ts| - 1].event.Send? ==> Cleared(ts[..|ts| - 1]))
    ensures OneSender(ts)
  {
    var front := ts[..|ts| - 1];
    forall i | 0 <= i < |ts| && ts[i].event.Send? ensures Cleared(ts[..i]) {
      if i < |front| {
        assert front[..i] == ts[..i] && front[i] == ts[i];
      }
    }
  }

  /** The send loop is such a sender, and every granted buffer is one packet. */
  lemma {:induction false} SendLoopIsOneSender(ts: seq<Timed>, turns: seq<UdpTx.Turn>, passed: bool)
    requires LoopTrace(ts, turns, passed)
    ensures OneSender(ts) && (passed ==> Cleared(ts))
    ensures Sends(ts, 0) == UdpTx.Grants(turns, |turns|)
    decreases |ts| + |turns|
  {
    var n := |turns|;
    if n > 0 && !passed && (turns[n - 1].Abort? || turns[n - 1].NotReady?) && LoopTrace(ts, turns[..n - 1], false) {
      SendLoopIsOneSender(ts, turns[..n - 1], false);
      GrantsOfPrefix(turns, n - 1);
    } else if ts != [] {
      var front, e := ts[..|ts| - 1], ts[|ts| - 1].event;
      if e.NoBuffer? || e.Send? || (e.Check? && !Run(front).ready) {
        SendLoopIsOneSender(front, turns[..n - 1], !e.Check?);
        GrantsOfPrefix(turns, n - 1);
      } else {
        SendLoopIsOneSender(front, turns, passed && !e.Check?);
      }
      OneSenderMore(ts);
    }
  }

  lemma {:induction false} GrantsOfPrefix(turns: seq<UdpTx.Turn>, k: nat)
    requires k <= |turns|
    ensures UdpTx.Grants(turns[..k], k) == UdpTx.Grants(turns, k)
  {
    GrantsUpTo(turns, k, k);
  }

  lemma {:induction false} GrantsUpTo(turns: seq<UdpTx.Turn>, k: nat, j: nat)
    requires j <= k <= |turns|
    ensures UdpTx.Grants(turns[..k], j) == UdpTx.Grants(turns, j)
  {
    if j > 0 {
      GrantsUpTo(turns, k, j - 1);
    }
  }

  /** So of the packets of a send loop at most one leaves from the moment the gate closes until it opens. */
  lemma SendLoopHonoursPause(ts: seq<Timed>, turns: seq<UdpTx.Turn>, passed: bool, i: nat)
    requires LoopTrace(ts, turns, passed)
    requires i <= |ts| && forall j :: i <= j <= |ts| ==> !Run(ts[..j]).ready
    ensures Sends(ts, i) <= 1
  {
    SendLoopIsOneSender(ts, turns, passed);
    OnePacketAfterPause(ts, i);
  }

  /** From the moment the gate closes until it opens, at most one packet leaves. */
  lemma {:induction false} OnePacketAfterPause(ts: seq<Timed>, i: nat)
    requires OneSender(ts) && i <= |ts| && (forall j :: i <= j <= |ts| ==> !Run(ts[..j]).ready)
    ensures Sends(ts, i) + (if Cleared(ts) then 1 else 0) <= 1
    decreases |ts|
  {
    if i < |ts| {
      var front := ts[..|ts| - 1];
      forall j | i <= j <= |front| ensures !Run(front[..j]).ready {
        assert front[..j] == ts[..j];
      }
      forall j | 0 <= j < |front| && front[j].event.Send? ensures Cleared(front[..j]) {
        assert front[..j] == ts[..j] && front[j] == ts[j];
      }
      OnePacketAfterPause(front, i);
      assert !Run(ts[..|front|]).ready;
      assert ts[|front|] == ts[|ts| - 1];
    }
  }

  /** _flow_control_mutex's members. */
  class Monitor {
    var readyToSend: bool
    var monitoring: bool
    var lastWord: nat
    var pauseCount: nat
    var pauseTotalUs: nat
    var pauseStart: nat
    var monitorStart: nat

    function View(): Gate
      reads this
    {
      Gate(readyToSend, monitoring, lastWord, pauseCount, pauseTotalUs, pauseStart, monitorStart)
    }

    constructor ()
      ensures View() == OPEN
    {
      readyToSend, monitoring, lastWord, pauseCount, pauseTotalUs, pauseStart, monitorStart := true, false, 0, 0, 0, 0, 0;
    }

    method BeginMonitoring(now: nat)
      modifies this
      ensures View() == Begun(old(View()), now)
    {
      monitoring, lastWord, pauseCount, pauseTotalUs := true, 0, 0, 0;
      monitorStart := now;
      if !readyToSend {
        pauseStart := now;
      } else {
        pauseStart := 0;
      }
    }

    method EndMonitoring()
      modifies this
      ensures View() == Ended(old(View()))
    {
      pauseStart, monitorStart := 0, 0;
      monitoring, lastWord, pauseCount, pauseTotalUs := false, 0, 0, 0;
    }

    method UpdateFlowControlState(ready: bool, word: nat, now: nat)
      modifies this
      ensures View() == Updated(old(View()), ready, word, now)
    {
      if monitoring {
        lastWord := word;
      }
      if readyToSend == ready {
        return;
      }
      if monitoring && !ready {
        pauseCount := pauseCount + 1;
        pauseStart := now;
      } else if monitoring && pauseStart != 0 {
        pauseTotalUs := pauseTotalUs + Micros(Since(now, pauseStart));
        pauseStart := 0;
      }
      readyToSend := ready;
    }

    /** One flow-control packet, as flow_control_receiver takes it: other words leave the gate alone. */
    method Receive(packetLength: nat, word: nat, now: nat)
      modifies this
      ensures View() == if (packetLength == 24 || packetLength == 32) && (word == PAUSE_WORD || word == READY_WORD)
                        then Updated(old(View()), word == READY_WORD, word, now) else old(View())
      ensures readyToSend == if (packetLength == 24 || packetLength == 32) && word == 0xAAAA then true
                             else if (packetLength == 24 || packetLength == 32) && word == 0x5555 then false else old(readyToSend)
    {
      if packetLength != 24 && packetLength != 32 {
        return;
      }
      if word == PAUSE_WORD {
        UpdateFlowControlState(false, word, now);
      } else if word == READY_WORD {
        UpdateFlowControlState(true, word, now);
      }
    }

    /** get_tx_flow_control_stats. */
    method Stats(now: nat) returns (elapsedUs: nat, pausedUs: nat)
      ensures elapsedUs == ElapsedUs(View(), now) && pausedUs == PausedUs(View(), now)
      ensures monitoring && 0 < monitorStart <= now ==> elapsedUs == (now - monitorStart) / 1000
      ensures !monitoring || monitorStart == 0 ==> elapsedUs == 0
      ensures pausedUs == pauseTotalUs + if monitoring && !readyToSend && 0 < pauseStart <= now then (now - pauseStart) / 1000 else 0
    {
      elapsedUs, pausedUs := 0, pauseTotalUs;
      if monitoring {
        if monitorStart != 0 {
          elapsedUs := Micros(Since(now, monitorStart));
        }
        if !readyToSend && pauseStart != 0 {
          pausedUs := pausedUs + Micros(Since(now, pauseStart));
        }
      }
    }
  }
}
