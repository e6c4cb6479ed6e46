/**
 * The M300 send queue: a caller fills DMA frames, a worker thread writes them out. The two share the frames and the queue: a frame
 * is claimed from the moment the caller gets it to the end of its write, and what each buffer held when it was handed over is
 * kept, so that what is written can be compared with it. Between the events of the one thread those of the other happen in any
 * order.
 */
module M300SendWorker {
  import opened M300Protocol
  import opened Options

  /** A managed send buffer on its way out: a frame of the pool and its committed length. */
  datatype Buffer = Buffer(frame: nat, length: nat)

  datatype Worker = NotStarted | Waiting | Holding(buffer: Buffer) | Exited

  /** The frame pool: contents, claims, and the round-robin index. */
  datatype Pool = Pool(memory: seq<seq<byte>>, claimed: set<nat>, next: nat)

  /**
   * filling is the buffer a send call is working on; stopping is true from the moment stop sets the flag until its
   * join returns, all of which happens under the streamer's mutex. sent and written are histories: the bytes of
   * every buffer enqueued, and of every write to the device.
   */
  datatype State = State(pool: Pool, filling: Option<nat>, queue: seq<Buffer>, worker: Worker, stopping: bool, active: bool,
                         sent: seq<seq<byte>>, written: seq<seq<byte>>)

  /** The buffers that are enqueued and not yet written, oldest first. */
  function Pending(s: State): seq<Buffer> {
    (if s.worker.Holding? then [s.worker.buffer] else []) + s.queue
  }

  function Frames(buffers: seq<Buffer>): seq<nat> {
    seq(|buffers|, i requires 0 <= i < |buffers| => buffers[i].frame)
  }

  /** The frames in use: those of the pending buffers and the one being filled. */
  function Held(s: State): seq<nat> {
    Frames(Pending(s)) + (if s.filling.Some? then [s.filling.value] else [])
  }

  /** The bytes a write of the buffer would put on the device now. */
  function Bytes(memory: seq<seq<byte>>, b: Buffer): seq<byte>
    requires b.frame < |memory| && b.length <= |memory[b.frame]|
  {
    memory[b.frame][..b.length]
  }

  ghost predicate Distinct(fs: seq<nat>) {
    forall i, j {:trigger fs[i], fs[j]} :: 0 <= i < j < |fs| ==> fs[i] != fs[j]
  }

  /** Exactly the frames in use are claimed, each by one owner. */
  ghost predicate Claims(held: seq<nat>, claimed: set<nat>, frames: nat) {
    && Distinct(held)
    && (forall f :: f in claimed <==> f in held)
    && (forall f :: f in held ==> f < frames)
  }

  lemma ReleaseFirst(f: nat, rest: seq<nat>, claimed: set<nat>, frames: nat)
    requires Claims([f] + rest, claimed, frames)
    ensures Claims(rest, claimed - {f}, frames)
  {
    var held := [f] + rest;
    forall i | 0 <= i < |rest| ensures rest[i] != f && rest[i] in held {
      assert held[i + 1] == rest[i] && held[0] == f;
    }
    forall i, j | 0 <= i < j < |rest| ensures rest[i] != rest[j] {
      assert held[i + 1] != held[j + 1];
    }
    forall g | g in held && g != f ensures g in rest {
      var i :| 0 <= i < |held| && held[i] == g;
      assert rest[i - 1] == g;
    }
  }

  lemma ReleaseLast(rest: seq<nat>, f: nat, claimed: set<nat>, frames: nat)
    requires Claims(rest + [f], claimed, frames)
    ensures Claims(rest, claimed - {f}, frames)
  {
    var held := rest + [f];
    forall i | 0 <= i < |rest| ensures rest[i] != f && rest[i] in held {
      assert held[i] == rest[i] && held[|rest|] == f;
    }
    forall i, j | 0 <= i < j < |rest| ensures rest[i] != rest[j] {
      assert held[i] != held[j];
    }
  }

  /** Everything enqueued has been written or is still pending, unchanged and in order. */
  ghost predicate NothingLost(s: State) {
    && |s.sent| == |s.written| + |Pending(s)|
    && s.written <= s.sent
    && forall i {:trigger Pending(s)[i]} :: 0 <= i < |Pending(s)| ==>
         var b := Pending(s)[i];
         && b.frame < |s.pool.memory| && 0 < b.length <= |s.pool.memory[b.frame]|
         && s.sent[|s.written| + i] == Bytes(s.pool.memory, b)
  }

  /** The worker exists exactly between start and the end of stop; sends happen only in between. */
  ghost predicate Lifecycle(s: State) {
    && (s.worker.NotStarted? ==> s.queue == [] && !s.active && !s.stopping)
    && (s.worker.Exited? ==> s.queue == [] && s.stopping)
    && (s.stopping ==> !s.active)
    && (s.filling.Some? ==> s.active)
    && (s.queue != [] ==> !s.worker.NotStarted?)
  }

  ghost predicate Inv(s: State) {
    |s.pool.memory| > 0 && s.pool.next <= |s.pool.memory| && Claims(Held(s), s.pool.claimed, |s.pool.memory|) && NothingLost(s) && Lifecycle(s)
  }

  function Initial(memory: seq<seq<byte>>): State {
    State(Pool(memory, {}, 0), None, [], NotStarted, false, false, [], [])
  }

  /** The events. What one thread does under a lock is one event. */
  datatype Event =
    | Start                                    // set_stream_tx_start
    | Claim                                    // get_send_buff succeeds
    | Fill(data: seq<byte>)                    // fill_packet writes into the buffer
    | Enqueue(length: nat)                     // commit and enqueue_send_buffer
    | GiveUp                                   // commit(0) and reset: the buffer goes back unwritten
    | Take                                     // the worker pops the queue
    | Write                                    // the worker releases the buffer, which writes it
    | Exit                                     // the worker sees the stop flag and an empty queue
    | RequestStop                              // set_stream_tx_stop sets the flag
    | Join                                     // and joins the worker

  /** The frame get_send_buff tries. */
  function NextFrame(s: State): nat {
    if s.pool.next == |s.pool.memory| then 0 else s.pool.next
  }

  /** When an event can happen. */
  predicate Enabled(s: State, e: Event) {
    match e
    case Start => s.filling.None? && !s.stopping
    case Claim => s.active && s.filling.None? && |s.pool.memory| > 0 && s.pool.next <= |s.pool.memory| && NextFrame(s) !in s.pool.claimed
    case Fill(data) => s.filling.Some? && s.filling.value < |s.pool.memory| && |data| == |s.pool.memory[s.filling.value]|
    case Enqueue(length) => s.filling.Some? && s.filling.value < |s.pool.memory| && 0 < length <= |s.pool.memory[s.filling.value]|
    case GiveUp => s.filling.Some?
    case Take => s.worker.Waiting? && s.queue != []
    case Write => s.worker.Holding? && s.worker.buffer.frame < |s.pool.memory|
                  && s.worker.buffer.length <= |s.pool.memory[s.worker.buffer.frame]|
    case Exit => s.worker.Waiting? && s.queue == [] && s.stopping
    case RequestStop => s.filling.None? && !s.stopping
    case Join => s.stopping && s.worker.Exited?
  }

  /** start_send_worker_locked clears the queue only when there is no worker. */
  function Started(s: State): State {
    if s.worker.NotStarted? then s.(queue := [], worker := Waiting, active := true) else s.(active := true)
  }

  function Claimed(s: State): State {
    var f := NextFrame(s);
    s.(filling := Some(f), pool := s.pool.(claimed := s.pool.claimed + {f}, next := f + 1))
  }

  function Filled(s: State, data: seq<byte>): State
    requires s.filling.Some? && s.filling.value < |s.pool.memory|
  {
    s.(pool := s.pool.(memory := s.pool.memory[s.filling.value := data]))
  }

  function Enqueued(s: State, length: nat): State
    requires s.filling.Some? && s.filling.value < |s.pool.memory| && length <= |s.pool.memory[s.filling.value]|
  {
    var b := Buffer(s.filling.value, length);
    s.(filling := None, queue := s.queue + [b], sent := s.sent + [Bytes(s.pool.memory, b)])
  }

  function GivenUp(s: State): State
    requires s.filling.Some?
  {
    s.(filling := None, pool := s.pool.(claimed := s.pool.claimed - {s.filling.value}))
  }

  function Taken(s: State): State
    requires s.queue != []
  {
    s.(worker := Holding(s.queue[0]), queue := s.queue[1..])
  }

  function Written(s: State): State
    requires Enabled(s, Write)
  {
    var b := s.worker.buffer;
    s.(worker := Waiting, pool := s.pool.(claimed := s.pool.claimed - {b.frame}), written := s.written + [Bytes(s.pool.memory, b)])
  }

  /** stop without a worker returns at once. */
  function StopRequested(s: State): State {
    s.(active := false, stopping := !s.worker.NotStarted?)
  }

  function Step(s: State, e: Event): State
    requires Enabled(s, e)
  {
    match e
    case Start => Started(s)
    case Claim => Claimed(s)
    case Fill(data) => Filled(s, data)
    case Enqueue(length) => Enqueued(s, length)
    case GiveUp => GivenUp(s)
    case Take => Taken(s)
    case Write => Written(s)
    case Exit => s.(worker := Exited)
    case RequestStop => StopRequested(s)
    case Join => s.(worker := NotStarted, stopping := false)
  }

  lemma ClaimKeeps(s: State)
    requires Inv(s) && Enabled(s, Claim)
    ensures Inv(Claimed(s))
  {
    var t, f := Claimed(s), NextFrame(s);
    assert Pending(t) == Pending(s);
    assert Held(t) == Held(s) + [f];
  }

  lemma FillKeeps(s: State, data: seq<byte>)
    requires Inv(s) && Enabled(s, Fill(data))
    ensures Inv(Filled(s, data))
  {
    var t, f := Filled(s, data), s.filling.value;
    assert Pending(t) == Pending(s) && Held(t) == Held(s);
    forall i | 0 <= i < |Pending(s)| ensures Pending(s)[i].frame != f {
      assert Held(s)[i] == Pending(s)[i].frame && Held(s)[|Pending(s)|] == f;
    }
  }

  lemma EnqueueKeeps(s: State, length: nat)
    requires Inv(s) && Enabled(s, Enqueue(length))
    ensures Inv(Enqueued(s, length))
  {
    var t := Enqueued(s, length);
    assert Pending(t) == Pending(s) + [Buffer(s.filling.value, length)];
    assert Held(t) == Held(s);
  }

  lemma GiveUpKeeps(s: State)
    requires Inv(s) && Enabled(s, GiveUp)
    ensures Inv(GivenUp(s))
  {
    var t := GivenUp(s);
    assert Pending(t) == Pending(s);
    assert Held(s) == Held(t) + [s.filling.value];
    ReleaseLast(Held(t), s.filling.value, s.pool.claimed, |s.pool.memory|);
  }

  lemma TakeKeeps(s: State)
    requires Inv(s) && Enabled(s, Take)
    ensures Inv(Taken(s))
  {
    var t := Taken(s);
    assert Pending(t) == Pending(s);
  }

  /** The oldest pending buffer is written, with the bytes it was enqueued with. */
  lemma WriteKeeps(s: State)
    requires Inv(s) && Enabled(s, Write)
    ensures Inv(Written(s))
  {
    var t, b := Written(s), s.worker.buffer;
    assert Pending(s) == [b] + Pending(t);
    assert Held(s) == [b.frame] + Held(t);
    ReleaseFirst(b.frame, Held(t), s.pool.claimed, |s.pool.memory|);
    assert s.sent[|s.written|] == Bytes(s.pool.memory, Pending(s)[0]);
    forall i | 0 <= i < |Pending(t)|
      ensures var c := Pending(t)[i];
              && c.frame < |t.pool.memory| && 0 < c.length <= |t.pool.memory[c.frame]|
              && t.sent[|t.written| + i] == Bytes(t.pool.memory, c)
    {
      assert Pending(s)[i + 1] == Pending(t)[i];
    }
  }

  lemma StepKeeps(s: State, e: Event)
    requires Inv(s) && Enabled(s, e)
    ensures Inv(Step(s, e))
  {
    match e
    case Claim => ClaimKeeps(s);
    case Fill(data) => FillKeeps(s, data);
    case Enqueue(length) => EnqueueKeeps(s, length);
    case GiveUp => GiveUpKeeps(s);
    case Take => TakeKeeps(s);
    case Write => WriteKeeps(s);
    case _ => SamePending(s, Step(s, e));
  }

  lemma SamePending(s: State, t: State)
    requires Inv(s) && t.pool == s.pool && t.filling == s.filling && t.sent == s.sent && t.written == s.written
    requires t.queue == s.queue && (t.worker.Holding? || s.worker.Holding? ==> t.worker == s.worker) && Lifecycle(t)
    ensures Inv(t)
  {
    assert Pending(t) == Pending(s);
  }

  /** A run: states joined by events. */
  ghost predicate Run(states: seq<State>, events: seq<Event>) {
    && |states| == |events| + 1
    && forall i {:trigger events[i]} :: 0 <= i < |events| ==> Enabled(states[i], events[i]) && states[i + 1] == Step(states[i], events[i])
  }

  lemma {:induction false} RunKeeps(states: seq<State>, events: seq<Event>, i: nat)
    requires Run(states, events) && Inv(states[0]) && i < |states|
    ensures Inv(states[i])
  {
    if i > 0 {
      RunKeeps(states, events, i - 1);
      StepKeeps(states[i - 1], events[i - 1]);
      assert states[i] == Step(states[i - 1], events[i - 1]);
    }
  }

  lemma InitialInv(memory: seq<seq<byte>>)
    requires memory != []
    ensures Inv(Initial(memory))
  {
  }

  /** In every reachable state the writes are the first of the enqueued buffers, each once, in order and unchanged. */
  lemma WritesInOrder(states: seq<State>, events: seq<Event>, memory: seq<seq<byte>>, i: nat)
    requires memory != [] && Run(states, events) && states[0] == Initial(memory) && i < |states|
    ensures states[i].written <= states[i].sent
    ensures |states[i].sent| == |states[i].written| + |Pending(states[i])|
  {
    InitialInv(memory);
    RunKeeps(states, events, i);
  }

  /** The buffers the calling thread hands over in the events a .. n - 1, with the bytes they hold then. */
  function Handed(states: seq<State>, events: seq<Event>, a: nat, n: nat): seq<seq<byte>>
    requires a <= n <= |events| < |states|
    decreases n
  {
    if n == a then []
    else
      var s, e := states[n - 1], events[n - 1];
      Handed(states, events, a, n - 1)
      + if e.Enqueue? && Enabled(s, e) then [s.pool.memory[s.filling.value][..e.length]] else []
  }

  lemma {:induction false} SentIsHanded(states: seq<State>, events: seq<Event>, a: nat, n: nat)
    requires Run(states, events) && a <= n <= |events|
    ensures states[n].sent == states[a].sent + Handed(states, events, a, n)
    decreases n
  {
    if n > a {
      SentIsHanded(states, events, a, n - 1);
      assert Enabled(states[n - 1], events[n - 1]) && states[n] == Step(states[n - 1], events[n - 1]);
    }
  }

  /** What is written stays written. */
  lemma {:induction false} WrittenGrows(states: seq<State>, events: seq<Event>, a: nat, n: nat)
    requires Run(states, events) && a <= n <= |events|
    ensures states[a].written <= states[n].written
    decreases n
  {
    if n > a {
      WrittenGrows(states, events, a, n - 1);
      assert Enabled(states[n - 1], events[n - 1]) && states[n] == Step(states[n - 1], events[n - 1]);
    }
  }

  /** Between a stop and the next start everything enqueued has been written. */
  lemma RestIsWritten(states: seq<State>, events: seq<Event>, memory: seq<seq<byte>>, a: nat)
    requires memory != [] && Run(states, events) && states[0] == Initial(memory) && a < |states| && states[a].worker.NotStarted?
    ensures states[a].written == states[a].sent
  {
    InitialInv(memory);
    RunKeeps(states, events, a);
    assert Pending(states[a]) == [];
  }

  /** When stop returns the queue is empty and everything enqueued has been written. */
  lemma StopDrains(states: seq<State>, events: seq<Event>, memory: seq<seq<byte>>, i: nat)
    requires memory != [] && Run(states, events) && states[0] == Initial(memory) && i < |events| && events[i].Join?
    ensures states[i + 1].queue == [] && states[i + 1].written == states[i + 1].sent && states[i + 1].pool.claimed == {}
  {
    InitialInv(memory);
    RunKeeps(states, events, i);
    RunKeeps(states, events, i + 1);
    var s := states[i];
    assert s.worker.Exited? && states[i + 1] == Step(s, events[i]);
    assert Pending(s) == [] && Held(s) == [];
  }

  /** The clear at start throws nothing away: where it runs, the queue is empty already. */
  lemma ClearDiscardsNothing(states: seq<State>, events: seq<Event>, memory: seq<seq<byte>>, i: nat)
    requires memory != [] && Run(states, events) && states[0] == Initial(memory) && i < |events| && events[i].Start?
    ensures states[i + 1].queue == states[i].queue
  {
    InitialInv(memory);
    RunKeeps(states, events, i);
    assert Enabled(states[i], events[i]) && states[i + 1] == Step(states[i], events[i]);
  }

  /** No frame is refilled before its write: filling leaves the bytes of every pending buffer alone. */
  lemma FillSparesPending(states: seq<State>, events: seq<Event>, memory: seq<seq<byte>>, i: nat, k: nat)
    requires memory != [] && Run(states, events) && states[0] == Initial(memory) && i < |events| && events[i].Fill?
    requires k < |Pending(states[i])|
    ensures var b := Pending(states[i])[k];
            && b.frame != states[i].filling.value && b.frame < |states[i].pool.memory|
            && states[i + 1].pool.memory[b.frame] == states[i].pool.memory[b.frame]
  {
    InitialInv(memory);
    RunKeeps(states, events, i);
    var s := states[i];
    assert Enabled(s, events[i]) && states[i + 1] == Step(s, events[i]);
    assert Held(s)[k] == Pending(s)[k].frame && Held(s)[|Pending(s)|] == s.filling.value;
  }

  /** The members of m300_tx_streamer and its transport that the two threads share. */
  class SendQueue {
    var pool: Pool
    var filling: Option<nat>
    var queue: seq<Buffer>
    var worker: Worker
    var stopping: bool
    var active: bool
    ghost var sent: seq<seq<byte>>
    ghost var written: seq<seq<byte>>

    ghost function View(): State
      reads this
    {
      State(pool, filling, queue, worker, stopping, active, sent, written)
    }

    constructor (memory: seq<seq<byte>>)
      ensures View() == Initial(memory)
    {
      pool, filling, queue, worker, stopping, active := Pool(memory, {}, 0), None, [], NotStarted, false, false;
      sent, written := [], [];
    }

    /** start_send_worker_locked and set_stream_tx_start. */
    method Start()
      requires Enabled(View(), Event.Start)
      modifies this
      ensures View() == Started(old(View()))
    {
      if worker.NotStarted? {
        queue := [];
        worker := Waiting;
      }
      active := true;
    }

    /** get_send_buff: the round-robin frame, if it is free. */
    method GetSendBuff() returns (frame: Option<nat>)
      requires active && filling.None? && |pool.memory| > 0 && pool.next <= |pool.memory|
      modifies this
      ensures frame.Some? <==> Enabled(old(View()), Claim)
      ensures frame.Some? ==> View() == Claimed(old(View())) && frame == filling
      ensures frame.None? ==> View() == old(View()).(pool := old(pool).(next := NextFrame(old(View()))))
      ensures var turn := if old(pool).next == |old(pool).memory| then 0 else old(pool).next;
              frame == (if turn in old(pool).claimed then None else Some(turn)) && pool.next == turn + if frame.Some? then 1 else 0
    {
      if pool.next == |pool.memory| {
        pool := pool.(next := 0);
      }
      if pool.next in pool.claimed {
        return None;
      }
      frame := Some(pool.next);
      filling := frame;
      pool := pool.(claimed := pool.claimed + {pool.next}, next := pool.next + 1);
    }

    /** What the calling thread writes into the frame it has. */
    method FillFrame(data: seq<byte>)
      requires filling.Some? && filling.value < |pool.memory| && |data| == |pool.memory[filling.value]|
      modifies `pool
      ensures old(Enabled(View(), Fill(data))) && View() == Filled(old(View()), data)
      ensures pool.memory == old(pool.memory)[filling.value := data] && pool.claimed == old(pool.claimed) && pool.next == old(pool.next)
    {
      pool := pool.(memory := pool.memory[filling.value := data]);
    }

    /** commit and enqueue_send_buffer. */
    method EnqueueSendBuffer(length: nat)
      requires filling.Some? && filling.value < |pool.memory| && 0 < length <= |pool.memory[filling.value]|
      modifies this
      ensures old(Enabled(View(), Enqueue(length))) && View() == Enqueued(old(View()), length)
      ensures queue == old(queue) + [Buffer(old(filling.value), length)] && filling == None
      ensures sent == old(sent) + [old(pool.memory[filling.value][..length])] && pool == old(pool) && written == old(written)
    {
      var b := Buffer(filling.value, length);
      queue, filling := queue + [b], None;
      sent := sent + [Bytes(pool.memory, b)];
    }

    /** The release of the buffer the worker holds, which writes it. */
    method FinishWrite()
      requires Inv(View()) && worker.Holding?
      modifies this
      ensures old(Enabled(View(), Write)) && View() == Written(old(View())) && Inv(View())
      ensures var b := old(worker.buffer);
              && b.frame < |pool.memory| && b.length <= |pool.memory[b.frame]| && pool.memory == old(pool.memory)
              && written == old(written) + [pool.memory[b.frame][..b.length]] && pool.claimed == old(pool.claimed) - {b.frame}
    {
      var buffer := worker.buffer;
      assert Pending(View())[0] == buffer;
      WriteKeeps(View());
      written := written + [Bytes(pool.memory, buffer)];
      worker, pool := Waiting, pool.(claimed := pool.claimed - {buffer.frame});
    }

    /** One turn of send_worker_func, when its wait is over. */
    method WorkerTurn()
      requires Inv(View()) && worker.Waiting? && (stopping || queue != [])
      modifies this
      ensures Inv(View())
      ensures old(queue) == [] ==> View() == old(View()).(worker := Exited)
      ensures old(queue) != [] ==> Enabled(Taken(old(View())), Write) && View() == Written(Taken(old(View())))
    {
      if queue == [] {
        SamePending(View(), View().(worker := Exited));
        worker := Exited;
        return;
      }
      TakeKeeps(View());
      worker, queue := Holding(queue[0]), queue[1..];
      FinishWrite();
    }

    /** What the worker does between the stop request and its exit: the write it is in, if any, and then its turns. */
    method RunToExit()
      requires Inv(View()) && stopping && filling.None? && (worker.Waiting? || worker.Holding?)
      modifies this
      ensures Inv(View()) && stopping && filling.None? && worker.Exited? && !active && sent == old(sent)
    {
      if worker.Holding? {
        FinishWrite();
      }
      while !worker.Exited?
        invariant Inv(View()) && stopping && filling.None? && sent == old(sent)
        invariant worker.Waiting? || worker.Exited?
        decreases worker.Waiting?, |queue|
      {
        WorkerTurn();
      }
    }

    /** stop_send_worker_locked: set the flag, then wait for the worker, which alone can act meanwhile. */
    method Stop()
      requires Inv(View()) && Enabled(View(), RequestStop)
      modifies this
      ensures Inv(View()) && worker.NotStarted? && !stopping && !active
      ensures queue == [] && sent == old(sent) && written == sent && pool.claimed == {}
    {
      SamePending(View(), StopRequested(View()));
      active := false;
      stopping := !worker.NotStarted?;
      if !worker.NotStarted? {
        RunToExit();
      }
      JoinEndsRun(View());
      worker, stopping := NotStarted, false;
    }
  }

  lemma JoinEndsRun(s: State)
    requires Inv(s) && s.filling.None? && !s.active && (s.worker.NotStarted? || s.worker.Exited?)
    ensures Inv(s.(worker := NotStarted, stopping := false))
    ensures s.queue == [] && s.written == s.sent && s.pool.claimed == {}
  {
    assert Pending(s) == [] && Held(s) == [];
    SamePending(s, s.(worker := NotStarted, stopping := false));
  }
}
