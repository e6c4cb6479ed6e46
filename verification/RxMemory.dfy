/** The receive frames in memory: who holds a frame has its bytes for itself. */
module RxMemory {
  import opened BufferPool
  import opened Options
  import opened RxFrames
  import opened RxMachine
  import opened RxSafety
  import opened RxTypes

  function FrameList(fifo: seq<QueuedPacket>): seq<nat> {
    seq(|fifo|, k requires 0 <= k < |fifo| => fifo[k].frame)
  }

  function HeldBy(worker: Option<nat>, shared: bool, fifo: seq<QueuedPacket>, pending: Option<nat>): seq<nat> {
    (if worker.Some? && !shared then [worker.value] else []) + FrameList(fifo) + (if pending.Some? then [pending.value] else [])
  }

  /** The frames in use: the worker's until it is queued, those of the queue, and the consumer's. */
  function Held(s: Rx): seq<nat> {
    HeldBy(s.worker.Held(), s.worker.Queued?, s.fifo, s.con.Frame())
  }

  /** Frames of the pool, no two of them the same. */
  ghost predicate Distinct(frames: seq<nat>) {
    && (forall k {:trigger frames[k]} :: 0 <= k < |frames| ==> frames[k] < NUM_FRAMES)
    && forall j, k {:trigger frames[j], frames[k]} :: 0 <= j < k < |frames| ==> frames[j] != frames[k]
  }

  lemma QueueDistinct(fifo: seq<QueuedPacket>)
    requires DistinctFrames(fifo)
    ensures Distinct(FrameList(fifo)) && forall f :: f in FrameList(fifo) ==> f in Frames(fifo)
  {
    var fs := FrameList(fifo);
    forall f | f in fs ensures f in Frames(fifo) {
      var k :| 0 <= k < |fs| && fs[k] == f;
      assert fifo[k] in fifo;
    }
  }

  lemma DistinctBehind(frames: seq<nat>, f: nat)
    requires Distinct(frames) && f < NUM_FRAMES && f !in frames
    ensures Distinct([f] + frames) && Distinct(frames + [f])
  {
  }

  lemma HeldAre(worker: Option<nat>, shared: bool, fifo: seq<QueuedPacket>, pending: Option<nat>, locked: seq<bool>, refs: seq<nat>)
    requires Accounted(locked, refs, worker, shared, fifo, pending)
    ensures var fs := HeldBy(worker, shared, fifo, pending); Distinct(fs) && forall f :: f in fs ==> f < |locked| && locked[f]
  {
    var front := (if worker.Some? && !shared then [worker.value] else []) + FrameList(fifo);
    QueueDistinct(fifo);
    if worker.Some? && !shared {
      DistinctBehind(FrameList(fifo), worker.value);
    }
    if pending.Some? {
      DistinctBehind(front, pending.value);
    }
    hide Distinct, FrameList;
    forall f | f in HeldBy(worker, shared, fifo, pending) ensures f < |locked| && locked[f] {
      assert f in Frames(fifo) ==> exists q :: q in fifo && q.frame == f;
      assert refs[f] == Holders(worker, fifo, pending, f);
    }
  }

  lemma HeldDistinct(s: Rx)
    requires FramesOk(s.xport, s.worker, s.fifo, s.con.Frame())
    ensures Distinct(Held(s)) && forall f :: f in Held(s) ==> f < |s.xport.locked| && s.xport.locked[f]
  {
    hide Distinct, Accounted, HeldBy;
    HeldAre(s.worker.Held(), s.worker.Queued?, s.fifo, s.con.Frame(), s.xport.locked, s.xport.refs);
  }

  /** Where frame f of the pool starts. */
  function At(pool: Pool, f: nat): Size {
    Address(pool.memory, Pad(pool.bytes, pool.alignment), pool.alignment, f)
  }

  /** What buffer_pool::make was asked for, and the address the allocator gave. */
  datatype Room = Room(bytes: Size, alignment: Size, memory: Size)

  /** The request is met, and the size of the whole allocation does not overflow. */
  type Pool = r: Room | Allocated(NUM_FRAMES, r.bytes, r.alignment, r.memory) && NUM_FRAMES * Pad(r.bytes, r.alignment) + r.alignment - 1 < WORD
    ghost witness Room(1, 1, 0)

  /** Frame f lies in the allocation, aligned. */
  ghost predicate InPool(pool: Pool, f: nat) {
    var padded := Pad(pool.bytes, pool.alignment);
    Inside(At(pool, f), pool.bytes, pool.alignment, pool.memory, AllocationSize(NUM_FRAMES, padded, pool.alignment))
  }

  ghost predicate FramesApart(pool: Pool, j: nat, k: nat) {
    Apart(At(pool, j), At(pool, k), pool.bytes)
  }

  lemma FrameInPool(pool: Pool, f: nat)
    requires f < NUM_FRAMES
    ensures InPool(pool, f)
  {
    PoolIsSound(NUM_FRAMES, pool.bytes, pool.alignment, pool.memory);
  }

  lemma OthersApart(pool: Pool, j: nat, k: nat)
    requires j < NUM_FRAMES && k < NUM_FRAMES && j != k
    ensures FramesApart(pool, j, k)
  {
    PoolIsSound(NUM_FRAMES, pool.bytes, pool.alignment, pool.memory);
    if j < k {
      assert Apart(At(pool, j), At(pool, k), pool.bytes);
    } else {
      assert Apart(At(pool, k), At(pool, j), pool.bytes);
    }
  }

  /**
   * In every state of every run the frames in use lie in the allocation, aligned and apart from each other, and so does, apart
   * from all of them, the frame the next datagram is received into: nothing that is queued or being read is ever overwritten.
   */
  lemma HeldFramesAreApart(start: Rx, actions: seq<Action>, pool: Pool)
    requires Inv(start)
    ensures var s, held := Run(start, actions), Held(Run(start, actions));
            && (forall j :: 0 <= j < |held| ==> InPool(pool, held[j]))
            && (forall j, k :: 0 <= j < k < |held| ==> FramesApart(pool, held[j], held[k]))
            && (forall input, k :: s.xport.CanReceive(input) && 0 <= k < |held| ==> FramesApart(pool, s.xport.Turn(), held[k]))
  {
    RunKeeps(start, actions);
    InUseApart(Run(start, actions), pool);
  }

  lemma InUseApart(s: Rx, pool: Pool)
    requires FramesOk(s.xport, s.worker, s.fifo, s.con.Frame())
    ensures var held := Held(s);
            && (forall j :: 0 <= j < |held| ==> InPool(pool, held[j]))
            && (forall j, k :: 0 <= j < k < |held| ==> FramesApart(pool, held[j], held[k]))
            && (forall input, k :: s.xport.CanReceive(input) && 0 <= k < |held| ==> FramesApart(pool, s.xport.Turn(), held[k]))
  {
    hide InPool, FramesApart, Held, Accounted;
    var held := Held(s);
    HeldDistinct(s);
    forall j | 0 <= j < |held| ensures InPool(pool, held[j]) {
      FrameInPool(pool, held[j]);
    }
    forall j, k | 0 <= j < k < |held| ensures FramesApart(pool, held[j], held[k]) {
      OthersApart(pool, held[j], held[k]);
    }
    forall input, k | s.xport.CanReceive(input) && 0 <= k < |held| ensures FramesApart(pool, s.xport.Turn(), held[k]) {
      assert held[k] in held;
      OthersApart(pool, s.xport.Turn(), held[k]);
    }
  }
}
