/** Who holds which receive frame. */
module RxFrames {
  import opened Options
  import opened RxTypes

  function Frames(fifo: seq<QueuedPacket>): set<nat> {
    set q | q in fifo :: q.frame
  }

  ghost function Holders(worker: Option<nat>, fifo: seq<QueuedPacket>, pending: Option<nat>, f: nat): nat {
    (if worker == Some(f) then 1 else 0) + (if f in Frames(fifo) then 1 else 0) + (if pending == Some(f) then 1 else 0)
  }

  ghost predicate DistinctFrames(fifo: seq<QueuedPacket>) {
    && (forall k {:trigger fifo[k]} :: 0 <= k < |fifo| ==> fifo[k].frame < NUM_FRAMES)
    && (forall j, k {:trigger fifo[j], fifo[k]} :: 0 <= j < k < |fifo| ==> fifo[j].frame != fifo[k].frame)
  }

  /**
   * A frame's reference count is the number of its holders and it is locked
   * exactly while somebody holds it. Queue entries and the pending packet never
   * share a frame; the worker shares one only with the entry it has just queued.
   */
  ghost predicate Accounted(locked: seq<bool>, refs: seq<nat>, worker: Option<nat>, shared: bool,
                            fifo: seq<QueuedPacket>, pending: Option<nat>)
  {
    && |locked| == |refs| == NUM_FRAMES
    && (forall f {:trigger refs[f]} :: 0 <= f < NUM_FRAMES ==> refs[f] == Holders(worker, fifo, pending, f))
    && (forall f {:trigger locked[f]} :: 0 <= f < NUM_FRAMES ==> (locked[f] <==> refs[f] > 0))
    && DistinctFrames(fifo)
    && (pending.Some? ==> pending.value < NUM_FRAMES && pending.value !in Frames(fifo))
    && (worker.Some? ==> worker.value < NUM_FRAMES)
    && (worker.Some? && !shared ==> worker.value !in Frames(fifo) && worker != pending)
  }

  lemma FramesAppend(fifo: seq<QueuedPacket>, q: QueuedPacket)
    ensures Frames(fifo + [q]) == Frames(fifo) + {q.frame}
  {
  }

  lemma FramesPop(fifo: seq<QueuedPacket>)
    requires fifo != [] && DistinctFrames(fifo)
    ensures Frames(fifo[1..]) == Frames(fifo) - {fifo[0].frame}
    ensures DistinctFrames(fifo[1..])
  {
    assert fifo == [fifo[0]] + fifo[1..];
    forall k | 0 <= k < |fifo[1..]|
      ensures fifo[1..][k].frame != fifo[0].frame
    {
      assert fifo[1..][k] == fifo[k + 1];
    }
  }

  /** The queue can never hold more entries than there are frames. */
  lemma {:induction false} QueueBounded(fifo: seq<QueuedPacket>, spare: set<nat>)
    requires DistinctFrames(fifo)
    requires forall f :: f in spare ==> f < NUM_FRAMES && f !in Frames(fifo)
    ensures |fifo| + |spare| <= NUM_FRAMES
  {
    FrameCount(fifo);
    var all := Below(NUM_FRAMES);
    assert Frames(fifo) + spare <= all;
    SubsetSize(Frames(fifo) + spare, all);
    assert |Frames(fifo) + spare| == |Frames(fifo)| + |spare|;
  }

  lemma {:induction false} FrameCount(fifo: seq<QueuedPacket>)
    requires DistinctFrames(fifo)
    ensures |Frames(fifo)| == |fifo|
  {
    if fifo != [] {
      FramesPop(fifo);
      FrameCount(fifo[1..]);
      assert fifo[0].frame in Frames(fifo);
    }
  }

  function Below(n: nat): (s: set<nat>)
    ensures |s| == n
    ensures forall f: nat :: f in s <==> f < n
  {
    if n == 0 then {} else Below(n - 1) + {n - 1}
  }

  lemma {:induction false} SubsetSize(a: set<nat>, b: set<nat>)
    requires a <= b
    ensures |a| <= |b|
  {
    if a != {} {
      var x :| x in a;
      SubsetSize(a - {x}, b - {x});
    }
  }

  lemma ClaimKeeps(locked: seq<bool>, refs: seq<nat>, fifo: seq<QueuedPacket>, pending: Option<nat>, f: nat)
    requires Accounted(locked, refs, None, false, fifo, pending)
    requires f < NUM_FRAMES && !locked[f]
    ensures Accounted(locked[f := true], refs[f := 1], Some(f), false, fifo, pending)
  {
    assert refs[f] == Holders(None, fifo, pending, f) == 0;
  }

  /** The worker drops a frame that nobody else holds. */
  lemma DropWorkerKeeps(locked: seq<bool>, refs: seq<nat>, worker: nat, shared: bool,
                        fifo: seq<QueuedPacket>, pending: Option<nat>)
    requires Accounted(locked, refs, Some(worker), shared, fifo, pending)
    ensures refs[worker] > 0
    ensures Accounted(locked[worker := refs[worker] > 1], refs[worker := refs[worker] - 1], None, false, fifo, pending)
  {
    assert refs[worker] == Holders(Some(worker), fifo, pending, worker);
  }

  lemma PushKeeps(locked: seq<bool>, refs: seq<nat>, q: QueuedPacket, fifo: seq<QueuedPacket>, pending: Option<nat>)
    requires Accounted(locked, refs, Some(q.frame), false, fifo, pending)
    ensures |fifo| < NUM_FRAMES
    ensures Accounted(locked, refs[q.frame := refs[q.frame] + 1], Some(q.frame), true, fifo + [q], pending)
  {
    QueueBounded(fifo, {q.frame});
    FramesAppend(fifo, q);
    assert refs[q.frame] == Holders(Some(q.frame), fifo, pending, q.frame);
  }

  lemma PopKeeps(locked: seq<bool>, refs: seq<nat>, worker: Option<nat>, shared: bool, fifo: seq<QueuedPacket>)
    requires Accounted(locked, refs, worker, shared, fifo, None) && fifo != []
    ensures Accounted(locked, refs, worker, shared, fifo[1..], Some(fifo[0].frame))
  {
    FramesPop(fifo);
    assert fifo[0].frame in Frames(fifo);
  }

  lemma DropPendingKeeps(locked: seq<bool>, refs: seq<nat>, worker: Option<nat>, shared: bool,
                         fifo: seq<QueuedPacket>, pending: nat)
    requires Accounted(locked, refs, worker, shared, fifo, Some(pending))
    ensures refs[pending] > 0
    ensures Accounted(locked[pending := refs[pending] > 1], refs[pending := refs[pending] - 1], worker, shared, fifo, None)
  {
    assert refs[pending] == Holders(worker, fifo, Some(pending), pending);
  }
}
