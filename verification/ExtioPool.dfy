/** The callback buffers of the ExtIO plug-in: a receive thread fills blocks, a callback thread hands them on. */
module ExtioPool {
  const NUM_BUFFERS: nat := 4

  type Block = seq<int>

  /** The receive thread: assembling a block, or holding a buffer index for the block it has assembled. */
  datatype Rx = Assembling | HasBuffer(index: nat, copied: bool)

  /** The callback thread: waiting, or holding a buffer index, before or after its callback has run. */
  datatype Cb = Waiting | Reading(index: nat, delivered: bool)

  /**
   * block is the number of entries in a block, partial what is assembled of the next one. assembled, kept and
   * delivered are histories: all finished blocks, those that got a buffer, those handed to the callback.
   */
  datatype State = State(block: nat, buffers: seq<Block>, free: seq<nat>, filled: seq<nat>, rx: Rx, cb: Cb, partial: Block,
                         assembled: seq<Block>, kept: seq<Block>, delivered: seq<Block>)

  datatype Event =
    | Receive(chunk: Block)    // recv returns samples, copied behind the partial block
    | Recover                  // too many empty reads: the partial block is thrown away
    | Offer                    // the block is full: take a free index, or drop the block
    | CopyBlock                // memcpy into the buffer
    | PushFilled               // the index goes to the filled queue
    | TakeFilled               // the callback thread takes an index
    | Deliver                  // and runs the callback on its buffer
    | ReturnFree               // and gives the index back

  predicate Enabled(s: State, e: Event) {
    match e
    case Receive(chunk) => s.rx.Assembling? && chunk != [] && |s.partial| + |chunk| <= s.block
    case Recover => s.rx.Assembling? && |s.partial| < s.block
    case Offer => s.rx.Assembling? && |s.partial| == s.block
    case CopyBlock => s.rx.HasBuffer? && !s.rx.copied && s.rx.index < |s.buffers|
    case PushFilled => s.rx.HasBuffer? && s.rx.copied
    case TakeFilled => s.cb.Waiting? && s.filled != []
    case Deliver => s.cb.Reading? && !s.cb.delivered && s.cb.index < |s.buffers|
    case ReturnFree => s.cb.Reading? && s.cb.delivered
  }

  function Offered(s: State): State {
    var t := s.(assembled := s.assembled + [s.partial]);
    if s.free == [] then t.(partial := [])
    else t.(rx := HasBuffer(s.free[0], false), free := s.free[1..], kept := s.kept + [s.partial])
  }

  function Step(s: State, e: Event): State
    requires Enabled(s, e)
  {
    match e
    case Receive(chunk) => s.(partial := s.partial + chunk)
    case Recover => s.(partial := [])
    case Offer => Offered(s)
    case CopyBlock => s.(buffers := s.buffers[s.rx.index := s.partial], rx := s.rx.(copied := true))
    case PushFilled => s.(filled := s.filled + [s.rx.index], rx := Assembling, partial := [])
    case TakeFilled => s.(cb := Reading(s.filled[0], false), filled := s.filled[1..])
    case Deliver => s.(delivered := s.delivered + [s.buffers[s.cb.index]], cb := s.cb.(delivered := true))
    case ReturnFree => s.(free := s.free + [s.cb.index], cb := Waiting)
  }

  /** Every index, by its place: with the callback, filled, with the receive thread, free. */
  function Places(s: State): seq<nat> {
    (if s.cb.Reading? then [s.cb.index] else []) + s.filled + (if s.rx.HasBuffer? then [s.rx.index] else []) + s.free
  }

  /** The indices are exactly 0 .. NUM_BUFFERS - 1, each in one place. */
  ghost predicate Partition(places: seq<nat>) {
    && |places| == NUM_BUFFERS
    && (forall i :: 0 <= i < |places| ==> places[i] < NUM_BUFFERS)
    && (forall i, j {:trigger places[i], places[j]} :: 0 <= i < j < |places| ==> places[i] != places[j])
  }

  /** The blocks waiting to be delivered, oldest first. */
  function Undelivered(s: State): seq<Block>
    requires |s.buffers| == NUM_BUFFERS && Partition(Places(s))
  {
    PlacesAt(s);
    (if s.cb.Reading? && !s.cb.delivered then [s.buffers[s.cb.index]] else [])
    + seq(|s.filled|, i requires 0 <= i < |s.filled| => s.buffers[s.filled[i]])
    + (if s.rx.HasBuffer? then [s.partial] else [])
  }

  lemma PlacesAt(s: State)
    requires Partition(Places(s))
    ensures s.cb.Reading? ==> s.cb.index < NUM_BUFFERS && (s.rx.HasBuffer? ==> s.cb.index != s.rx.index)
    ensures s.rx.HasBuffer? ==> s.rx.index < NUM_BUFFERS && s.rx.index !in s.filled
    ensures forall i :: 0 <= i < |s.filled| ==> s.filled[i] < NUM_BUFFERS && (s.cb.Reading? ==> s.filled[i] != s.cb.index)
  {
    var a := if s.cb.Reading? then 1 else 0;
    var places := Places(s);
    assert s.cb.Reading? ==> places[0] == s.cb.index;
    assert forall i :: 0 <= i < |s.filled| ==> places[a + i] == s.filled[i];
    assert s.rx.HasBuffer? ==> places[a + |s.filled|] == s.rx.index;
  }

  /** kept is a subsequence of assembled, given block by block by the flags. */
  function Selected(blocks: seq<Block>, flags: seq<bool>): seq<Block>
    requires |blocks| == |flags|
  {
    if blocks == [] then []
    else
      var k := |blocks| - 1;
      Selected(blocks[..k], flags[..k]) + (if flags[k] then [blocks[k]] else [])
  }

  ghost predicate Inv(s: State) {
    && |s.buffers| == NUM_BUFFERS && Partition(Places(s))
    && |s.partial| <= s.block && (s.rx.HasBuffer? ==> |s.partial| == s.block)
    && (s.rx.HasBuffer? && s.rx.copied ==> s.rx.index < |s.buffers| && s.buffers[s.rx.index] == s.partial)
    && s.kept == s.delivered + Undelivered(s)
  }

  /** The state start_cb_thread's reset establishes. */
  function Reset(block: nat, buffers: seq<Block>): State {
    State(block, buffers, [0, 1, 2, 3], [], Assembling, Cb.Waiting, [], [], [], [])
  }

  lemma FreshInv(s: State)
    requires |s.buffers| == NUM_BUFFERS && s.free == [0, 1, 2, 3] && s.filled == [] && s.rx.Assembling? && s.cb.Waiting?
    requires |s.partial| <= s.block && s.kept == [] && s.delivered == []
    ensures Inv(s)
  {
    FourPlaces();
    assert Places(s) == [0, 1, 2, 3];
    assert Undelivered(s) == [];
  }

  lemma FourPlaces()
    ensures Partition([0, 1, 2, 3])
  {
  }

  lemma ResetInv(block: nat, buffers: seq<Block>)
    requires |buffers| == NUM_BUFFERS
    ensures Inv(Reset(block, buffers))
  {
    FreshInv(Reset(block, buffers));
  }

  lemma Rotated(a: nat, rest: seq<nat>)
    requires Partition([a] + rest)
    ensures Partition(rest + [a])
  {
    var was, now := [a] + rest, rest + [a];
    assert forall i :: 0 <= i < |rest| ==> now[i] == was[i + 1];
    assert now[|rest|] == was[0];
  }

  lemma OfferKeeps(s: State)
    requires Inv(s) && Enabled(s, Offer)
    ensures Inv(Offered(s))
  {
    var t := Offered(s);
    assert Places(t) == Places(s);
    if s.free != [] {
      assert Undelivered(t) == Undelivered(s) + [s.partial];
    }
  }

  lemma CopyKeeps(s: State)
    requires Inv(s) && Enabled(s, CopyBlock)
    ensures Inv(Step(s, CopyBlock))
  {
    var t := Step(s, CopyBlock);
    assert Places(t) == Places(s);
    PlacesAt(s);
    assert Undelivered(t) == Undelivered(s);
  }

  lemma PushKeeps(s: State)
    requires Inv(s) && Enabled(s, PushFilled)
    ensures Inv(Step(s, PushFilled))
  {
    var t := Step(s, PushFilled);
    assert Places(t) == Places(s);
    assert Undelivered(t) == Undelivered(s);
  }

  lemma TakeKeeps(s: State)
    requires Inv(s) && Enabled(s, TakeFilled)
    ensures Inv(Step(s, TakeFilled))
  {
    var t := Step(s, TakeFilled);
    assert Places(t) == Places(s);
    assert Undelivered(t) == Undelivered(s);
  }

  lemma DeliverKeeps(s: State)
    requires Inv(s) && Enabled(s, Deliver)
    ensures Inv(Step(s, Deliver))
  {
    var t := Step(s, Deliver);
    assert Places(t) == Places(s);
    assert Undelivered(s) == [s.buffers[s.cb.index]] + Undelivered(t);
  }

  lemma ReturnKeeps(s: State)
    requires Inv(s) && Enabled(s, ReturnFree)
    ensures Inv(Step(s, ReturnFree))
  {
    var t := Step(s, ReturnFree);
    var rest := s.filled + (if s.rx.HasBuffer? then [s.rx.index] else []) + s.free;
    assert Places(s) == [s.cb.index] + rest && Places(t) == rest + [s.cb.index];
    Rotated(s.cb.index, rest);
    assert Undelivered(t) == Undelivered(s);
  }

  lemma AssembleKeeps(s: State, e: Event)
    requires Inv(s) && Enabled(s, e) && (e.Receive? || e.Recover?)
    ensures Inv(Step(s, e))
  {
    var t := Step(s, e);
    assert Places(t) == Places(s);
    assert Undelivered(t) == Undelivered(s);
  }

  lemma StepKeeps(s: State, e: Event)
    requires Inv(s) && Enabled(s, e)
    ensures Inv(Step(s, e))
  {
    match e
    case Receive(_) => AssembleKeeps(s, e);
    case Recover => AssembleKeeps(s, e);
    case Offer => OfferKeeps(s);
    case CopyBlock => CopyKeeps(s);
    case PushFilled => PushKeeps(s);
    case TakeFilled => TakeKeeps(s);
    case Deliver => DeliverKeeps(s);
    case ReturnFree => ReturnKeeps(s);
  }

  ghost predicate Run(states: seq<State>, events: seq<Event>) {
    && |states| == |events| + 1
    && forall i {:trigger events[i]} :: 0 <= i < |events| ==> Enabled(states[i], events[i]) && states[i + 1] == Step(states[i], events[i])
  }

  lemma {:induction false} RunKeeps(states: seq<State>, events: seq<Event>, i: nat)
    requires Run(states, events) && Inv(states[0]) && i < |states|
    ensures Inv(states[i])
  {
    if i > 0 {
      RunKeeps(states, events, i - 1);
      StepKeeps(states[i - 1], events[i - 1]);
      assert states[i] == Step(states[i - 1], events[i - 1]);
    }
  }

  /** In every reachable state the four indices are each in exactly one place, and the callback's buffer is not being written. */
  lemma PoolIsPartitioned(states: seq<State>, events: seq<Event>, block: nat, buffers: seq<Block>, i: nat)
    requires |buffers| == NUM_BUFFERS && Run(states, events) && states[0] == Reset(block, buffers) && i < |states|
    ensures Partition(Places(states[i]))
    ensures states[i].cb.Reading? && states[i].rx.HasBuffer? ==> states[i].cb.index != states[i].rx.index
  {
    ResetInv(block, buffers);
    RunKeeps(states, events, i);
    PlacesAt(states[i]);
  }

  /** No step of the receive thread changes the buffer the callback is reading. */
  lemma ReadingIsStable(states: seq<State>, events: seq<Event>, block: nat, buffers: seq<Block>, i: nat)
    requires |buffers| == NUM_BUFFERS && Run(states, events) && states[0] == Reset(block, buffers) && i < |events|
    requires states[i].cb.Reading?
    ensures states[i].cb.index < NUM_BUFFERS == |states[i].buffers| == |states[i + 1].buffers|
    ensures states[i + 1].buffers[states[i].cb.index] == states[i].buffers[states[i].cb.index]
  {
    ResetInv(block, buffers);
    RunKeeps(states, events, i);
    PlacesAt(states[i]);
    assert Enabled(states[i], events[i]) && states[i + 1] == Step(states[i], events[i]);
  }

  /** Which blocks finished in the first k steps of a run found a free buffer. */
  function Flags(states: seq<State>, events: seq<Event>, k: nat): seq<bool>
    requires k <= |events| < |states|
  {
    if k == 0 then []
    else Flags(states, events, k - 1) + (if events[k - 1].Offer? then [states[k - 1].free != []] else [])
  }

  lemma SelectedAppend(blocks: seq<Block>, flags: seq<bool>, b: Block, f: bool)
    requires |blocks| == |flags|
    ensures Selected(blocks + [b], flags + [f]) == Selected(blocks, flags) + (if f then [b] else [])
  {
    assert (blocks + [b])[..|blocks|] == blocks && (flags + [f])[..|flags|] == flags;
  }

  /** A block is kept exactly when a buffer was free as it was finished, and kept blocks stay in order. */
  lemma {:induction false} KeptAreSelected(states: seq<State>, events: seq<Event>, block: nat, buffers: seq<Block>, k: nat)
    requires Run(states, events) && states[0] == Reset(block, buffers) && k <= |events|
    ensures |Flags(states, events, k)| == |states[k].assembled|
    ensures states[k].kept == Selected(states[k].assembled, Flags(states, events, k))
  {
    if k > 0 {
      var s, e := states[k - 1], events[k - 1];
      KeptAreSelected(states, events, block, buffers, k - 1);
      assert Enabled(s, e) && states[k] == Step(s, e);
      if e.Offer? {
        SelectedAppend(s.assembled, Flags(states, events, k - 1), s.partial, s.free != []);
      } else {
        assert Flags(states, events, k) == Flags(states, events, k - 1);
      }
    }
  }

  /** Blocks one behind the other. */
  function Flat(blocks: seq<Block>): Block {
    if blocks == [] then [] else Flat(blocks[..|blocks| - 1]) + blocks[|blocks| - 1]
  }

  /** With blocks of one length, block j is what follows j * block samples. */
  lemma FlatAt(blocks: seq<Block>, block: nat, j: nat)
    requires (forall b :: b in blocks ==> |b| == block) && j < |blocks|
    ensures |Flat(blocks[..j])| == j * block && Flat(blocks[..j]) + blocks[j] <= Flat(blocks)
  {
    FlatLength(blocks[..j], block);
    FlatAppend(blocks[..j], blocks[j]);
    assert blocks[..j] + [blocks[j]] == blocks[..j + 1];
    FlatPrefix(blocks, j + 1);
  }

  lemma {:induction false} FlatPrefix(blocks: seq<Block>, k: nat)
    requires k <= |blocks|
    ensures Flat(blocks[..k]) <= Flat(blocks)
  {
    if k == |blocks| {
      assert blocks[..k] == blocks;
    } else {
      var front := blocks[..|blocks| - 1];
      FlatPrefix(front, k);
      assert front[..k] == blocks[..k];
    }
  }

  lemma {:induction false} FlatLength(blocks: seq<Block>, block: nat)
    requires forall b :: b in blocks ==> |b| == block
    ensures |Flat(blocks)| == |blocks| * block
  {
    if blocks != [] {
      var front, last := blocks[..|blocks| - 1], blocks[|blocks| - 1];
      assert last in blocks && forall b :: b in front ==> b in blocks;
      FlatLength(front, block);
      OneMoreBlock(|Flat(front)|, |front|, block);
      assert |Flat(blocks)| == |Flat(front)| + block;
    }
  }

  lemma OneMoreBlock(length: nat, n: nat, block: nat)
    requires length == n * block
    ensures length + block == (n + 1) * block
  {
  }

  /** What is assembled of the block to come. */
  function Tail(s: State): Block {
    if s.rx.Assembling? then s.partial else []
  }

  /** The samples received in the first k steps, in order, without the partial blocks that a recovery threw away. */
  function Heard(states: seq<State>, events: seq<Event>, k: nat): Block
    requires k <= |events| < |states|
  {
    if k == 0 then []
    else
      var before, lost := Heard(states, events, k - 1), |states[k - 1].partial|;
      HeardMore(before, events[k - 1], lost)
  }

  function HeardMore(before: Block, e: Event, lost: nat): Block {
    match e
    case Receive(chunk) => before + chunk
    case Recover => if lost <= |before| then before[..|before| - lost] else []
    case _ => before
  }

  lemma FlatAppend(blocks: seq<Block>, b: Block)
    ensures Flat(blocks + [b]) == Flat(blocks) + b
  {
    assert (blocks + [b])[..|blocks|] == blocks;
  }

  /** Blocks of the full length; with what is assembled of the next one they spell these samples. */
  ghost predicate Spells(s: State, heard: Block) {
    && Flat(s.assembled) + Tail(s) == heard
    && forall b :: b in s.assembled ==> |b| == s.block
  }

  lemma ReceiveSpells(s: State, chunk: Block, heard: Block)
    requires Enabled(s, Receive(chunk)) && Spells(s, heard)
    ensures Spells(Step(s, Receive(chunk)), heard + chunk)
  {
    hide Flat;
    assert Flat(s.assembled) + s.partial + chunk == Flat(s.assembled) + (s.partial + chunk);
  }

  lemma RecoverSpells(s: State, heard: Block)
    requires Enabled(s, Recover) && Spells(s, heard)
    ensures |s.partial| <= |heard| && Spells(Step(s, Recover), heard[..|heard| - |s.partial|])
  {
    hide Flat;
    assert Flat(s.assembled) + [] == Flat(s.assembled) == heard[..|heard| - |s.partial|];
  }

  lemma OfferSpells(s: State, heard: Block)
    requires Enabled(s, Offer) && Spells(s, heard)
    ensures Spells(Offered(s), heard)
  {
    hide Flat;
    FlatAppend(s.assembled, s.partial);
    var t := Offered(s);
    assert t.assembled == s.assembled + [s.partial] && Tail(t) == [];
    assert heard + [] == heard;
  }

  lemma StepSpells(s: State, e: Event, heard: Block)
    requires Enabled(s, e) && Spells(s, heard)
    ensures Spells(Step(s, e), HeardMore(heard, e, |s.partial|)) && Step(s, e).block == s.block
  {
    hide Flat;
    match e
    case Receive(chunk) => ReceiveSpells(s, chunk, heard);
    case Recover => RecoverSpells(s, heard);
    case Offer => OfferSpells(s, heard);
    case _ => assert Step(s, e).assembled == s.assembled && Tail(Step(s, e)) == Tail(s);
  }

  lemma ResetSpells(block: nat, buffers: seq<Block>)
    ensures Spells(Reset(block, buffers), []) && Reset(block, buffers).block == block
  {
  }

  /** The finished blocks and the partial one are exactly the samples received, in order, cut every `block` entries. */
  lemma {:induction false} BlocksAreSamples(states: seq<State>, events: seq<Event>, block: nat, buffers: seq<Block>, k: nat)
    requires Run(states, events) && states[0] == Reset(block, buffers) && k <= |events|
    ensures Spells(states[k], Heard(states, events, k)) && states[k].block == block
  {
    hide Spells, Step, HeardMore, Enabled;
    if k == 0 {
      ResetSpells(block, buffers);
    } else {
      var s, e, heard := states[k - 1], events[k - 1], Heard(states, events, k - 1);
      BlocksAreSamples(states, events, block, buffers, k - 1);
      assert Enabled(s, e) && states[k] == Step(s, e);
      StepSpells(s, e, heard);
    }
  }

  lemma {:induction false} SelectedIn(blocks: seq<Block>, flags: seq<bool>, b: Block)
    requires |blocks| == |flags| && b in Selected(blocks, flags)
    ensures b in blocks
  {
    var k := |blocks| - 1;
    if b in Selected(blocks[..k], flags[..k]) {
      SelectedIn(blocks[..k], flags[..k], b);
    }
  }

  /**
   * Callbacks see whole blocks of the received samples, in order, each once: those for which a buffer was free as they were
   * finished, but for at most four that still wait.
   */
  lemma CallbacksSeeKeptBlocks(states: seq<State>, events: seq<Event>, block: nat, buffers: seq<Block>, i: nat)
    requires |buffers| == NUM_BUFFERS && Run(states, events) && states[0] == Reset(block, buffers) && i <= |events|
    ensures var s, flags := states[i], Flags(states, events, i);
            && Flat(s.assembled) + Tail(s) == Heard(states, events, i)
            && |flags| == |s.assembled| && s.delivered <= Selected(s.assembled, flags)
            && |Selected(s.assembled, flags)| <= |s.delivered| + NUM_BUFFERS
            && forall b :: b in s.delivered ==> |b| == block
  {
    var s, flags := states[i], Flags(states, events, i);
    ResetInv(block, buffers);
    RunKeeps(states, events, i);
    KeptAreSelected(states, events, block, buffers, i);
    BlocksAreSamples(states, events, block, buffers, i);
    DeliveredFirst(s);
    forall b | b in s.delivered ensures |b| == block {
      SelectedIn(s.assembled, flags, b);
    }
  }

  lemma DeliveredFirst(s: State)
    requires Inv(s)
    ensures s.delivered <= s.kept && |s.kept| <= |s.delivered| + NUM_BUFFERS
  {
  }

  /** The plug-in's callback state. Each method is what one thread does; the queues are behind cb_mutex. */
  class Pool {
    var state: State

    constructor (block: nat, buffers: seq<Block>)
      requires |buffers| == NUM_BUFFERS
      ensures state.block == block && state.buffers == buffers && state.cb.Waiting? && state.rx.Assembling?
    {
      state := State(block, buffers, [], [], Assembling, Cb.Waiting, [], [], [], []);
    }

    /** The reset in start_cb_thread, with no index held by a thread: empty both queues, then every index is free. */
    method ResetQueues()
      requires |state.buffers| == NUM_BUFFERS && state.cb.Waiting? && state.rx.Assembling? && |state.partial| <= state.block
      modifies this
      ensures Inv(state) && state.free == [0, 1, 2, 3] && state.filled == [] && state.partial == old(state.partial)
      ensures state.kept == [] && state.delivered == [] && state.block == old(state.block)
    {
      var free, filled := state.free, state.filled;
      while free != []
        decreases |free|
      {
        free := free[1..];
      }
      while filled != []
        decreases |filled|
      {
        filled := filled[1..];
      }
      for i := 0 to NUM_BUFFERS
        invariant free == [0, 1, 2, 3][..i]
      {
        free := free + [i];
      }
      state := state.(free := free, filled := filled, assembled := [], kept := [], delivered := []);
      FreshInv(state);
    }

    /** A turn of rx_worker that received something: assemble, and offer the block when it is full. */
    method RxTurn(received: Block)
      requires Inv(state) && state.rx.Assembling? && |state.partial| < state.block && received != []
      modifies this
      ensures Inv(state) && state.rx.Assembling? && |state.partial| < state.block
      ensures var room := old(state.block) - |old(state.partial)|;
              var all := old(state.partial) + (if |received| > room then received[..room] else received);
              var free := old(state.free);
              && state.cb == old(state.cb) && state.delivered == old(state.delivered) && state.block == old(state.block)
              && if |all| < state.block then state == old(state).(partial := all)
                 else
                   && state.partial == [] && state.assembled == old(state.assembled) + [all]
                   && if free == [] then state.kept == old(state.kept) && state.filled == old(state.filled) && state.free == []
                      else
                        && state.kept == old(state.kept) + [all] && state.filled == old(state.filled) + [free[0]]
                        && state.free == free[1..] && free[0] < |state.buffers| && state.buffers[free[0]] == all
    {
      var taken := if |received| > state.block - |state.partial| then received[..state.block - |state.partial|] else received;
      StepKeeps(state, Receive(taken));
      state := Step(state, Receive(taken));
      if |state.partial| < state.block {
        return;
      }
      OfferKeeps(state);
      state := Offered(state);
      if state.rx.HasBuffer? {
        PlacesAt(state);
        CopyKeeps(state);
        state := Step(state, CopyBlock);
        PushKeeps(state);
        state := Step(state, PushFilled);
      }
    }

    /** A turn of callback_worker: the buffer it hands on holds the oldest kept block not yet delivered. */
    method CallbackTurn() returns (block: Block)
      requires Inv(state) && state.cb.Waiting? && state.filled != []
      modifies this
      ensures Inv(state) && state.cb.Waiting? && state.kept == old(state.kept)
      ensures state.delivered == old(state.delivered) + [block] && state.delivered <= state.kept
      ensures state.filled == old(state.filled)[1..] && state.free == old(state.free) + [old(state.filled)[0]]
      ensures old(state.filled)[0] < |state.buffers| && block == state.buffers[old(state.filled)[0]] && state.buffers == old(state.buffers)
    {
      TakeKeeps(state);
      state := Step(state, TakeFilled);
      PlacesAt(state);
      DeliverKeeps(state);
      block := state.buffers[state.cb.index];
      state := Step(state, Deliver);
      ReturnKeeps(state);
      state := Step(state, ReturnFree);
    }
  }
}
