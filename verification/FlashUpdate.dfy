/**
 * The M300 Flash update: erase, program, read back, verify, reload. The board is a state machine of its own: its Flash engine
 * takes up one command at a time and makes any number of steps before each access of the updater, any of which may fail with or
 * without having been carried out. Beside its memory it records which blocks have been erased and programmed, so that safety can
 * be told of every path; and every access and command is kept, so that a failure can be told by its cause and by what it left.
 */
module FlashUpdate {
  import opened M300Protocol
  import opened Options

  const ONLINE_BYTES: nat := 0x100_0000
  const BLOCK: nat := 65536
  const CHUNK: nat := 4096
  const FLASH_READ_SID: nat := 0xf1

  /** What the Flash engine can be doing; Finish is programming after the stop command. */
  datatype Op = Erase(block: nat) | Program(pos: nat) | Finish(pos: nat) | Read(addr: nat, bytes: nat)

  /** A command waits in the queue until the engine takes it up; only then is the engine busy. */
  datatype Engine = Idle | Queued(op: Op) | Running(op: Op)

  /**
   * The board. The done bits keep their value until the next command of their kind is taken up. erased records the
   * blocks whose erase commands of a run have completed, programmed the blocks that have been written to.
   */
  datatype Device = Device(memory: seq<byte>, mode: bool, engine: Engine, eraseAddr: nat, fifo: seq<byte>, eraseDone: bool,
                           chunkDone: bool, readDone: bool, packet: Option<seq<byte>>, erased: set<nat>, programmed: set<nat>)

  /** Commands the updater sends through the control channel. */
  datatype Command =
    | SetMode(on: bool) | ConfigureErase(addr: nat, blocks: nat) | StartErase | StartProgram(addr: nat) | StopProgram
    | AckChunk | StartRead(addr: nat, bytes: nat) | Multiboot(addr: nat) | StopRx | GetVersion

  /** Programming stores the byte where it is erased, and can only make it less elsewhere. */
  function ClearBits(was: byte, data: byte): (r: byte)
    ensures was == 255 ==> r == data
  {
    if was == 255 then data else if data < was then data else was
  }

  function WriteChunk(memory: seq<byte>, pos: nat, data: seq<byte>): (m: seq<byte>)
    requires pos + |data| <= |memory|
    ensures |m| == |memory|
  {
    memory[..pos] + seq(|data|, k requires 0 <= k < |data| => ClearBits(memory[pos + k], data[k])) + memory[pos + |data|..]
  }

  function FillBlock(memory: seq<byte>, block: nat): (m: seq<byte>)
    requires (block + 1) * BLOCK <= |memory|
    ensures |m| == |memory|
  {
    memory[..block * BLOCK] + seq(BLOCK, k => 255) + memory[(block + 1) * BLOCK..]
  }

  /** A Flash read's answer: header, address, bytes. */
  function ReadPacket(memory: seq<byte>, addr: nat, bytes: nat): seq<byte>
    requires addr + bytes <= |memory|
  {
    Le(Raw(Header(MAGIC_RX, 0, FLASH_READ_SID, HEADER_BYTES + bytes)), 8) + Le(addr, 8) + memory[addr..addr + bytes]
  }

  /** One step of the engine on its own. Ranges outside the memory leave it as it is. */
  function Step(d: Device): Device {
    match d.engine
    case Idle => d
    case Queued(op) =>
      d.(engine := Running(op), eraseDone := d.eraseDone && !op.Erase?, readDone := d.readDone && !op.Read?)
    case Running(Erase(block)) =>
      d.(engine := Idle, eraseDone := true, erased := d.erased + {block},
         memory := if (block + 1) * BLOCK <= |d.memory| then FillBlock(d.memory, block) else d.memory)
    case Running(Program(pos)) =>
      if |d.fifo| >= CHUNK && pos + CHUNK <= |d.memory| then Written(d, pos).(engine := Running(Program(pos + CHUNK))) else d
    case Running(Finish(pos)) =>
      if |d.fifo| >= CHUNK && pos + CHUNK <= |d.memory| then Written(d, pos).(engine := Running(Finish(pos + CHUNK))) else d.(engine := Idle)
    case Running(Read(addr, bytes)) =>
      d.(engine := Idle, readDone := true,
         packet := if addr + bytes <= |d.memory| then Some(ReadPacket(d.memory, addr, bytes)) else None)
  }

  /** A chunk goes from the FIFO to the Flash. */
  function Written(d: Device, pos: nat): Device
    requires |d.fifo| >= CHUNK && pos + CHUNK <= |d.memory|
  {
    d.(memory := WriteChunk(d.memory, pos, d.fifo[..CHUNK]), fifo := d.fifo[CHUNK..], chunkDone := true,
       programmed := d.programmed + {pos / BLOCK})
  }

  function Steps(d: Device, n: nat): Device
    decreases n
  {
    if n == 0 then d else Step(Steps(d, n - 1))
  }

  lemma {:induction false} StepsCompose(d: Device, a: nat, b: nat)
    ensures Steps(Steps(d, a), b) == Steps(d, a + b)
    decreases b
  {
    hide Step;
    if b > 0 {
      StepsCompose(d, a, b - 1);
      LastStep(Steps(d, a), b);
      LastStep(d, a + b);
    }
  }

  lemma LastStep(d: Device, n: nat)
    requires n > 0
    ensures Steps(d, n) == Step(Steps(d, n - 1))
  {
  }

  /** The engine has a program command, waiting or running, that was not stopped. */
  predicate Programs(d: Device) {
    !d.engine.Idle? && d.engine.op.Program?
  }

  /** The update mode is as it was, and so is whether the engine programs. */
  predicate Kept(d: Device, e: Device) {
    e.mode == d.mode && Programs(e) == Programs(d)
  }

  /** On its own the engine neither leaves the update mode nor begins or ends to program. */
  lemma {:induction false} StepsKeep(d: Device, n: nat)
    ensures Kept(d, Steps(d, n))
    decreases n
  {
    if n > 0 {
      StepsKeep(d, n - 1);
    }
  }

  /** e is d some engine steps later. */
  ghost predicate Later(d: Device, e: Device) {
    Kept(d, e) && exists n: nat {:trigger Steps(d, n)} :: e == Steps(d, n)
  }

  lemma LaterStill(d: Device, e: Device, f: Device)
    requires Later(d, e) && Later(e, f)
    ensures Later(d, f)
  {
    var a: nat :| e == Steps(d, a);
    var b: nat :| f == Steps(e, b);
    StepsCompose(d, a, b);
  }

  lemma LaterNow(d: Device)
    ensures Later(d, d)
  {
    assert d == Steps(d, 0);
  }

  lemma {:induction false} IdleStays(d: Device, n: nat)
    requires d.engine.Idle?
    ensures Steps(d, n) == d
    decreases n
  {
    if n > 0 {
      IdleStays(d, n - 1);
    }
  }

  lemma QuietLater(d: Device, e: Device)
    requires Later(d, e) && d.engine.Idle?
    ensures e == d
  {
    var n: nat :| e == Steps(d, n);
    IdleStays(d, n);
  }

  /** What a command does to the board. */
  function Apply(d: Device, c: Command): Device {
    match c
    case SetMode(on) => d.(mode := on)
    case ConfigureErase(addr, blocks) => d.(eraseAddr := addr)
    case StartErase => d.(engine := Queued(Erase(d.eraseAddr / BLOCK)))
    case StartProgram(addr) => d.(engine := Queued(Program(addr)))
    case StopProgram => if d.engine.Idle? || !d.engine.op.Program? then d else d.(engine := Running(Finish(d.engine.op.pos)))
    case AckChunk => d.(chunkDone := false)
    case StartRead(addr, bytes) => d.(engine := Queued(Read(addr, bytes)), packet := None)
    case _ => d
  }

  /** The guards of the controller. */
  predicate Guarded(c: Command) {
    match c
    case ConfigureErase(addr, blocks) => blocks != 0 && addr % BLOCK == 0 && addr + blocks * BLOCK <= ONLINE_BYTES
    case StartProgram(addr) => addr % 256 == 0 && addr <= ONLINE_BYTES - 256
    case StartRead(addr, bytes) => bytes != 0 && addr + bytes <= ONLINE_BYTES
    case Multiboot(addr) => addr % 256 == 0 && addr < 0x200_0000
    case _ => true
  }

  datatype Reason = Guard | Control | TimedOut | NotInMode | BadPacket | Overflow | SizeMismatch | VerifyFailed | TooLarge

  datatype Outcome = Done | Threw(reason: Reason)

  /**
   * How one access to the board goes: the engine makes some steps first, the access may fail, a failed command may have
   * been carried out all the same, and a stray packet may come instead of the board's own.
   */
  datatype Access = Access(steps: nat, ok: bool, applied: bool, overflow: bool, stray: Option<seq<byte>>)

  /** A stray packet is left over from a receive session: it does not carry the Flash read's stream id. */
  type Env = e: Access |
      e.stray.Some? ==> |e.stray.value| < HEADER_BYTES || ParseRaw(Load(e.stray.value[..8])).sid != FLASH_READ_SID
    witness Access(0, false, false, false, None)

  /** What became of a command: not sent, sent without an answer but perhaps carried out, or answered. */
  datatype Fate = Unsent | Lost(applied: bool) | Answered {
    predicate Applied() {
      Answered? || (Lost? && applied)
    }
  }

  /** What becomes of the next command. */
  function FateOf(script: seq<Env>): (f: Fate)
    ensures !f.Unsent?
  {
    if script == [] then Lost(false) else if script[0].ok then Answered else Lost(script[0].applied)
  }

  /** The accesses after the next one. */
  function Rest(script: seq<Env>): seq<Env> {
    if script == [] then [] else script[1..]
  }

  // ---- Why a run can fail ----

  /** A reason of the image's or the caller's own: the readback could not be saved, or what was only to be verified is not the image. */
  predicate Excused(r: Outcome, verifyOnly: bool, saved: bool) {
    (r == Threw(Control) && !saved) || (r == Threw(VerifyFailed) && verifyOnly)
  }

  /** What is left of the accesses is the end of what there was. */
  ghost predicate Rests(before: seq<Env>, after: seq<Env>) {
    |after| <= |before| && after == before[|before| - |after|..]
  }

  /** Some access fails; some read of the status shows an overflow; a stray packet comes; the board is slow to answer. */
  ghost predicate Fails(script: seq<Env>) {
    exists i :: 0 <= i < |script| && !script[i].ok
  }

  ghost predicate Overflows(script: seq<Env>) {
    exists i :: 0 <= i < |script| && script[i].overflow
  }

  ghost predicate Strays(script: seq<Env>) {
    exists i :: 0 <= i < |script| && script[i].stray.Some?
  }

  ghost predicate Slow(script: seq<Env>) {
    exists i :: 0 <= i < |script| && script[i].steps < 2
  }

  /** A failure in these accesses has its cause in them: in one of them, or in that they have run out. */
  ghost predicate Caused(r: Outcome, before: seq<Env>, after: seq<Env>) {
    && Rests(before, after)
    && (r.Threw? ==>
          match r.reason
          case Control => Fails(before) || after == []
          case TimedOut => Slow(before) || after == []
          case BadPacket => Strays(before)
          case Overflow => Overflows(before)
          case _ => false)
  }

  lemma RestsStill(a: seq<Env>, b: seq<Env>, c: seq<Env>)
    requires Rests(a, b) && Rests(b, c)
    ensures Rests(a, c)
  {
  }

  lemma RestsNow(a: seq<Env>)
    ensures Rests(a, a)
  {
  }

  lemma WithinRest(a: seq<Env>, b: seq<Env>)
    requires Rests(a, b)
    ensures (Fails(b) ==> Fails(a)) && (Overflows(b) ==> Overflows(a)) && (Strays(b) ==> Strays(a)) && (Slow(b) ==> Slow(a))
  {
    var n := |a| - |b|;
    assert forall i :: 0 <= i < |b| ==> b[i] == a[n + i];
    if Fails(b) {
      var i :| 0 <= i < |b| && !b[i].ok;
      assert !a[n + i].ok;
    }
    if Overflows(b) {
      var i :| 0 <= i < |b| && b[i].overflow;
      assert a[n + i].overflow;
    }
    if Strays(b) {
      var i :| 0 <= i < |b| && b[i].stray.Some?;
      assert a[n + i].stray.Some?;
    }
    if Slow(b) {
      var i :| 0 <= i < |b| && b[i].steps < 2;
      assert a[n + i].steps < 2;
    }
  }

  /** The cause of a later part's failure is a cause in the whole. */
  lemma CausedLater(r: Outcome, a: seq<Env>, b: seq<Env>, c: seq<Env>)
    requires Rests(a, b) && Caused(r, b, c)
    ensures Caused(r, a, c)
  {
    hide Fails, Overflows, Strays, Slow;
    WithinRest(a, b);
  }

  lemma CausedMeans(r: Outcome, a: seq<Env>, b: seq<Env>)
    requires Caused(r, a, b)
    ensures Rests(a, b) && r != Threw(VerifyFailed)
  {
  }

  lemma LaterCause(r: Outcome, a: seq<Env>, b: seq<Env>, c: seq<Env>)
    requires Rests(a, b) && Rests(b, c)
    ensures Rests(a, c) && (Caused(r, b, c) ==> Caused(r, a, c))
  {
    if Caused(r, b, c) {
      CausedLater(r, a, b, c);
    }
    RestsStill(a, b, c);
  }

  lemma EarlierCause(r: Outcome, a: seq<Env>, b: seq<Env>, c: seq<Env>)
    requires Rests(a, b) && Rests(b, c)
    ensures Caused(r, a, b) ==> Caused(r, a, c)
  {
    if Caused(r, a, b) {
      CausedBefore(r, a, b, c);
    }
  }

  /** So is one in an earlier part, if nothing is left for the clean-up or what it does is no failure. */
  lemma CausedBefore(r: Outcome, a: seq<Env>, b: seq<Env>, c: seq<Env>)
    requires Caused(r, a, b) && Rests(b, c)
    ensures Caused(r, a, c)
  {
    hide Fails, Overflows, Strays, Slow;
  }

  // ---- A board that answers ----

  /** Accesses that succeed, the engine making one step or two before each. */
  const TICK: Env := Access(1, true, true, false, None)
  const LONG: Env := Access(2, true, true, false, None)

  /** The next n accesses are of that kind. */
  ghost predicate Ticking(script: seq<Env>, n: nat) {
    n <= |script| && forall i :: 0 <= i < n ==> script[i] == TICK
  }

  lemma TickingRest(script: seq<Env>, a: nat, b: nat)
    requires Ticking(script, a + b)
    ensures Ticking(script, a) && Ticking(script[a..], b)
  {
  }

  lemma AllThere(script: seq<Env>, n: nat)
    requires Ticking(script, n)
    ensures n <= |script| && script[0..] == script
  {
  }

  /** The three accesses of turn c out of n. */
  lemma NextTicks(script: seq<Env>, c: nat, n: nat)
    requires Ticking(script, 3 * n) && c < n
    ensures 3 * c + 3 <= |script| && Ticking(script[3 * c..], 3) && script[3 * c..][3..] == script[3 * (c + 1)..]
  {
  }

  lemma ProgramTicks(script: seq<Env>, n: nat)
    requires Ticking(script, n + 4)
    ensures n + 4 <= |script| && script[0] == TICK && Ticking(script[1..], n) && Ticking(script[1..][n..], 3) && script[1..][n..][3..] == script[n + 4..]
  {
  }

  /** The accesses of n chunks read back: the command, the packet two steps later, and the status. */
  ghost predicate ReadsWell(script: seq<Env>, n: nat) {
    3 * n <= |script| && forall i: nat {:trigger script[3 * i]} :: i < n ==> ReadWell(script[3 * i], script[3 * i + 1], script[3 * i + 2])
  }

  predicate ReadWell(a: Env, b: Env, c: Env) {
    a == TICK && b == LONG && c == TICK
  }

  lemma NextRead(script: seq<Env>, c: nat, n: nat)
    requires ReadsWell(script, n) && c < n
    ensures var rest := script[3 * c..]; |rest| >= 3 && ReadWell(rest[0], rest[1], rest[2]) && rest[3..] == script[3 * (c + 1)..]
  {
    assert ReadWell(script[3 * c], script[3 * c + 1], script[3 * c + 2]);
  }

  lemma ReadsThere(script: seq<Env>, n: nat)
    requires ReadsWell(script, n)
    ensures 3 * n <= |script| && script[0..] == script
  {
  }

  /** Chunks that cover so many bytes. */
  function Chunks(bytes: nat): nat {
    (bytes + 4095) / 4096
  }

  /** The accesses of the part between the update mode and the end. */
  ghost predicate UpdateWorks(script: seq<Env>, bytes: nat, verifyOnly: bool) {
    var ticks := UpdateTicks(bytes, verifyOnly);
    Ticking(script, ticks) && ReadsWell(script[ticks..], Chunks(bytes))
  }

  /** Four accesses for each erased block, three for each programmed chunk, and four more. */
  function UpdateTicks(bytes: nat, verifyOnly: bool): nat {
    if verifyOnly then 0 else 4 * EraseBlockCount(4096 * Chunks(bytes)) + 3 * Chunks(bytes) + 4
  }

  function UpdateLength(bytes: nat, verifyOnly: bool): nat {
    UpdateTicks(bytes, verifyOnly) + 3 * Chunks(bytes)
  }

  /**
   * A board that works, for an image of so many bytes: four accesses into the update mode, those of the update, one out of the
   * mode, and one for the reload.
   */
  ghost predicate Works(script: seq<Env>, bytes: nat, verifyOnly: bool, reload: bool) {
    && Ticking(script, 4) && UpdateWorks(script[4..], bytes, verifyOnly)
    && Ticking(script[4..][UpdateLength(bytes, verifyOnly)..], if reload then 2 else 1)
  }

  lemma UpdateParts(script: seq<Env>, bytes: nat, verifyOnly: bool)
    requires UpdateWorks(script, bytes, verifyOnly)
    ensures var ticks := if verifyOnly then 0 else 4 * EraseBlockCount(4096 * Chunks(bytes)) + 3 * (4096 * Chunks(bytes) / CHUNK) + 4;
            && Ticking(script, ticks) && ReadsWell(script[ticks..], Chunks(bytes)) && (verifyOnly ==> script[ticks..] == script)
            && script[ticks..][3 * Chunks(bytes)..] == script[UpdateLength(bytes, verifyOnly)..]
  {
    DropMore(script, UpdateTicks(bytes, verifyOnly), 3 * Chunks(bytes));
  }

  /** There is such a board, for every image. */
  lemma SomeBoardWorks(bytes: nat, verifyOnly: bool, reload: bool) returns (script: seq<Env>)
    ensures Works(script, bytes, verifyOnly, reload)
  {
    hide UpdateTicks, Chunks, ReadsWell, Ticking;
    var ticks, n := UpdateTicks(bytes, verifyOnly), Chunks(bytes);
    var rest := Ticks(ticks) + (Reads(n) + Ticks(2));
    script := Ticks(4) + rest;
    TickingAhead(4, rest);
    TickingAhead(ticks, Reads(n) + Ticks(2));
    ReadsAhead(n, Ticks(2));
    DropMore(rest, ticks, 3 * n);
    TickingFewer(Ticks(2));
  }

  lemma TickingAhead(n: nat, more: seq<Env>)
    ensures Ticking(Ticks(n) + more, n) && (Ticks(n) + more)[n..] == more
  {
  }

  lemma ReadsAhead(n: nat, more: seq<Env>)
    ensures ReadsWell(Reads(n) + more, n) && (Reads(n) + more)[3 * n..] == more
  {
    var all := Reads(n) + more;
    forall i: nat | i < n ensures ReadWell(all[3 * i], all[3 * i + 1], all[3 * i + 2]) {
    }
  }

  lemma TickingFewer(script: seq<Env>)
    requires Ticking(script, 2)
    ensures Ticking(script, 1)
  {
  }

  function Reads(n: nat): (script: seq<Env>)
    ensures |script| == 3 * n
  {
    seq(3 * n, (i: nat) => if i % 3 == 1 then LONG else TICK)
  }

  function Ticks(n: nat): (script: seq<Env>)
    ensures Ticking(script, n) && |script| == n
  {
    seq(n, (i: nat) => TICK)
  }

  lemma DropMore(script: seq<Env>, a: nat, b: nat)
    requires a + b <= |script|
    ensures script[a..][b..] == script[a + b..]
  {
  }

  /** The status register. */
  datatype Status = Status(mode: bool, busy: bool, eraseDone: bool, chunkDone: bool, readDone: bool, overflow: bool)

  function StatusOf(d: Device, overflow: bool): Status {
    Status(d.mode, d.engine.Running?, d.eraseDone, d.chunkDone, d.readDone, overflow)
  }

  /** While the erase of a block of this memory is under way: not taken up yet, taken up and its done bit cleared, or over and recorded. */
  ghost predicate Erasing(d: Device, memory: seq<byte>, block: nat, takenUp: bool) {
    && (block + 1) * BLOCK <= |memory|
    && match d.engine
       case Queued(op) => !takenUp && op == Erase(block) && d.memory == memory
       case Running(op) => op == Erase(block) && !d.eraseDone && d.memory == memory
       case Idle => block in d.erased && d.memory == FillBlock(memory, block)
  }

  /** What an erase leaves alone. */
  datatype Record = Record(size: nat, mode: bool, fifo: seq<byte>, programmed: set<nat>)

  function RecordOf(d: Device): Record {
    Record(|d.memory|, d.mode, d.fifo, d.programmed)
  }

  ghost predicate SameRecords(d: Device, e: Device) {
    RecordOf(e) == RecordOf(d) && d.erased <= e.erased
  }

  lemma StillSame(d: Device, e: Device, f: Device)
    requires SameRecords(d, e) && SameRecords(e, f)
    ensures SameRecords(d, f)
  {
  }

  lemma EraseStep(d: Device, memory: seq<byte>, block: nat, takenUp: bool)
    requires Erasing(d, memory, block, takenUp)
    ensures Erasing(Step(d), memory, block, takenUp) && SameRecords(d, Step(d))
  {
    hide FillBlock;
  }

  lemma {:induction false} EraseGoesOn(d: Device, n: nat, memory: seq<byte>, block: nat, takenUp: bool)
    requires Erasing(d, memory, block, takenUp)
    ensures Erasing(Steps(d, n), memory, block, takenUp) && SameRecords(d, Steps(d, n))
    decreases n
  {
    hide Erasing, Step;
    if n > 0 {
      EraseGoesOn(d, n - 1, memory, block, takenUp);
      EraseStep(Steps(d, n - 1), memory, block, takenUp);
      StillSame(d, Steps(d, n - 1), Steps(d, n));
    }
  }

  lemma EraseLater(d: Device, e: Device, memory: seq<byte>, block: nat, takenUp: bool)
    requires Erasing(d, memory, block, takenUp) && Later(d, e)
    ensures Erasing(e, memory, block, takenUp) && SameRecords(d, e)
  {
    var n: nat :| e == Steps(d, n);
    EraseGoesOn(d, n, memory, block, takenUp);
  }

  /** The first n blocks are erased, and nothing behind them has changed. */
  ghost predicate ErasedUpTo(memory: seq<byte>, before: seq<byte>, n: nat) {
    && n * BLOCK <= |before| == |memory|
    && (forall i {:trigger memory[i]} :: 0 <= i < n * BLOCK ==> memory[i] == 0xff) && memory[n * BLOCK..] == before[n * BLOCK..]
  }

  lemma NoneErased(memory: seq<byte>)
    ensures ErasedUpTo(memory, memory, 0)
  {
  }

  lemma OneMoreErased(memory: seq<byte>, before: seq<byte>, n: nat)
    requires ErasedUpTo(memory, before, n) && (n + 1) * BLOCK <= |before|
    ensures ErasedUpTo(FillBlock(memory, n), before, n + 1)
  {
    var m, end := FillBlock(memory, n), (n + 1) * BLOCK;
    forall i {:trigger m[i]} | 0 <= i < end ensures m[i] == 0xff {
      if i < n * BLOCK {
        assert m[i] == memory[i];
      }
    }
    assert m[end..] == memory[end..] == before[end..] by {
      assert memory[end..] == memory[n * BLOCK..][BLOCK..] && before[end..] == before[n * BLOCK..][BLOCK..];
    }
  }

  /** A block after another: once a block is erased, the request for the next one finds the done bit set, and the new block is not erased. */
  lemma StaleDoneBit(d: Device, block: nat)
    requires d.engine.Idle? && block + 1 !in d.erased
    ensures var one := Steps(Apply(Apply(d, ConfigureErase(block * BLOCK, 1)), StartErase), 2);
            var two := Apply(Apply(one, ConfigureErase((block + 1) * BLOCK, 1)), StartErase);
            && one.engine.Idle? && one.erased == d.erased + {block}
            && StatusOf(two, false).eraseDone && !StatusOf(two, false).busy
            && two.engine == Queued(Erase(block + 1)) && block + 1 !in two.erased
  {
    var asked := Apply(Apply(d, ConfigureErase(block * BLOCK, 1)), StartErase);
    LastStep(asked, 2);
    LastStep(asked, 1);
  }

  /** Blocks 0 .. n - 1 are erased by commands of this run. */
  ghost predicate Covered(erased: set<nat>, n: nat) {
    forall b: nat :: b < n ==> b in erased
  }

  /** While `sent` bytes, whole chunks, have gone to the FIFO: where the engine writes is behind them, in erased blocks. */
  ghost predicate Writing(d: Device, sent: nat, blocks: nat) {
    && |d.memory| == ONLINE_BYTES && sent <= blocks * BLOCK <= ONLINE_BYTES && d.programmed <= d.erased && Covered(d.erased, blocks)
    && |d.fifo| % CHUNK == 0
    && if d.engine.Idle? then d.fifo == [] else (d.engine.op.Program? || d.engine.op.Finish?) && d.engine.op.pos + |d.fifo| == sent
  }

  lemma BlockOf(pos: nat, blocks: nat)
    requires pos < blocks * BLOCK
    ensures pos / BLOCK < blocks
  {
  }

  lemma WritingStep(d: Device, sent: nat, blocks: nat)
    requires Writing(d, sent, blocks)
    ensures Writing(Step(d), sent, blocks)
  {
    if d.engine.Running? && |d.fifo| >= CHUNK {
      BlockOf(d.engine.op.pos, blocks);
    }
  }

  lemma {:induction false} WritingGoesOn(d: Device, n: nat, sent: nat, blocks: nat)
    requires Writing(d, sent, blocks)
    ensures Writing(Steps(d, n), sent, blocks)
    decreases n
  {
    if n > 0 {
      WritingGoesOn(d, n - 1, sent, blocks);
      WritingStep(Steps(d, n - 1), sent, blocks);
    }
  }

  lemma WritingLater(d: Device, e: Device, sent: nat, blocks: nat)
    requires Writing(d, sent, blocks) && Later(d, e)
    ensures Writing(e, sent, blocks)
  {
    var n: nat :| e == Steps(d, n);
    WritingGoesOn(d, n, sent, blocks);
  }

  /** The engine writes the chunks of a program command, or those left of one that was stopped. */
  predicate Writes(d: Device) {
    !d.engine.Idle? && (d.engine.op.Program? || d.engine.op.Finish?) && d.engine.op.pos % CHUNK == 0
  }

  /** Of what changed from d to e, every byte lies in a block recorded as programmed. */
  ghost predicate Recorded(d: Device, e: Device) {
    && |e.memory| == |d.memory| && d.programmed <= e.programmed
    && forall i {:trigger e.memory[i]} :: 0 <= i < |d.memory| && e.memory[i] != d.memory[i] ==> i / 65536 in e.programmed
  }

  lemma RecordedStill(d: Device, e: Device, f: Device)
    requires Recorded(d, e) && Recorded(e, f)
    ensures Recorded(d, f)
  {
    forall i | 0 <= i < |d.memory| && f.memory[i] != d.memory[i] ensures i / 65536 in f.programmed {
      assert f.memory[i] != e.memory[i] || e.memory[i] != d.memory[i];
    }
  }

  /** So it is, however long the engine writes. */
  lemma {:induction false} WritesAreRecorded(d: Device, n: nat)
    requires Writes(d)
    ensures Recorded(d, Steps(d, n)) && (Steps(d, n).engine.Idle? || Writes(Steps(d, n)))
    decreases n
  {
    hide Recorded, Writes, Step, Steps;
    if n == 0 {
      NoSteps(d);
    } else {
      var e := Steps(d, n - 1);
      WritesAreRecorded(d, n - 1);
      LastStep(d, n);
      WriteIsRecorded(e);
      RecordedStill(d, e, Step(e));
    }
  }

  lemma NoSteps(d: Device)
    ensures Steps(d, 0) == d && Recorded(d, d)
  {
  }

  lemma WriteIsRecorded(d: Device)
    requires d.engine.Idle? || Writes(d)
    ensures Recorded(d, Step(d)) && (Step(d).engine.Idle? || Writes(Step(d)))
  {
    if Writes(d) {
      var e, pos := Step(d), d.engine.op.pos;
      forall i | 0 <= i < |d.memory| && e.memory[i] != d.memory[i] ensures i / 65536 in e.programmed {
        assert pos <= i < pos + CHUNK;
        SameBlock(pos, i);
      }
    }
  }

  lemma SameBlock(pos: nat, i: nat)
    requires pos % 4096 == 0 && pos <= i < pos + 4096
    ensures i / 65536 == pos / 65536
  {
  }

  /** The first pos bytes of the data are in the Flash; the rest of the blocks is still erased, and behind them is what was there. */
  ghost predicate Burnt(memory: seq<byte>, pos: nat, data: seq<byte>, blocks: nat, tail: seq<byte>) {
    && pos <= |data| <= blocks * BLOCK <= |memory|
    && memory[..pos] == data[..pos] && memory[blocks * BLOCK..] == tail
    && forall i {:trigger memory[i]} :: pos <= i < blocks * BLOCK ==> memory[i] == 0xff
  }

  /** Erased blocks are ready for the first byte. */
  lemma ErasedIsBurnt(memory: seq<byte>, before: seq<byte>, blocks: nat)
    requires ErasedUpTo(memory, before, blocks)
    ensures Burnt(memory, 0, [], blocks, before[blocks * BLOCK..])
  {
  }

  lemma BurntHolds(memory: seq<byte>, data: seq<byte>, blocks: nat, tail: seq<byte>)
    requires Burnt(memory, |data|, data, blocks, tail)
    ensures data <= memory
  {
    assert memory[..|data|] == data;
  }

  /** The Flash begins with the data, the rest of its last block is erased, and behind that block it is as before. */
  ghost predicate Holds(memory: seq<byte>, data: seq<byte>, before: seq<byte>) {
    && |memory| == |before| && data <= memory
    && exists end: nat :: end % 65536 == 0 && |data| <= end < |data| + 65536 && end <= |memory| && memory[end..] == before[end..]
                          && forall i {:trigger memory[i]} :: |data| <= i < end ==> memory[i] == 0xff
  }

  lemma BurntIsHeld(memory: seq<byte>, data: seq<byte>, blocks: nat, before: seq<byte>)
    requires |memory| == |before| && blocks * BLOCK < |data| + BLOCK && blocks * BLOCK <= |before|
    requires Burnt(memory, |data|, data, blocks, before[blocks * BLOCK..])
    ensures Holds(memory, data, before)
  {
    var end := blocks * BLOCK;
    BurntHolds(memory, data, blocks, before[end..]);
    assert end % 65536 == 0 && memory[end..] == before[end..];
  }

  lemma HeldImage(memory: seq<byte>, image: seq<byte>, transfer: seq<byte>, before: seq<byte>)
    requires Holds(memory, transfer, before) && image <= transfer
    ensures image <= memory
  {
  }

  lemma OneMoreBurnt(memory: seq<byte>, pos: nat, data: seq<byte>, blocks: nat, tail: seq<byte>)
    requires Burnt(memory, pos, data, blocks, tail) && pos + CHUNK <= |data|
    ensures Burnt(WriteChunk(memory, pos, data[pos..pos + CHUNK]), pos + CHUNK, data, blocks, tail)
  {
    var m, end := WriteChunk(memory, pos, data[pos..pos + CHUNK]), pos + CHUNK;
    forall i {:trigger m[i]} | 0 <= i < |m| ensures m[i] == if pos <= i < end then data[i] else memory[i] {
      if pos <= i < end {
        assert memory[i] == 0xff && data[pos..end][i - pos] == data[i];
      }
    }
    assert m[..end] == data[..end];
    assert m[blocks * BLOCK..] == memory[blocks * BLOCK..];
  }

  lemma MoreData(memory: seq<byte>, pos: nat, data: seq<byte>, more: seq<byte>, blocks: nat, tail: seq<byte>)
    requires Burnt(memory, pos, data, blocks, tail) && |data| + |more| <= blocks * BLOCK
    ensures Burnt(memory, pos, data + more, blocks, tail)
  {
    assert (data + more)[..pos] == data[..pos];
  }

  /** While this data has gone to the FIFO: what the engine has written of it is in the Flash, and the rest is in the FIFO. */
  ghost predicate Burning(d: Device, data: seq<byte>, blocks: nat, tail: seq<byte>) {
    && Writing(d, |data|, blocks) && |d.fifo| <= |data|
    && Burnt(d.memory, |data| - |d.fifo|, data, blocks, tail) && d.fifo == data[|data| - |d.fifo|..]
  }

  /** More data goes to the FIFO. */
  lemma MoreBurning(d: Device, data: seq<byte>, more: seq<byte>, blocks: nat, tail: seq<byte>)
    requires Burning(d, data, blocks, tail) && |data| + |more| <= blocks * BLOCK && |more| == CHUNK && Programs(d)
    ensures Burning(d.(fifo := d.fifo + more), data + more, blocks, tail)
  {
    hide Burnt;
    var pos := |data| - |d.fifo|;
    MoreData(d.memory, pos, data, more, blocks, tail);
    assert (data + more)[pos..] == d.fifo + more;
  }

  lemma BurningStep(d: Device, data: seq<byte>, blocks: nat, tail: seq<byte>)
    requires Burning(d, data, blocks, tail)
    ensures Burning(Step(d), data, blocks, tail)
  {
    hide Burnt, WriteChunk;
    WritingStep(d, |data|, blocks);
    var pos := |data| - |d.fifo|;
    if d.engine.Running? && |d.fifo| >= CHUNK {
      assert d.fifo[..CHUNK] == data[pos..pos + CHUNK] && d.fifo[CHUNK..] == data[pos + CHUNK..];
      OneMoreBurnt(d.memory, pos, data, blocks, tail);
    }
  }

  lemma {:induction false} BurningGoesOn(d: Device, n: nat, data: seq<byte>, blocks: nat, tail: seq<byte>)
    requires Burning(d, data, blocks, tail)
    ensures Burning(Steps(d, n), data, blocks, tail)
    decreases n
  {
    if n > 0 {
      BurningGoesOn(d, n - 1, data, blocks, tail);
      BurningStep(Steps(d, n - 1), data, blocks, tail);
    }
  }

  lemma BurningLater(d: Device, e: Device, data: seq<byte>, blocks: nat, tail: seq<byte>)
    requires Burning(d, data, blocks, tail) && Later(d, e)
    ensures Burning(e, data, blocks, tail)
  {
    var n: nat :| e == Steps(d, n);
    BurningGoesOn(d, n, data, blocks, tail);
  }

  lemma BurningWrites(d: Device, data: seq<byte>, blocks: nat, tail: seq<byte>)
    requires Burning(d, data, blocks, tail)
    ensures Writing(d, |data|, blocks)
  {
  }

  lemma BurningIsSafe(d: Device, data: seq<byte>, blocks: nat, tail: seq<byte>)
    requires Burning(d, data, blocks, tail)
    ensures Safe(d)
  {
    assert Writing(d, |data|, blocks);
  }

  /**
   * What the acknowledgements keep in check: at most one chunk waits in the FIFO before another is sent, and none if the done
   * bit says that one has been written since the last of them.
   */
  predicate Paced(d: Device) {
    |d.fifo| <= CHUNK && (d.chunkDone ==> d.fifo == [])
  }

  /** After the next chunk, until the wait for the done bit is over. */
  predicate Pacing(d: Device) {
    |d.fifo| <= if d.chunkDone then CHUNK else 2 * CHUNK
  }

  lemma PacedStep(d: Device, data: seq<byte>, blocks: nat, tail: seq<byte>)
    requires Burning(d, data, blocks, tail)
    ensures (Paced(d) ==> Paced(Step(d))) && (Pacing(d) ==> Pacing(Step(d))) && |Step(d).fifo| <= |d.fifo|
  {
    hide Burnt;
  }

  lemma {:induction false} PacedGoesOn(d: Device, n: nat, data: seq<byte>, blocks: nat, tail: seq<byte>)
    requires Burning(d, data, blocks, tail)
    ensures (Paced(d) ==> Paced(Steps(d, n))) && (Pacing(d) ==> Pacing(Steps(d, n))) && |Steps(d, n).fifo| <= |d.fifo|
    decreases n
  {
    hide Burning, Step, Paced, Pacing;
    if n > 0 {
      PacedGoesOn(d, n - 1, data, blocks, tail);
      BurningGoesOn(d, n - 1, data, blocks, tail);
      PacedStep(Steps(d, n - 1), data, blocks, tail);
    }
  }

  lemma PacedLater(d: Device, e: Device, data: seq<byte>, blocks: nat, tail: seq<byte>)
    requires Burning(d, data, blocks, tail) && Later(d, e)
    ensures (Paced(d) ==> Paced(e)) && (Pacing(d) ==> Pacing(e)) && |e.fifo| <= |d.fifo|
  {
    var n: nat :| e == Steps(d, n);
    PacedGoesOn(d, n, data, blocks, tail);
  }

  /** An entry of the log: a command that was sent, or tried to be, and what became of it. */
  datatype Sent = Sent(c: Command, fate: Fate)

  function Commands(entries: seq<Sent>): seq<Command> {
    seq(|entries|, i requires 0 <= i < |entries| => entries[i].c)
  }

  /** Entries that came after `before`, none of them a start or stop of programming, a mode switch or a reload. */
  ghost predicate Plain(before: seq<Sent>, after: seq<Sent>) {
    && before <= after
    && forall i {:trigger after[i]} :: |before| <= i < |after| ==>
         var c := after[i].c; !c.SetMode? && !c.Multiboot? && !c.StartProgram? && !c.StopProgram?
  }

  lemma PlainAppend(before: seq<Sent>, after: seq<Sent>, more: seq<Sent>)
    requires Plain(before, after) && Plain(after, more)
    ensures Plain(before, more)
  {
  }

  /** What became of the command c after `before`, sent there at most with that fate. */
  ghost predicate FateIs(before: seq<Sent>, after: seq<Sent>, c: Command, f: Fate) {
    && before <= after
    && (forall i {:trigger after[i]} :: |before| <= i < |after| && after[i].c == c ==> after[i].fate == f)
    && (f.Unsent? <==> forall i {:trigger after[i]} :: |before| <= i < |after| ==> after[i].c != c)
  }

  lemma FateJoin(a: seq<Sent>, m: seq<Sent>, b: seq<Sent>, c: Command, f: Fate, g: Fate)
    requires FateIs(a, m, c, f) && FateIs(m, b, c, g) && (f.Unsent? || g.Unsent?)
    ensures FateIs(a, b, c, if f.Unsent? then g else f)
  {
    if !f.Unsent? {
      var i :| |a| <= i < |m| && m[i].c == c;
      assert b[i].c == c;
    } else if !g.Unsent? {
      var i :| |m| <= i < |b| && b[i].c == c;
    }
    assert forall i {:trigger b[i]} :: |a| <= i < |m| ==> b[i] == m[i];
  }

  lemma FateOne(a: seq<Sent>, e: Sent, c: Command)
    requires !e.fate.Unsent?
    ensures FateIs(a, a + [e], c, if e.c == c then e.fate else Unsent)
  {
    assert (a + [e])[|a|] == e;
  }

  lemma FateNone(a: seq<Sent>, b: seq<Sent>, c: Command)
    requires Plain(a, b) && (c.SetMode? || c.StartProgram? || c.StopProgram?)
    ensures FateIs(a, b, c, Unsent)
  {
  }

  /** What became of the commands of the try block: mode on, mode off, start and stop of programming. */
  datatype Fates = Fates(enable: Fate, disable: Fate, start: Fate, stop: Fate)

  const NONE_SENT: Fates := Fates(Unsent, Unsent, Unsent, Unsent)

  /** The log since `before` says so. */
  ghost predicate Logged(before: seq<Sent>, after: seq<Sent>, fates: Fates) {
    && FateIs(before, after, SetMode(true), fates.enable) && FateIs(before, after, SetMode(false), fates.disable)
    && FateIs(before, after, StartProgram(0), fates.start) && FateIs(before, after, StopProgram, fates.stop)
  }

  function Either(f: Fate, g: Fate): Fate {
    if f.Unsent? then g else f
  }

  function Together(f: Fates, g: Fates): Fates {
    Fates(Either(f.enable, g.enable), Either(f.disable, g.disable), Either(f.start, g.start), Either(f.stop, g.stop))
  }

  /** No command was sent on both sides. */
  predicate Separate(f: Fates, g: Fates) {
    && (f.enable.Unsent? || g.enable.Unsent?) && (f.disable.Unsent? || g.disable.Unsent?)
    && (f.start.Unsent? || g.start.Unsent?) && (f.stop.Unsent? || g.stop.Unsent?)
  }

  lemma LoggedJoin(a: seq<Sent>, m: seq<Sent>, b: seq<Sent>, f: Fates, g: Fates)
    requires Logged(a, m, f) && Logged(m, b, g) && Separate(f, g)
    ensures Logged(a, b, Together(f, g))
  {
    hide FateIs;
    FateJoin(a, m, b, SetMode(true), f.enable, g.enable);
    FateJoin(a, m, b, SetMode(false), f.disable, g.disable);
    FateJoin(a, m, b, StartProgram(0), f.start, g.start);
    FateJoin(a, m, b, StopProgram, f.stop, g.stop);
  }

  lemma LoggedPlain(a: seq<Sent>, b: seq<Sent>)
    requires Plain(a, b)
    ensures Logged(a, b, NONE_SENT)
  {
    hide FateIs, Plain;
    FateNone(a, b, SetMode(true));
    FateNone(a, b, SetMode(false));
    FateNone(a, b, StartProgram(0));
    FateNone(a, b, StopProgram);
  }

  function OneFate(e: Sent): Fates {
    Fates(if e.c == SetMode(true) then e.fate else Unsent, if e.c == SetMode(false) then e.fate else Unsent,
          if e.c == StartProgram(0) then e.fate else Unsent, if e.c == StopProgram then e.fate else Unsent)
  }

  lemma LoggedOne(a: seq<Sent>, e: Sent)
    requires !e.fate.Unsent?
    ensures Logged(a, a + [e], OneFate(e))
  {
    hide FateIs;
    FateOne(a, e, SetMode(true));
    FateOne(a, e, SetMode(false));
    FateOne(a, e, StartProgram(0));
    FateOne(a, e, StopProgram);
  }

  /** No command after `before` is one to erase or to program. */
  ghost predicate NoErase(before: seq<Sent>, after: seq<Sent>) {
    && before <= after
    && forall i {:trigger after[i]} :: |before| <= i < |after| ==>
         var c := after[i].c; !c.ConfigureErase? && !c.StartErase? && !c.StartProgram?
  }

  lemma NothingLogged(log: seq<Sent>)
    ensures NoErase(log, log) && NoReload(log, log) && ReloadsLast(log, log) && RunLog(log, log, NONE_SENT, Unsent, Unsent)
  {
    LoggedPlain(log, log);
    assert log[..|log|] == log;
  }

  lemma NoEraseAppend(before: seq<Sent>, after: seq<Sent>, more: seq<Sent>)
    requires NoErase(before, after) && NoErase(after, more)
    ensures NoErase(before, more)
  {
  }

  lemma EnterNoErase(before: seq<Sent>, after: seq<Sent>)
    requires before <= after && Commands(after[|before|..]) <= [GetVersion, StopRx, SetMode(true)]
    ensures NoErase(before, after)
  {
    var cs := Commands(after[|before|..]);
    forall i {:trigger after[i]} | |before| <= i < |after|
      ensures var c := after[i].c; !c.ConfigureErase? && !c.StartErase? && !c.StartProgram?
    {
      assert cs[i - |before|] == after[i].c;
    }
  }

  /** No mode switch and no reload came after `before`. */
  ghost predicate NoSwitch(before: seq<Sent>, after: seq<Sent>) {
    before <= after && forall i {:trigger after[i]} :: |before| <= i < |after| ==> !after[i].c.SetMode? && !after[i].c.Multiboot?
  }

  /** What the erase and program part logs. */
  ghost predicate ProgramLog(before: seq<Sent>, after: seq<Sent>, start: Fate, stop: Fate) {
    NoSwitch(before, after) && Logged(before, after, Fates(Unsent, Unsent, start, stop))
  }

  lemma ProgramLogPlain(a: seq<Sent>, b: seq<Sent>)
    requires Plain(a, b)
    ensures ProgramLog(a, b, Unsent, Unsent)
  {
    LoggedPlain(a, b);
  }

  lemma ProgramLogOne(a: seq<Sent>, e: Sent)
    requires !e.fate.Unsent? && (e.c == StartProgram(0) || e.c == StopProgram)
    ensures ProgramLog(a, a + [e], if e.c.StartProgram? then e.fate else Unsent, if e.c.StopProgram? then e.fate else Unsent)
  {
    LoggedOne(a, e);
  }

  lemma ProgramLogJoin(a: seq<Sent>, m: seq<Sent>, b: seq<Sent>, start: Fate, stop: Fate, start': Fate, stop': Fate)
    requires ProgramLog(a, m, start, stop) && ProgramLog(m, b, start', stop')
    requires (start.Unsent? || start'.Unsent?) && (stop.Unsent? || stop'.Unsent?)
    ensures ProgramLog(a, b, Either(start, start'), Either(stop, stop'))
  {
    hide FateIs;
    LoggedJoin(a, m, b, Fates(Unsent, Unsent, start, stop), Fates(Unsent, Unsent, start', stop'));
  }

  /** The engine is not programming. */
  predicate NotWriting(d: Device) {
    d.engine.Idle? || !(d.engine.op.Program? || d.engine.op.Finish?)
  }

  /** Only erased blocks are programmed, and the engine on its own will not change that; the FIFO holds what it still has to write. */
  ghost predicate Safe(d: Device) {
    && |d.memory| == ONLINE_BYTES && d.programmed <= d.erased
    && if NotWriting(d) then d.fifo == [] else exists sent: nat, blocks: nat :: Writing(d, sent, blocks)
  }

  lemma {:induction false} NotWritingGoesOn(d: Device, n: nat)
    requires NotWriting(d)
    ensures NotWriting(Steps(d, n)) && Steps(d, n).programmed == d.programmed && d.erased <= Steps(d, n).erased
    ensures Steps(d, n).fifo == d.fifo && |Steps(d, n).memory| == |d.memory|
    decreases n
  {
    if n > 0 {
      NotWritingGoesOn(d, n - 1);
    }
  }

  lemma SafeLater(d: Device, e: Device)
    requires Safe(d) && Later(d, e)
    ensures Safe(e)
  {
    if NotWriting(d) {
      var n: nat :| e == Steps(d, n);
      NotWritingGoesOn(d, n);
    } else {
      var sent: nat, blocks: nat :| Writing(d, sent, blocks);
      WritingLater(d, e, sent, blocks);
    }
  }

  lemma ApplySafe(d: Device, c: Command)
    requires Safe(d) && (c.StopProgram? || Harmless(c))
    ensures Safe(Apply(d, c))
  {
    if !NotWriting(d) {
      var sent: nat, blocks: nat :| Writing(d, sent, blocks);
      assert Writing(Apply(d, c), sent, blocks);
    }
  }

  /** Between the program command and the stop command. */
  predicate InProgram(d: Device) {
    d.engine.Idle? || d.engine.op.Program?
  }

  /** After the stop command programming only finishes. */
  ghost predicate Finishing(d: Device) {
    d.engine.Idle? || (d.engine.Running? && d.engine.op.Finish?)
  }

  lemma {:induction false} FinishingGoesOn(d: Device, n: nat)
    requires Finishing(d)
    ensures Finishing(Steps(d, n))
    decreases n
  {
    if n > 0 {
      FinishingGoesOn(d, n - 1);
    }
  }

  lemma FinishingLater(d: Device, e: Device)
    requires Finishing(d) && Later(d, e)
    ensures Finishing(e)
  {
    var n: nat :| e == Steps(d, n);
    FinishingGoesOn(d, n);
  }

  /** In one step the engine takes up the program command, or waits for more; writes a chunk; or, told to stop, comes to rest. */
  lemma ReadyTick(d: Device)
    requires Programs(d) && d.fifo == []
    ensures var e := Steps(d, 1); e.engine.Running? && e.engine.op.Program? && e.fifo == []
  {
    LastStep(d, 1);
  }

  /** The engine is programming and has a chunk to write. */
  predicate Loaded(d: Device) {
    d.engine.Running? && d.engine.op.Program? && |d.fifo| == CHUNK
  }

  lemma WriteTick(d: Device, sent: nat, blocks: nat)
    requires Writing(d, sent, blocks) && Loaded(d)
    ensures Steps(d, 1).chunkDone && Steps(d, 1).fifo == []
  {
    LastStep(d, 1);
  }

  lemma FinishTick(d: Device)
    requires Finishing(d) && d.fifo == []
    ensures Steps(d, 1).engine.Idle?
  {
    LastStep(d, 1);
  }

  /** The commands sent while programming. */
  predicate ProgramCommand(c: Command) {
    c.AckChunk? || c.StopProgram?
  }

  lemma ApplyWriting(d: Device, c: Command, sent: nat, blocks: nat)
    requires Writing(d, sent, blocks) && ProgramCommand(c)
    ensures Writing(Apply(d, c), sent, blocks)
    ensures c.StopProgram? && !d.engine.Idle? ==> Finishing(Apply(d, c)) || d.engine.op.Finish?
  {
  }

  lemma ApplyBurning(d: Device, c: Command, sent: seq<byte>, blocks: nat, tail: seq<byte>)
    requires Burning(d, sent, blocks, tail) && ProgramCommand(c)
    ensures Burning(Apply(d, c), sent, blocks, tail)
    ensures c.StopProgram? && !d.engine.Idle? ==> Finishing(Apply(d, c)) || d.engine.op.Finish?
  {
    hide Burnt;
    ApplyWriting(d, c, |sent|, blocks);
  }

  /** While a read is under way: nothing else changes, and the only answer that can come is this read's. */
  ghost predicate Reading(d: Device, memory: seq<byte>, addr: nat, bytes: nat) {
    && d.memory == memory && addr + bytes <= |memory| == ONLINE_BYTES && d.programmed <= d.erased && d.fifo == []
    && (d.engine.Idle? || (d.packet.None? && d.engine.op == Read(addr, bytes)))
    && (d.packet.Some? ==> d.packet.value == ReadPacket(memory, addr, bytes))
  }

  lemma {:induction false} ReadGoesOn(d: Device, n: nat, memory: seq<byte>, addr: nat, bytes: nat)
    requires Reading(d, memory, addr, bytes)
    ensures Reading(Steps(d, n), memory, addr, bytes)
    decreases n
  {
    if n > 0 {
      ReadGoesOn(d, n - 1, memory, addr, bytes);
    }
  }

  lemma ReadLater(d: Device, e: Device, memory: seq<byte>, addr: nat, bytes: nat)
    requires Reading(d, memory, addr, bytes) && Later(d, e)
    ensures Reading(e, memory, addr, bytes)
  {
    var n: nat :| e == Steps(d, n);
    ReadGoesOn(d, n, memory, addr, bytes);
  }

  /** The engine takes a read up in one step and answers it in the next. */
  lemma ReadTakesTwo(d: Device, n: nat, addr: nat, bytes: nat)
    requires d.engine == Queued(Read(addr, bytes)) && addr + bytes <= |d.memory| && n >= 2
    ensures var e := Steps(d, n); e.packet == Some(ReadPacket(d.memory, addr, bytes)) && e.engine.Idle? && e.readDone
  {
    hide ReadPacket, Steps;
    TwoSteps(d);
    StepsCompose(d, 2, n - 2);
    IdleStays(Steps(d, 2), n - 2);
  }

  lemma TwoSteps(d: Device)
    ensures Steps(d, 2) == Step(Step(d))
  {
    hide Step;
    LastStep(d, 1);
    LastStep(d, 2);
  }

  /** The checks on a packet that should answer a read. */
  predicate AnswersRead(packet: seq<byte>, addr: nat, bytes: nat) {
    && |packet| == HEADER_BYTES + bytes
    && ParseRaw(Load(packet[..8])) == Header(MAGIC_RX, 0, FLASH_READ_SID, HEADER_BYTES + bytes)
    && Load(packet[8..16]) == addr
  }

  lemma ReadPacketAnswers(memory: seq<byte>, addr: nat, bytes: nat)
    requires addr + bytes <= |memory| == ONLINE_BYTES && bytes <= CHUNK
    ensures AnswersRead(ReadPacket(memory, addr, bytes), addr, bytes)
  {
    var h, p := Header(MAGIC_RX, 0, FLASH_READ_SID, HEADER_BYTES + bytes), ReadPacket(memory, addr, bytes);
    HeaderRoundTrip(h);
    Ranges();
    LoadStore(Raw(h), 8);
    LoadStore(addr, 8);
    assert p[..8] == Le(Raw(h), 8) && p[8..16] == Le(addr, 8);
  }

  lemma ReadPacketData(memory: seq<byte>, addr: nat, bytes: nat)
    requires addr + bytes <= |memory|
    ensures |ReadPacket(memory, addr, bytes)| == HEADER_BYTES + bytes
    ensures ReadPacket(memory, addr, bytes)[HEADER_BYTES..] == memory[addr..addr + bytes]
  {
  }

  /** What the readback takes for its answer, byte for byte: the length, stream 0xf1, number 0, type 0x5503, and the address asked for. */
  lemma AnswerBytes(p: seq<byte>, addr: nat, bytes: nat)
    requires addr < 0x1_0000_0000
    ensures AnswersRead(p, addr, bytes) <==>
              && |p| == 16 + bytes && Three(p[0], p[1], p[2]) == 16 + bytes && p[3] == 0xf1
              && Two(p[4], p[5]) == 0 && Two(p[6], p[7]) == 0x5503
              && Spells(p[8..12], addr) && p[12] == 0 && p[13] == 0 && p[14] == 0 && p[15] == 0
  {
    if |p| >= 16 {
      hide ParseRaw, Load, Two, Three;
      ParsedBytes(p[..8]);
      AddressBytes(p[8..16], addr);
      assert p[8..16][..4] == p[8..12];
    }
  }

  lemma AddressBytes(s: seq<byte>, addr: nat)
    requires |s| == 8 && addr < 0x1_0000_0000
    ensures Load(s) == addr <==> Spells(s[..4], addr) && s[4] == 0 && s[5] == 0 && s[6] == 0 && s[7] == 0
  {
    hide Load, Le;
    Ranges();
    EightBytes(addr);
    FourBytes(addr);
    FourBytes(0);
    StoreLoad(s);
    LoadStore(addr, 8);
    assert addr % 0x1_0000_0000 == addr && addr / 0x1_0000_0000 == 0;
    assert s == s[..4] + s[4..];
    assert Le(0, 4) == [0, 0, 0, 0];
    assert Le(addr, 8) == Le(addr, 4) + Le(0, 4);
    assert Load(s) == addr <==> s == Le(addr, 8);
    assert Spells(s[..4], addr) <==> s[..4] == Le(addr, 4);
    assert Le(addr, 8)[..4] == Le(addr, 4) && Le(addr, 8)[4..] == Le(0, 4);
  }

  /** The guards: whole erase blocks of the 256, a page of the 65536, bytes that are there, and a page of both images. */
  lemma GuardsKeepInside(c: Command)
    ensures c.ConfigureErase? ==> (Guarded(c) <==> c.blocks > 0 && exists first: nat :: c.addr == 65536 * first && first + c.blocks <= 256)
    ensures c.StartProgram? ==> (Guarded(c) <==> exists page: nat :: c.addr == 256 * page && page < 65536)
    ensures c.StartRead? ==> (Guarded(c) <==> c.bytes > 0 && c.addr + (c.bytes - 1) < 0x100_0000)
    ensures c.Multiboot? ==> (Guarded(c) <==> exists page: nat :: c.addr == 256 * page && page < 131072)
    ensures Harmless(c) && !c.Multiboot? ==> Guarded(c)
  {
    match c
    case ConfigureErase(addr, blocks) => WholeBlocks(addr, blocks);
    case StartProgram(addr) => WholePages(addr, 0x1_0000);
    case Multiboot(addr) => WholePages(addr, 0x2_0000);
    case _ =>
  }

  lemma WholeBlocks(addr: nat, blocks: nat)
    ensures addr % 65536 == 0 && addr + blocks * 65536 <= 0x100_0000 <==> exists first: nat :: addr == 65536 * first && first + blocks <= 256
  {
    var first := addr / 65536;
    assert addr % 65536 == 0 ==> addr == 65536 * first;
  }

  lemma WholePages(addr: nat, pages: nat)
    ensures addr % 256 == 0 && addr < 256 * pages <==> exists page: nat :: addr == 256 * page && page < pages
  {
    var page := addr / 256;
    assert addr % 256 == 0 ==> addr == 256 * page;
  }

  /**
   * The board before a run: no command waits to be taken up. An earlier run may have left the engine at work, an erase or a
   * read, or programming, which ends on its own only if a stop command has come.
   */
  ghost predicate Settled(d: Device) {
    !d.engine.Queued? && Safe(d)
  }

  lemma SettledLater(d: Device, e: Device)
    requires Settled(d) && Later(d, e)
    ensures Settled(e)
  {
    hide Safe;
    SafeLater(d, e);
    var n: nat :| e == Steps(d, n);
    if n > 0 {
      TakenUp(d, n);
    }
  }

  lemma {:induction false} TakenUp(d: Device, n: nat)
    requires n > 0
    ensures !Steps(d, n).engine.Queued?
    decreases n
  {
    if n > 1 {
      TakenUp(d, n - 1);
    }
    StepTakesUp(Steps(d, n - 1));
  }

  lemma StepTakesUp(d: Device)
    ensures !Step(d).engine.Queued?
  {
  }

  /** However a run ends, once the engine has made a step the board is ready for the next run. */
  lemma SettledAgain(d: Device, n: nat)
    requires Safe(d) && n > 0
    ensures Settled(Steps(d, n)) && Kept(d, Steps(d, n))
    decreases n
  {
    hide Safe, Kept, Steps, Step;
    StepsKeep(d, n);
    SafeLater(d, Steps(d, n));
    TakenUp(d, n);
  }

  /** Commands that leave the Flash engine alone. */
  predicate Harmless(c: Command) {
    c.GetVersion? || c.StopRx? || c.SetMode? || c.Multiboot?
  }

  /** The image, filled up with 0xff to whole chunks. */
  function Padded(image: seq<byte>): (t: seq<byte>)
    ensures |t| % 4096 == 0 && |image| <= |t| < |image| + 4096 && t[..|image|] == image
    ensures forall i :: |image| <= i < |t| ==> t[i] == 0xff
  {
    image + seq((|image| + CHUNK - 1) / CHUNK * CHUNK - |image|, k => 255)
  }

  /** The least number of blocks that cover so many bytes. */
  function EraseBlockCount(bytes: nat): (n: nat)
    ensures bytes <= n * 65536 < bytes + 65536 && (bytes <= ONLINE_BYTES ==> n * BLOCK <= ONLINE_BYTES)
  {
    (bytes + BLOCK - 1) / BLOCK
  }

  /** A reload command is the last of the run, right behind the command that left the update mode. */
  ghost predicate ReloadsLast(before: seq<Sent>, after: seq<Sent>) {
    forall i {:trigger after[i]} :: |before| <= i < |after| && after[i].c.Multiboot? ==>
      i == |after| - 1 && i > |before| && after[i].c == Multiboot(0) && after[|after| - 2] == Sent(SetMode(false), Answered)
  }

  class Board {
    var device: Device
    var script: seq<Env>
    /** Every command sent, or tried to send, in order, and what became of it. */
    var log: seq<Sent>

    /** The next access; without one left it fails. */
    method Next() returns (e: Env)
      modifies `script, `device
      ensures Later(old(device), device)
      ensures if old(script) == [] then !e.ok && !e.applied && e.stray.None? && script == []
              else e == old(script)[0] && script == old(script)[1..]
      ensures Rests(old(script), script) && Caused(if e.ok then Done else Threw(Control), old(script), script)
      ensures (e.stray.Some? ==> Strays(old(script))) && (e.steps < 2 ==> Slow(old(script)) || script == [])
      ensures e.overflow ==> Overflows(old(script))
      ensures old(script) != [] ==> device == Steps(old(device), e.steps)
    {
      if script == [] {
        LaterNow(device);
        return Access(0, false, false, false, None);
      }
      e := script[0];
      script := script[1..];
      StepsKeep(device, e.steps);
      device := Steps(device, e.steps);
    }

    /** A guarded register write. */
    method Send(c: Command) returns (r: Outcome, ghost before: Device)
      modifies this
      ensures r == Threw(Guard) <==> !Guarded(c)
      ensures r.Threw? ==> r.reason == Guard || r.reason == Control
      ensures Guarded(c) ==> Caused(r, old(script), script)
      ensures !Guarded(c) ==> device == old(device) && log == old(log)
      ensures Guarded(c) ==> log == old(log) + [Sent(c, FateOf(old(script)))] && Later(old(device), before)
      ensures Guarded(c) ==> (r.Done? <==> FateOf(old(script)).Answered?) && script == Rest(old(script))
      ensures Guarded(c) ==> device == if FateOf(old(script)).Applied() then Apply(before, c) else before
    {
      before := device;
      if !Guarded(c) {
        return Threw(Guard), before;
      }
      log := log + [Sent(c, FateOf(script))];
      var e := Next();
      before := device;
      if e.ok || e.applied {
        device := Apply(device, c);
      }
      r := if e.ok then Done else Threw(Control);
    }

    /** wait_status: the last status read, with the board as it was at that read. */
    method WaitStatus(done: Status -> bool) returns (r: Outcome, status: Status)
      modifies `script, `device
      ensures Later(old(device), device) && log == old(log)
      ensures r.Done? ==> done(status) && status == StatusOf(device, status.overflow)
      ensures old(script) != [] && old(script)[0].ok && done(StatusOf(Steps(old(device), old(script)[0].steps), old(script)[0].overflow)) ==>
                r.Done? && script == old(script)[1..] && device == Steps(old(device), old(script)[0].steps)
                && status == StatusOf(device, old(script)[0].overflow)
      ensures Caused(r, old(script), script) && (r.Done? && status.overflow ==> Overflows(old(script)))
    {
      status := StatusOf(device, false);
      LaterNow(device);
      while true
        invariant Later(old(device), device) && Rests(old(script), script)
        invariant script == old(script) ==> device == old(device)
        invariant |script| < |old(script)| && old(script)[0].ok ==>
                    !done(StatusOf(Steps(old(device), old(script)[0].steps), old(script)[0].overflow))
        decreases |script|
      {
        if script == [] {
          r := Threw(TimedOut);
          return;
        }
        ghost var d, rest := device, script;
        var e := Next();
        LaterStill(old(device), d, device);
        WithinRest(old(script), rest);
        CausedLater(if e.ok then Done else Threw(Control), old(script), rest, script);
        if !e.ok {
          r := Threw(Control);
          return;
        }
        status := StatusOf(device, e.overflow);
        if done(status) {
          return Done, status;
        }
      }
    }

    /** configure_flash_erase and start_flash_erase for one block. */
    method RequestErase(block: nat) returns (r: Outcome)
      requires device.engine.Idle? && (block + 1) * BLOCK <= ONLINE_BYTES
      modifies this
      ensures Caused(r, old(script), script) && SameRecords(old(device), device) && NotWriting(device) && device.memory == old(device.memory)
      ensures r.Done? ==> device.engine == Queued(Erase(block))
      ensures Ticking(old(script), 2) ==> r.Done? && script == old(script)[2..]
      ensures Plain(old(log), log) && old(log) < log && Commands(log[|old(log)|..]) <= [ConfigureErase(block * BLOCK, 1), StartErase]
    {
      hide Fails, Overflows, Strays, Slow, Plain, Commands, FateOf, Ticking, Step, Steps, Later, Guarded, Apply;
      ghost var d, before := device, device;
      ghost var first, second := Sent(ConfigureErase(block * BLOCK, 1), FateOf(script)), Sent(StartErase, FateOf(Rest(script)));
      RequestLog(log, first, second);
      RequestApplied(device, block);
      if Ticking(script, 2) {
        TicksAnswer(script);
      }
      r, before := Send(ConfigureErase(block * BLOCK, 1));
      QuietLater(d, before);
      if r.Threw? {
        return;
      }
      d := device;
      ghost var rest := script;
      r, before := Send(StartErase);
      CausedLater(r, old(script), rest, script);
      QuietLater(d, before);
    }

    lemma RequestApplied(d: Device, block: nat)
      requires (block + 1) * BLOCK <= ONLINE_BYTES
      ensures Guarded(ConfigureErase(block * BLOCK, 1)) && Guarded(StartErase)
      ensures var e := d.(eraseAddr := block * BLOCK);
              Apply(d, ConfigureErase(block * BLOCK, 1)) == e && Apply(e, StartErase) == e.(engine := Queued(Erase(block)))
    {
      assert block * BLOCK / BLOCK == block && block * BLOCK % BLOCK == 0;
    }

    lemma RequestLog(before: seq<Sent>, first: Sent, second: Sent)
      requires !first.c.SetMode? && !first.c.Multiboot? && !first.c.StartProgram? && !first.c.StopProgram? && second.c.StartErase?
      ensures var one, two := before + [first], before + [first] + [second];
              && Plain(before, one) && before < one && Commands(one[|before|..]) <= [first.c, StartErase]
              && Plain(before, two) && before < two && Commands(two[|before|..]) <= [first.c, StartErase]
    {
      var one, two := before + [first], before + [first] + [second];
      assert one[|before|..] == [first] && two[|before|..] == [first, second];
    }

    lemma TicksAnswer(script: seq<Env>)
      requires Ticking(script, 2)
      ensures FateOf(script).Answered? && FateOf(Rest(script)).Answered? && Rest(Rest(script)) == script[2..]
    {
    }

    /** Waiting for the command to be taken up, and then for its end. */
    method AwaitErase(block: nat) returns (r: Outcome)
      requires device.engine == Queued(Erase(block)) && (block + 1) * BLOCK <= |device.memory|
      modifies this
      ensures Caused(r, old(script), script) && SameRecords(old(device), device) && NotWriting(device) && log == old(log)
      ensures Ticking(old(script), 2) ==> r.Done? && script == old(script)[2..]
      ensures r.Done? ==> device.engine.Idle? && block in device.erased && device.memory == FillBlock(old(device.memory), block)
    {
      hide FillBlock, Fails, Overflows, Strays, Slow;
      ghost var d := device;
      LastStep(d, 1);
      var status;
      r, status := WaitStatus((s: Status) => s.busy);
      EraseLater(d, device, d.memory, block, false);
      if r.Threw? {
        return;
      }
      ghost var e, rest := device, script;
      LastStep(e, 1);
      r, status := WaitStatus((s: Status) => s.eraseDone && !s.busy);
      EraseLater(e, device, d.memory, block, true);
      CausedLater(r, old(script), rest, script);
      StillSame(d, e, device);
    }

    /** One turn of the erase loop: the block is erased by the command sent here, whatever the done bit said before. */
    method EraseBlock(block: nat) returns (r: Outcome)
      requires device.engine.Idle? && (block + 1) * BLOCK <= ONLINE_BYTES == |device.memory|
      modifies this
      ensures Caused(r, old(script), script) && SameRecords(old(device), device) && NotWriting(device)
      ensures r.Done? ==> device.engine.Idle? && block in device.erased && device.memory == FillBlock(old(device.memory), block)
      ensures Ticking(old(script), 4) ==> r.Done? && script == old(script)[4..]
      ensures Plain(old(log), log) && old(log) < log && Commands(log[|old(log)|..]) <= [ConfigureErase(block * BLOCK, 1), StartErase]
    {
      hide Fails, Overflows, Strays, Slow;
      if Ticking(script, 4) {
        TickingRest(script, 2, 2);
        DropMore(script, 2, 2);
      }
      r := RequestErase(block);
      if r.Done? {
        ghost var d, rest := device, script;
        r := AwaitErase(block);
        CausedLater(r, old(script), rest, script);
        StillSame(old(device), d, device);
      }
    }

    /** The erase loop. */
    method EraseBlocks(blocks: nat) returns (r: Outcome)
      requires device.engine.Idle? && blocks * BLOCK <= ONLINE_BYTES == |device.memory|
      modifies this
      ensures Caused(r, old(script), script) && SameRecords(old(device), device) && NotWriting(device) && Plain(old(log), log)
      ensures r.Done? ==> device.engine.Idle? && Covered(device.erased, blocks) && ErasedUpTo(device.memory, old(device.memory), blocks)
      ensures Ticking(old(script), 4 * blocks) ==> r.Done? && script == old(script)[4 * blocks..]
    {
      hide FillBlock, ErasedUpTo, Fails, Overflows, Strays, Slow;
      NoneErased(device.memory);
      for block := 0 to blocks
        invariant device.engine.Idle? && SameRecords(old(device), device) && Covered(device.erased, block) && Plain(old(log), log)
        invariant ErasedUpTo(device.memory, old(device.memory), block) && Rests(old(script), script)
        invariant Ticking(old(script), 4 * blocks) ==> script == old(script)[4 * block..]
      {
        ghost var d, l, rest := device, log, script;
        if Ticking(old(script), 4 * blocks) {
          TickingRest(old(script), 4 * block, 4 * (blocks - block));
          DropMore(old(script), 4 * block, 4);
        }
        r := EraseBlock(block);
        CausedLater(r, old(script), rest, script);
        OneMoreErased(d.memory, old(device.memory), block);
        StillSame(old(device), d, device);
        PlainAppend(old(log), l, log);
        if r.Threw? {
          return;
        }
      }
      r := Done;
    }

    /** send_chunk: a chunk to the FIFO, where at most one is waiting. */
    method SendChunk(data: seq<byte>, ghost sent: seq<byte>, ghost blocks: nat, ghost tail: seq<byte>) returns (r: Outcome)
      requires Burning(device, sent, blocks, tail) && |sent| + |data| <= blocks * BLOCK && |data| == CHUNK
      requires Programs(device) && Paced(device)
      modifies this
      ensures log == old(log) && Caused(r, old(script), script) && Kept(old(device), device) && |device.fifo| <= 2 * CHUNK
      ensures old(script) != [] && old(script)[0] == TICK ==>
                r.Done? && script == old(script)[1..] && device == Steps(old(device), 1).(fifo := Steps(old(device), 1).fifo + data)
      ensures Burning(device, if r.Done? then sent + data else sent, blocks, tail) && Pacing(device)
    {
      hide Burning;
      var e := Next();
      BurningLater(old(device), device, sent, blocks, tail);
      PacedLater(old(device), device, sent, blocks, tail);
      if !e.ok {
        return Threw(Control);
      }
      MoreBurning(device, sent, data, blocks, tail);
      device := device.(fifo := device.fifo + data);
      r := Done;
    }

    /** ack_flash_4k or stop_flash_program, while writing. */
    method SendWriting(c: Command, ghost sent: seq<byte>, ghost blocks: nat, ghost tail: seq<byte>) returns (r: Outcome)
      requires Burning(device, sent, blocks, tail) && ProgramCommand(c) && (c.StopProgram? ==> device.fifo == [])
      requires c.AckChunk? ==> device.chunkDone && Pacing(device)
      modifies this
      ensures Burning(device, sent, blocks, tail) && Caused(r, old(script), script) && log == old(log) + [Sent(c, FateOf(old(script)))]
      ensures old(InProgram(device)) ==> if c.StopProgram? then r.Done? ==> Finishing(device) else InProgram(device)
      ensures r.Done? <==> FateOf(old(script)).Answered?
      ensures device.mode == old(device.mode)
      ensures Programs(device) <==> old(Programs(device)) && !(c.StopProgram? && FateOf(old(script)).Applied())
      ensures r.Done? && c.AckChunk? ==> Paced(device)
      ensures |device.fifo| <= |old(device.fifo)| && script == Rest(old(script))
    {
      hide Burning, Caused, FateOf;
      ghost var before;
      r, before := Send(c);
      BurningLater(old(device), before, sent, blocks, tail);
      PacedLater(old(device), before, sent, blocks, tail);
      ApplyBurning(before, c, sent, blocks, tail);
      if old(InProgram(device)) {
        ProgramLater(old(device), before);
      }
    }

    /** wait_status while writing. */
    method WaitWriting(done: Status -> bool, ghost sent: seq<byte>, ghost blocks: nat, ghost tail: seq<byte>) returns (r: Outcome)
      requires Burning(device, sent, blocks, tail)
      modifies `script, `device
      ensures Burning(device, sent, blocks, tail) && Caused(r, old(script), script) && Later(old(device), device)
      ensures r.Done? ==> exists overflow :: done(StatusOf(device, overflow))
      ensures old(Pacing(device)) ==> Pacing(device)
      ensures old(script) != [] && old(script)[0] == TICK && done(StatusOf(Steps(old(device), 1), false)) ==>
                r.Done? && script == old(script)[1..] && device == Steps(old(device), 1)
    {
      var status;
      r, status := WaitStatus(done);
      BurningLater(old(device), device, sent, blocks, tail);
      PacedLater(old(device), device, sent, blocks, tail);
    }

    /** Waiting for the chunk to be written. */
    method AwaitChunk(ghost sent: seq<byte>, ghost blocks: nat, ghost tail: seq<byte>) returns (r: Outcome)
      requires Burning(device, sent, blocks, tail)
      modifies `script, `device
      ensures Burning(device, sent, blocks, tail) && Caused(r, old(script), script) && Later(old(device), device)
      ensures (r.Done? ==> device.chunkDone) && (old(Pacing(device)) ==> Pacing(device))
      ensures (old(script) != [] && old(script)[0] == TICK && old(Loaded(device))) ==>
                r.Done? && script == old(script)[1..] && device.fifo == []
    {
      hide Burning, Fails, Overflows, Strays, Slow;
      if Loaded(device) {
        BurningWrites(device, sent, blocks, tail);
        WriteTick(device, |sent|, blocks);
      }
      r := WaitWriting((s: Status) => s.chunkDone, sent, blocks, tail);
    }

    /** Waiting for the FIFO to empty. */
    method DrainFifo(ghost sent: seq<byte>, ghost blocks: nat, ghost tail: seq<byte>) returns (r: Outcome)
      requires Burning(device, sent, blocks, tail) && InProgram(device)
      modifies `script, `device
      ensures Burning(device, sent, blocks, tail) && InProgram(device) && Caused(r, old(script), script) && Kept(old(device), device)
      ensures r.Done? ==> device.fifo == []
      ensures old(script) != [] && old(script)[0] == TICK && old(device.fifo) == [] ==> r.Done? && script == old(script)[1..]
    {
      hide Burning;
      while true
        invariant Burning(device, sent, blocks, tail) && InProgram(device) && Kept(old(device), device) && Rests(old(script), script)
        invariant |device.fifo| <= |old(device.fifo)| && (old(device.fifo) == [] && |script| < |old(script)| ==> !old(script)[0].ok)
        decreases |script|
      {
        if script == [] {
          return Threw(TimedOut);
        }
        ghost var d, rest := device, script;
        var e := Next();
        CausedLater(if e.ok then Done else Threw(Control), old(script), rest, script);
        BurningLater(d, device, sent, blocks, tail);
        PacedLater(d, device, sent, blocks, tail);
        ProgramLater(d, device);
        if !e.ok {
          return Threw(Control);
        }
        if device.fifo == [] {
          return Done;
        }
      }
    }

    /** start_flash_program. */
    method BeginProgram(ghost blocks: nat, ghost tail: seq<byte>) returns (r: Outcome)
      requires device.engine.Idle? && device.fifo == [] && device.programmed <= device.erased && Covered(device.erased, blocks)
      requires |device.memory| == ONLINE_BYTES && Burnt(device.memory, 0, [], blocks, tail)
      modifies this
      ensures Burning(device, [], blocks, tail) && InProgram(device) && Caused(r, old(script), script) && log == old(log) + [Sent(StartProgram(0), FateOf(old(script)))]
      ensures device.mode == old(device.mode) && (r.Done? <==> FateOf(old(script)).Answered?)
      ensures script == Rest(old(script)) && device.fifo == []
      ensures (Programs(device) <==> FateOf(old(script)).Applied()) && Paced(device)
    {
      assert blocks * BLOCK <= ONLINE_BYTES;
      hide Burnt;
      ghost var d, before := device, device;
      r, before := Send(StartProgram(0));
      QuietLater(d, before);
    }

    /** One turn of the program loop. */
    method ProgramChunk(data: seq<byte>, ghost sent: seq<byte>, ghost blocks: nat, ghost tail: seq<byte>) returns (r: Outcome)
      requires Burning(device, sent, blocks, tail) && Programs(device) && Paced(device)
      requires |sent| + |data| <= blocks * BLOCK && |data| == CHUNK
      modifies this
      ensures Caused(r, old(script), script) && Plain(old(log), log) && Kept(old(device), device)
      ensures r.Done? ==> Burning(device, sent + data, blocks, tail) && Paced(device)
      ensures Safe(device)
      ensures Ticking(old(script), 3) && old(device.fifo) == [] ==> r.Done? && script == old(script)[3..] && device.fifo == []
    {
      hide Burning, Safe, Fails, Overflows, Strays, Slow;
      if device.fifo == [] {
        ReadyTick(device);
      }
      r := SendChunk(data, sent, blocks, tail);
      ghost var all := if r.Done? then sent + data else sent;
      BurningIsSafe(device, all, blocks, tail);
      if r.Threw? {
        return;
      }
      ghost var rest := script;
      r := AwaitChunk(all, blocks, tail);
      CausedLater(r, old(script), rest, script);
      BurningIsSafe(device, all, blocks, tail);
      if r.Threw? {
        return;
      }
      rest := script;
      r := SendWriting(AckChunk, all, blocks, tail);
      CausedLater(r, old(script), rest, script);
      BurningIsSafe(device, all, blocks, tail);
    }

    /** The program loop. */
    method ProgramChunks(transfer: seq<byte>, ghost blocks: nat, ghost tail: seq<byte>) returns (r: Outcome)
      requires Burning(device, [], blocks, tail) && Programs(device) && Paced(device)
      requires |transfer| % CHUNK == 0 && |transfer| <= blocks * BLOCK
      modifies this
      ensures Caused(r, old(script), script) && Plain(old(log), log) && Kept(old(device), device)
      ensures r.Done? ==> Burning(device, transfer, blocks, tail)
      ensures Safe(device)
      ensures Ticking(old(script), 3 * (|transfer| / CHUNK)) && old(device.fifo) == [] ==>
                r.Done? && script == old(script)[3 * (|transfer| / CHUNK)..] && device.fifo == []
    {
      hide Burning, Safe, Paced, Ticking, Fails, Overflows, Strays, Slow;
      var sent := 0;
      ghost var good, c, n := Ticking(script, 3 * (|transfer| / CHUNK)) && device.fifo == [], 0, |transfer| / CHUNK;
      assert |transfer| == CHUNK * n;
      BurningIsSafe(device, [], blocks, tail);
      if good {
        AllThere(script, 3 * n);
      }
      while sent < |transfer|
        invariant sent <= |transfer| && sent % CHUNK == 0 && Safe(device) && Rests(old(script), script)
        invariant sent == CHUNK * c && (good ==> 3 * n <= |old(script)| && script == old(script)[3 * c..] && device.fifo == [])
        invariant Burning(device, transfer[..sent], blocks, tail) && Paced(device) && Plain(old(log), log) && Kept(old(device), device)
      {
        ghost var l, rest := log, script;
        WholeChunks(sent, |transfer|);
        if good {
          NextTicks(old(script), c, n);
        }
        r := ProgramChunk(transfer[sent..sent + CHUNK], transfer[..sent], blocks, tail);
        CausedLater(r, old(script), rest, script);
        PlainAppend(old(log), l, log);
        if r.Threw? {
          return;
        }
        assert transfer[..sent] + transfer[sent..sent + CHUNK] == transfer[..sent + CHUNK];
        sent, c := sent + CHUNK, c + 1;
      }
      assert transfer[..sent] == transfer;
      r := Done;
    }

    /** Draining the FIFO, stopping, and waiting for the last page. */
    method EndProgram(ghost sent: seq<byte>, ghost blocks: nat, ghost tail: seq<byte>) returns (r: Outcome, ghost stop: Fate)
      requires Burning(device, sent, blocks, tail) && InProgram(device)
      modifies this
      ensures Caused(r, old(script), script) && log == (if stop.Unsent? then old(log) else old(log) + [Sent(StopProgram, stop)]) && Safe(device)
      ensures r.Done? ==> device.engine.Idle? && |device.memory| == ONLINE_BYTES && stop.Answered?
      ensures r.Done? ==> Burning(device, sent, blocks, tail)
      ensures Ticking(old(script), 3) && old(device.fifo) == [] ==> r.Done? && script == old(script)[3..]
      ensures device.mode == old(device.mode) && (Programs(device) <==> old(Programs(device)) && !stop.Applied())
    {
      hide Safe, Burnt, Fails, Overflows, Strays, Slow;
      stop := Unsent;
      r := DrainFifo(sent, blocks, tail);
      BurningIsSafe(device, sent, blocks, tail);
      if r.Threw? {
        return;
      }
      stop := FateOf(script);
      ghost var rest := script;
      r := SendWriting(StopProgram, sent, blocks, tail);
      CausedLater(r, old(script), rest, script);
      BurningIsSafe(device, sent, blocks, tail);
      if r.Threw? {
        return;
      }
      ghost var d := device;
      if device.fifo == [] {
        FinishTick(device);
      }
      rest := script;
      r := WaitWriting((s: Status) => !s.busy, sent, blocks, tail);
      BurningIsSafe(device, sent, blocks, tail);
      CausedLater(r, old(script), rest, script);
      FinishingLater(d, device);
    }

    /**
     * Programming: stillOn is the `programming` flag that decides about the clean-up, start and stop are what became of the
     * two commands. The flag follows the answer to the start command, the engine the command itself.
     */
    method ProgramImage(transfer: seq<byte>, ghost blocks: nat, ghost tail: seq<byte>)
      returns (r: Outcome, stillOn: bool, ghost start: Fate, ghost stop: Fate)
      requires device.engine.Idle? && device.fifo == [] && device.programmed <= device.erased && Covered(device.erased, blocks)
      requires |device.memory| == ONLINE_BYTES && Burnt(device.memory, 0, [], blocks, tail)
      requires |transfer| % CHUNK == 0 && |transfer| <= blocks * BLOCK
      modifies this
      ensures Caused(r, old(script), script) && ProgramLog(old(log), log, start, stop) && Safe(device)
      ensures r.Done? ==> device.engine.Idle? && !stillOn && |device.memory| == ONLINE_BYTES
      ensures r.Done? ==> Burnt(device.memory, |transfer|, transfer, blocks, tail)
      ensures |log| > |old(log)| && log[|old(log)|] == Sent(StartProgram(0), start)
      ensures device.mode == old(device.mode) && start == FateOf(old(script))
      ensures Ticking(old(script), 3 * (|transfer| / CHUNK) + 4) ==> r.Done? && script == old(script)[3 * (|transfer| / CHUNK) + 4..]
      ensures stillOn <==> r.Threw? && start.Answered?
      ensures Programs(device) <==> start.Applied() && !stop.Applied()
      ensures (!start.Answered? ==> r.Threw? && stop.Unsent?) && (r.Done? ==> stop.Answered?)
    {
      hide Burnt, Safe, Paced, Ticking, FateIs, Logged, Rests, Fails, Overflows, Strays, Slow, NoSwitch;
      stillOn, start, stop := false, FateOf(script), Unsent;
      ghost var n := 3 * (|transfer| / CHUNK);
      if Ticking(script, n + 4) {
        ProgramTicks(script, n);
      }
      r := BeginProgram(blocks, tail);
      ProgramLogOne(old(log), Sent(StartProgram(0), start));
      BurningIsSafe(device, [], blocks, tail);
      if r.Threw? {
        return;
      }
      ghost var l, rest := log, script;
      r, stop := WriteImage(transfer, blocks, tail);
      CausedLater(r, old(script), rest, script);
      ProgramLogJoin(old(log), l, log, start, Unsent, Unsent, stop);
      stillOn := r.Threw?;
    }

    /** From the start command on: the chunks, and the end. */
    method WriteImage(transfer: seq<byte>, ghost blocks: nat, ghost tail: seq<byte>) returns (r: Outcome, ghost stop: Fate)
      requires Burning(device, [], blocks, tail) && Programs(device) && Paced(device) && device.fifo == []
      requires |transfer| % CHUNK == 0 && |transfer| <= blocks * BLOCK
      modifies this
      ensures Caused(r, old(script), script) && old(log) <= log && ProgramLog(old(log), log, Unsent, stop) && Safe(device)
      ensures r.Done? ==> device.engine.Idle? && |device.memory| == ONLINE_BYTES && stop.Answered?
      ensures r.Done? ==> Burnt(device.memory, |transfer|, transfer, blocks, tail)
      ensures var n := 3 * (|transfer| / CHUNK);
              Ticking(old(script), n) && Ticking(old(script)[n..], 3) ==> r.Done? && script == old(script)[n..][3..]
      ensures device.mode == old(device.mode) && (Programs(device) <==> !stop.Applied())
    {
      hide Burnt, Safe, Paced, Ticking, FateIs, Logged, Rests, Fails, Overflows, Strays, Slow, NoSwitch;
      stop := Unsent;
      r := ProgramChunks(transfer, blocks, tail);
      ProgramLogPlain(old(log), log);
      if r.Threw? {
        return;
      }
      ghost var l, rest := log, script;
      r, stop := EndProgram(transfer, blocks, tail);
      CausedLater(r, old(script), rest, script);
      if !stop.Unsent? {
        ProgramLogOne(l, Sent(StopProgram, stop));
        ProgramLogJoin(old(log), l, log, Unsent, Unsent, Unsent, stop);
      }
    }

    /** The answer to the start command is lost: the engine is left programming, and the flag is off. */
    method LostStart(transfer: seq<byte>, ghost blocks: nat, ghost tail: seq<byte>) returns (r: Outcome, stillOn: bool)
      requires device.engine.Idle? && device.fifo == [] && device.programmed <= device.erased && Covered(device.erased, blocks)
      requires |device.memory| == ONLINE_BYTES && Burnt(device.memory, 0, [], blocks, tail)
      requires |transfer| % CHUNK == 0 && |transfer| <= blocks * BLOCK
      requires script == [Access(0, false, true, false, None)]
      modifies this
      ensures r.Threw? && !stillOn && Programs(device) && Safe(device)
    {
      ghost var start, stop;
      r, stillOn, start, stop := ProgramImage(transfer, blocks, tail);
    }

    /** get_recv_buff: a stray packet, the board's answer, or nothing. */
    method Receive(ghost memory: seq<byte>, ghost addr: nat, ghost bytes: nat) returns (packet: Option<seq<byte>>)
      requires Reading(device, memory, addr, bytes) && device.engine == Queued(Read(addr, bytes))
      requires bytes <= CHUNK
      modifies `script, `device
      ensures Reading(device, memory, addr, bytes) && device.mode == old(device.mode)
      ensures packet.Some? && AnswersRead(packet.value, addr, bytes) ==>
                packet.value == ReadPacket(memory, addr, bytes) && device.engine.Idle?
      ensures Rests(old(script), script)
      ensures old(script) != [] && old(script)[0] == LONG ==>
                packet.Some? && AnswersRead(packet.value, addr, bytes) && script == old(script)[1..] && device.engine.Idle? && device.readDone
      ensures packet.None? ==> Caused(Threw(TimedOut), old(script), script)
      ensures packet.Some? && !AnswersRead(packet.value, addr, bytes) ==> Caused(Threw(BadPacket), old(script), script)
    {
      var e := Next();
      ReadLater(old(device), device, memory, addr, bytes);
      ReadPacketAnswers(memory, addr, bytes);
      if old(script) != [] {
        if e.steps >= 2 {
          ReadTakesTwo(old(device), e.steps, addr, bytes);
        }
      }
      if e.stray.Some? {
        return e.stray;
      }
      packet := device.packet;
      device := device.(packet := None);
    }

    /** One turn of the readback loop. */
    method ReadChunk(addr: nat, bytes: nat) returns (r: Outcome, data: seq<byte>)
      requires device.engine.Idle? && 0 < bytes <= CHUNK && addr + bytes <= ONLINE_BYTES && Safe(device)
      modifies this
      ensures Caused(r, old(script), script) && device.memory == old(device.memory) && Safe(device) && Kept(old(device), device)
      ensures r.Done? ==> device.engine.Idle? && data == device.memory[addr..addr + bytes]
      ensures |old(script)| >= 3 && ReadWell(old(script)[0], old(script)[1], old(script)[2]) ==> r.Done? && script == old(script)[3..]
      ensures log == old(log) + [Sent(StartRead(addr, bytes), FateOf(old(script)))]
    {
      hide Safe, Fails, Overflows, Strays, Slow;
      r, data := FetchChunk(addr, bytes);
      if r.Threw? {
        return;
      }
      ghost var d, rest := device, script;
      IdleStays(device, 1);
      var status;
      r, status := WaitStatus((s: Status) => s.readDone && !s.busy);
      QuietLater(d, device);
      CausedLater(r, old(script), rest, script);
      WithinRest(old(script), rest);
      if r.Done? && status.overflow {
        r := Threw(Overflow);
      }
    }

    /** Its command, and the packet that answers it. */
    method FetchChunk(addr: nat, bytes: nat) returns (r: Outcome, data: seq<byte>)
      requires device.engine.Idle? && 0 < bytes <= CHUNK && addr + bytes <= ONLINE_BYTES && Safe(device)
      modifies this
      ensures Caused(r, old(script), script) && device.memory == old(device.memory) && Safe(device) && Kept(old(device), device)
      ensures r.Done? ==> device.engine.Idle? && data == device.memory[addr..addr + bytes]
      ensures |old(script)| >= 2 && old(script)[0] == TICK && old(script)[1] == LONG ==>
                r.Done? && script == old(script)[2..] && device.readDone
      ensures log == old(log) + [Sent(StartRead(addr, bytes), FateOf(old(script)))]
    {
      hide Fails, Overflows, Strays, Slow;
      data := [];
      ghost var memory, before := device.memory, device;
      r, before := Send(StartRead(addr, bytes));
      QuietLater(old(device), before);
      if r.Threw? {
        return;
      }
      assert Reading(device, memory, addr, bytes);
      ghost var rest := script;
      var packet := Receive(memory, addr, bytes);
      CausedLater(if packet.None? then Threw(TimedOut) else if AnswersRead(packet.value, addr, bytes) then Done else Threw(BadPacket),
                  old(script), rest, script);
      if packet.None? {
        r := Threw(TimedOut);
        return;
      }
      if !AnswersRead(packet.value, addr, bytes) {
        r := Threw(BadPacket);
        return;
      }
      ReadPacketData(memory, addr, bytes);
      data := packet.value[HEADER_BYTES..];
    }

    /** readback_flash: chunk by chunk, each checked for its place. */
    method Readback(bytes: nat) returns (r: Outcome, data: seq<byte>)
      requires device.engine.Idle? && bytes <= ONLINE_BYTES && Safe(device)
      modifies this
      ensures Caused(r, old(script), script) && device.memory == old(device.memory) && Safe(device) && Kept(old(device), device)
      ensures r.Done? ==> device.engine.Idle? && data == device.memory[..bytes]
      ensures ReadsWell(old(script), Chunks(bytes)) ==> r.Done? && script == old(script)[3 * Chunks(bytes)..]
      ensures Plain(old(log), log) && NoErase(old(log), log)
    {
      hide ReadsWell, Fails, Strays, Overflows, Slow;
      r, data := Done, [];
      ghost var good, c, chunks := ReadsWell(script, Chunks(bytes)), 0, Chunks(bytes);
      RestsNow(script);
      if good {
        ReadsThere(script, chunks);
      }
      while |data| < bytes
        invariant device.engine.Idle? && device.memory == old(device.memory) && Safe(device)
        invariant |data| <= bytes && data == device.memory[..|data|] && Plain(old(log), log) && r.Done? && Kept(old(device), device)
        invariant |data| == (if CHUNK * c < bytes then CHUNK * c else bytes) && c <= chunks
        invariant good ==> 3 * chunks <= |old(script)| && script == old(script)[3 * c..]
        invariant Rests(old(script), script) && NoErase(old(log), log)
      {
        var n := if bytes - |data| < CHUNK then bytes - |data| else CHUNK;
        ghost var l, rest := log, script;
        var part;
        if good {
          NextRead(old(script), c, chunks);
        }
        r, part := ReadChunk(|data|, n);
        CausedLater(r, old(script), rest, script);
        PlainAppend(old(log), l, log);
        NoEraseAppend(old(log), l, log);
        if r.Threw? {
          return;
        }
        assert device.memory[..|data|] + device.memory[|data|..|data| + n] == device.memory[..|data| + n];
        data, c := data + part, c + 1;
        CausedMeans(r, old(script), script);
      }
    }

    /** save_and_verify; saved says whether the readback file could be written. */
    method SaveAndVerify(image: seq<byte>, saved: bool) returns (r: Outcome)
      requires device.engine.Idle? && |image| <= ONLINE_BYTES && Safe(device)
      modifies this
      ensures Rests(old(script), script) && device.memory == old(device.memory) && Safe(device) && Plain(old(log), log) && NoErase(old(log), log) && Kept(old(device), device)
      ensures ReadsWell(old(script), Chunks(|image|)) && saved && image <= device.memory ==> r.Done? && script == old(script)[3 * Chunks(|image|)..]
      ensures r.Done? ==> device.engine.Idle? && image <= device.memory
      ensures Caused(r, old(script), script) || (r == Threw(Control) && !saved) || (r == Threw(VerifyFailed) && !(image <= device.memory))
    {
      var data;
      r, data := Readback(|image|);
      if r.Threw? {
        return;
      }
      if !saved {
        return Threw(Control);
      }
      r := Verify(image, data);
    }

    /** A command outside the Flash engine's business. */
    method SendHarmless(c: Command) returns (r: Outcome)
      requires Harmless(c) && Guarded(c)
      modifies this
      ensures Caused(r, old(script), script) && (r.Done? <==> FateOf(old(script)).Answered?)
      ensures log == old(log) + [Sent(c, FateOf(old(script)))] && script == Rest(old(script))
      ensures device.mode == (if c.SetMode? && FateOf(old(script)).Applied() then c.on else old(device.mode))
      ensures Programs(device) == old(Programs(device))
      ensures (old(Settled(device)) ==> Settled(device)) && (old(Safe(device)) ==> Safe(device))
      ensures old(device.engine.Idle?) ==> RecordOf(device).(mode := false) == RecordOf(old(device)).(mode := false)
                                           && device.erased == old(device.erased) && device.memory == old(device.memory) && device.engine.Idle?
    {
      ghost var before;
      r, before := Send(c);
      if old(Safe(device)) {
        SafeLater(old(device), before);
        ApplySafe(before, c);
      }
      if old(Settled(device)) {
        SettledLater(old(device), before);
      }
      if old(device.engine.Idle?) {
        QuietLater(old(device), before);
      }
    }

    /**
     * Up to an idle engine in update mode: entered is the `update_mode` flag, which follows the answer to the mode command.
     * The records of the run start here.
     */
    method EnterUpdateMode() returns (r: Outcome, entered: bool, ghost enable: Fate)
      requires Settled(device)
      modifies this
      ensures Caused(r, old(script), script)
      ensures Settled(device) && (r.Done? ==> entered && device.engine.Idle? && device.programmed == {})
      ensures Programs(device) == old(Programs(device))
      ensures old(device.engine.Idle?) ==> device.memory == old(device.memory)
      ensures Ticking(old(script), 4) && old(device.engine.Idle?) ==> r.Done? && script == old(script)[4..]
      ensures old(log) < log && Commands(log[|old(log)|..]) <= [GetVersion, StopRx, SetMode(true)]
      ensures Logged(old(log), log, Fates(enable, Unsent, Unsent, Unsent)) && NoReload(old(log), log) && (entered ==> |log| == |old(log)| + 3)
      ensures device.mode == (enable.Applied() || old(device.mode)) && (entered <==> enable.Answered?)
      ensures FateOf(old(script)).Answered? && FateOf(Rest(old(script))).Answered? ==> enable == FateOf(Rest(Rest(old(script))))
    {
      hide FateIs, Logged, Caused, Rests, Safe, Fails, Overflows, Strays, Slow;
      if Ticking(script, 4) {
        TickingRest(script, 3, 1);
        DropMore(script, 3, 1);
      }
      r, enable := EnableUpdateMode();
      CausedMeans(r, old(script), script);
      entered := r.Done?;
      if r.Threw? {
        return;
      }
      ghost var rest := script;
      r := AwaitIdle();
      CausedLater(r, old(script), rest, script);
    }

    /** Its three commands. */
    method EnableUpdateMode() returns (r: Outcome, ghost enable: Fate)
      requires Settled(device)
      modifies this
      ensures Caused(r, old(script), script) && Settled(device) && Programs(device) == old(Programs(device))
      ensures old(device.engine.Idle?) ==> device.engine.Idle? && device.memory == old(device.memory)
      ensures Ticking(old(script), 3) ==> r.Done? && device.mode && script == old(script)[3..]
      ensures old(log) < log && Commands(log[|old(log)|..]) <= [GetVersion, StopRx, SetMode(true)]
      ensures Logged(old(log), log, Fates(enable, Unsent, Unsent, Unsent)) && NoReload(old(log), log) && (r.Done? ==> |log| == |old(log)| + 3)
      ensures device.mode == (enable.Applied() || old(device.mode)) && (r.Done? <==> enable.Answered?)
      ensures FateOf(old(script)).Answered? && FateOf(Rest(old(script))).Answered? ==> enable == FateOf(Rest(Rest(old(script))))
    {
      hide FateIs, Logged, Caused, Rests, Safe;
      enable := Unsent;
      r := SendHarmless(GetVersion);
      LoggedPlain(old(log), log);
      CausedMeans(r, old(script), script);
      if r.Threw? {
        return;
      }
      ghost var rest := script;
      r := SendHarmless(StopRx);
      CausedLater(r, old(script), rest, script);
      LoggedPlain(old(log), log);
      CausedMeans(r, old(script), script);
      if r.Threw? {
        return;
      }
      ghost var l := log;
      rest := script;
      enable := FateOf(script);
      r := SendHarmless(SetMode(true));
      CausedLater(r, old(script), rest, script);
      LoggedOne(l, Sent(SetMode(true), enable));
      LoggedJoin(old(log), l, log, NONE_SENT, Fates(enable, Unsent, Unsent, Unsent));
    }

    /** The mode check, and the wait for an earlier operation to end. */
    method AwaitIdle() returns (r: Outcome)
      requires Settled(device)
      modifies this
      ensures (Caused(r, old(script), script) || (r == Threw(NotInMode) && !device.mode)) && log == old(log) && device.mode == old(device.mode)
      ensures Settled(device) && (r.Done? ==> device.engine.Idle? && device.programmed == {})
      ensures Ticking(old(script), 1) && old(device.engine.Idle?) && old(device.mode) ==> r.Done? && script == old(script)[1..]
      ensures old(device.engine.Idle?) ==> device.memory == old(device.memory)
      ensures Programs(device) == old(Programs(device))
    {
      if device.engine.Idle? {
        IdleStays(device, 1);
      }
      var e := Next();
      if old(device.engine.Idle?) {
        QuietLater(old(device), device);
      }
      SettledLater(old(device), device);
      if !e.ok {
        return Threw(Control);
      }
      if !device.mode {
        return Threw(NotInMode);
      }
      if device.engine.Running? {
        ghost var d, rest := device, script;
        var status;
        r, status := WaitStatus((s: Status) => !s.busy);
        CausedLater(r, old(script), rest, script);
        SettledLater(d, device);
        if r.Threw? {
          return;
        }
      }
      device := device.(erased := {}, programmed := {});
      r := Done;
    }

    /** The erase and program part: stillOn is the `programming` flag. Done, the image is in the Flash, and nothing behind its blocks has changed. */
    method EraseAndProgram(transfer: seq<byte>) returns (r: Outcome, stillOn: bool, ghost start: Fate, ghost stop: Fate)
      requires Settled(device) && device.engine.Idle? && device.programmed == {} && |transfer| % CHUNK == 0 && |transfer| <= ONLINE_BYTES
      modifies this
      ensures Caused(r, old(script), script) && ProgramLog(old(log), log, start, stop) && Safe(device)
      ensures r.Done? ==> device.engine.Idle? && |device.memory| == ONLINE_BYTES && !stillOn
      ensures r.Done? ==> Holds(device.memory, transfer, old(device.memory))
      ensures var ticks := 4 * EraseBlockCount(|transfer|) + 3 * (|transfer| / CHUNK) + 4;
              Ticking(old(script), ticks) ==> r.Done? && script == old(script)[ticks..]
      ensures device.mode == old(device.mode) && ProgramFlag(device, false, r, stillOn, start, stop)
    {
      hide Burnt, ErasedUpTo, Fails, Overflows, Strays, Slow;
      stillOn, start, stop := false, Unsent, Unsent;
      var blocks := EraseBlockCount(|transfer|);
      if Ticking(script, 4 * blocks + (3 * (|transfer| / CHUNK) + 4)) {
        TickingRest(script, 4 * blocks, 3 * (|transfer| / CHUNK) + 4);
        DropMore(script, 4 * blocks, 3 * (|transfer| / CHUNK) + 4);
      }
      r := EraseBlocks(blocks);
      ProgramLogPlain(old(log), log);
      if r.Threw? {
        return;
      }
      ghost var l, rest, tail := log, script, old(device.memory)[blocks * BLOCK..];
      ErasedIsBurnt(device.memory, old(device.memory), blocks);
      r, stillOn, start, stop := ProgramImage(transfer, blocks, tail);
      CausedLater(r, old(script), rest, script);
      ProgramLogJoin(old(log), l, log, Unsent, Unsent, start, stop);
      if r.Done? {
        BurntIsHeld(device.memory, transfer, blocks, old(device.memory));
      }
    }

    /** The rest of the try block of run_program, from the idle engine on, with its two flags. */
    method Update(image: seq<byte>, transfer: seq<byte>, verifyOnly: bool, saved: bool)
      returns (r: Outcome, stillOn: bool, ghost start: Fate, ghost stop: Fate)
      requires Settled(device) && device.engine.Idle? && device.programmed == {}
      requires image <= transfer && |transfer| <= ONLINE_BYTES && |transfer| % CHUNK == 0
      modifies this
      ensures Rests(old(script), script) && ProgramLog(old(log), log, start, stop) && Safe(device)
      ensures r.Done? ==> device.engine.Idle? && image <= device.memory && !stillOn
      ensures verifyOnly ==> device.memory == old(device.memory) && NoErase(old(log), log)
      ensures r.Done? && !verifyOnly ==> Holds(device.memory, transfer, old(device.memory))
      ensures || Caused(r, old(script), script) || (r == Threw(Control) && !saved)
              || (r == Threw(VerifyFailed) && verifyOnly && !(image <= device.memory))
      ensures (|transfer| == 4096 * Chunks(|image|) && UpdateWorks(old(script), |image|, verifyOnly) && saved
               && (verifyOnly ==> image <= old(device.memory))) ==> r.Done? && script == old(script)[UpdateLength(|image|, verifyOnly)..]
      ensures device.mode == old(device.mode) && ProgramFlag(device, false, r, stillOn, start, stop)
    {
      hide Fails, Overflows, Strays, Slow, Safe, FateIs, Logged, Ticking, ReadsWell, UpdateWorks, UpdateLength, Chunks, Holds;
      stillOn, start, stop := false, Unsent, Unsent;
      ProgramLogPlain(log, log);
      if |transfer| == 4096 * Chunks(|image|) && UpdateWorks(script, |image|, verifyOnly) {
        UpdateParts(script, |image|, verifyOnly);
      }
      if !verifyOnly {
        r, stillOn, start, stop := EraseAndProgram(transfer);
        if r.Threw? {
          return;
        }
        HeldImage(device.memory, image, transfer, old(device.memory));
      }
      ghost var l, rest := log, script;
      r := SaveAndVerify(image, saved);
      LaterCause(r, old(script), rest, script);
      ProgramLogPlain(l, log);
      ProgramLogJoin(old(log), l, log, start, stop, Unsent, Unsent);
    }

    /** The clean-up of run_program's catch block; its commands may fail in turn. */
    method CleanUp(updateMode: bool, programming: bool) returns (ghost stop: Fate, ghost disable: Fate)
      requires Safe(device)
      modifies this
      ensures Rests(old(script), script)
      ensures Safe(device) && (!updateMode && !programming ==> device == old(device))
      ensures log == old(log) + CleanLog(stop, disable)
      ensures (stop.Unsent? <==> !programming) && (disable.Unsent? <==> !updateMode)
      ensures device.mode <==> old(device.mode) && !disable.Applied()
      ensures Programs(device) <==> old(Programs(device)) && !stop.Applied()
    {
      hide Safe, Rests;
      stop, disable := Unsent, Unsent;
      RestsNow(script);
      if programming {
        stop := FateOf(script);
        SendSafe(StopProgram);
      }
      ghost var rest := script;
      RestsNow(script);
      if updateMode {
        disable := FateOf(script);
        SendSafe(SetMode(false));
      }
      RestsStill(old(script), rest, script);
    }

    method SendSafe(c: Command)
      requires Safe(device) && (c.StopProgram? || c.SetMode?)
      modifies this
      ensures Rests(old(script), script)
      ensures Safe(device) && log == old(log) + [Sent(c, FateOf(old(script)))]
      ensures device.mode == if c.SetMode? && FateOf(old(script)).Applied() then c.on else old(device.mode)
      ensures Programs(device) <==> old(Programs(device)) && !(c.StopProgram? && FateOf(old(script)).Applied())
    {
      var r;
      ghost var before;
      r, before := Send(c);
      SafeLater(old(device), before);
      ApplySafe(before, c);
    }

    /** The try block of run_program up to the verified image, with its two flags. */
    method UpdateInMode(image: seq<byte>, transfer: seq<byte>, verifyOnly: bool, saved: bool)
      returns (r: Outcome, updateMode: bool, programming: bool, ghost fates: Fates)
      requires Settled(device) && image <= transfer && |transfer| <= ONLINE_BYTES && |transfer| % CHUNK == 0
      modifies this
      ensures Safe(device) && Rests(old(script), script) && (Caused(r, old(script), script) || Excused(r, verifyOnly, saved))
      ensures r == Threw(VerifyFailed) ==> !(image <= device.memory)
      ensures r.Done? ==> device.engine.Idle? && image <= device.memory && (!verifyOnly ==> transfer <= device.memory)
      ensures r.Done? ==> updateMode && !programming
      ensures Logged(old(log), log, fates) && fates.disable.Unsent? && NoReload(old(log), log) && (verifyOnly ==> NoErase(old(log), log))
      ensures (|transfer| == 4096 * Chunks(|image|) && Ticking(old(script), 4) && UpdateWorks(old(script)[4..], |image|, verifyOnly) && saved
               && old(device.engine.Idle?) && (verifyOnly ==> image <= old(device.memory))) ==>
                r.Done? && script == old(script)[4..][UpdateLength(|image|, verifyOnly)..]
      ensures ModeFlag(device, old(device.mode), updateMode, fates)
      ensures ProgramFlag(device, old(Programs(device)), r, programming, fates.start, fates.stop)
      ensures FateOf(old(script)).Answered? && FateOf(Rest(old(script))).Answered? ==> fates.enable == FateOf(Rest(Rest(old(script))))
    {
      hide FateIs, Logged, Safe, RecordOf, Caused, NoErase, Rests, Plain, UpdateWorks, Ticking, UpdateLength;
      programming, fates := false, NONE_SENT;
      ghost var enable, start, stop;
      r, updateMode, enable := EnterUpdateMode();
      fates := Fates(enable, Unsent, Unsent, Unsent);
      EnterNoErase(old(log), log);
      CausedMeans(r, old(script), script);
      if r.Threw? {
        return;
      }
      ghost var l, rest := log, script;
      r, programming, start, stop := Update(image, transfer, verifyOnly, saved);
      LoggedJoin(old(log), l, log, fates, Fates(Unsent, Unsent, start, stop));
      LaterCause(r, old(script), rest, script);
      if verifyOnly {
        NoEraseAppend(old(log), l, log);
      }
      fates := Fates(enable, Unsent, start, stop);
    }

    /**
     * The try block of run_program, with its two flags. verified: the image was found in the Flash, and the update mode
     * was left, before anything after that was sent.
     */
    method TryProgram(image: seq<byte>, transfer: seq<byte>, verifyOnly: bool, reboot: bool, saved: bool)
      returns (r: Outcome, updateMode: bool, programming: bool, ghost verified: bool, ghost fates: Fates)
      requires Settled(device) && image <= transfer && |transfer| <= ONLINE_BYTES && |transfer| % CHUNK == 0
      modifies this
      ensures Safe(device) && Rests(old(script), script) && (Caused(r, old(script), script) || Excused(r, verifyOnly, saved))
      ensures r == Threw(VerifyFailed) ==> !(image <= device.memory)
      ensures old(log) <= log && (verifyOnly ==> NoErase(old(log), log))
      ensures r.Done? && !verifyOnly && reboot ==> old(log) < log && log[|log| - 1] == Sent(Multiboot(0), Answered)
      ensures verified && !verifyOnly ==> transfer <= device.memory
      ensures if verified then image <= device.memory && !updateMode && !programming && !device.mode else NoReload(old(log), log)
      ensures (r.Done? ==> verified) && (verified ==> fates.enable.Answered?)
      ensures ReloadsLast(old(log), log) && (NoReload(old(log), log) || (!verifyOnly && reboot))
      ensures (|transfer| == 4096 * Chunks(|image|) && Works(old(script), |image|, verifyOnly, !verifyOnly && reboot) && saved
               && old(device.engine.Idle?) && (verifyOnly ==> image <= old(device.memory))) ==> r.Done?
      ensures Logged(old(log), log, fates)
      ensures ModeFlag(device, old(device.mode), updateMode, fates)
      ensures ProgramFlag(device, old(Programs(device)), r, programming, fates.start, fates.stop)
      ensures FateOf(old(script)).Answered? && FateOf(Rest(old(script))).Answered? ==> fates.enable == FateOf(Rest(Rest(old(script))))
    {
      hide FateIs, Logged, Safe, Caused, NoErase, Rests, LeaveLog, UpdateWorks, Ticking, UpdateLength;
      r, updateMode, programming, fates := UpdateInMode(image, transfer, verifyOnly, saved);
      verified := false;
      if r.Threw? {
        return;
      }
      ghost var l, rest := log, script;
      ghost var disable, reload;
      r, updateMode, disable, reload := LeaveUpdateMode(!verifyOnly && reboot);
      CausedLater(r, old(script), rest, script);
      CausedMeans(r, old(script), script);
      verified := !updateMode;
      LeaveLogged(old(log), l, log, fates, disable, reload);
      fates := fates.(disable := disable);
    }

    /** The end of the try block: out of the update mode, and then the reload, if it is wanted. */
    method LeaveUpdateMode(reload: bool) returns (r: Outcome, updateMode: bool, ghost disable: Fate, ghost reloaded: Fate)
      requires device.engine.Idle? && Safe(device)
      modifies this
      ensures Caused(r, old(script), script) && device.engine.Idle? && Safe(device) && device.memory == old(device.memory)
      ensures log == old(log) + LeaveLog(disable, reloaded) && !disable.Unsent? && (updateMode <==> !disable.Answered?)
      ensures (reloaded.Unsent? <==> updateMode || !reload) && (updateMode ==> r.Threw?) && (r.Done? && reload ==> reloaded.Answered?)
      ensures Ticking(old(script), if reload then 2 else 1) ==> r.Done?
      ensures device.mode <==> old(device.mode) && !disable.Applied()
    {
      hide Safe;
      disable, reloaded, updateMode := FateOf(script), Unsent, true;
      r := SendHarmless(SetMode(false));
      if r.Threw? {
        return;
      }
      updateMode := false;
      if reload {
        ghost var rest := script;
        reloaded := FateOf(script);
        r := SendHarmless(Multiboot(0));
        CausedLater(r, old(script), rest, script);
      }
    }

    /**
     * run_program for an image that read_bin accepts. confirmed is the answer to the prompt, available whether the
     * device and its transports could be opened.
     */
    method RunProgram(image: seq<byte>, verifyOnly: bool, reboot: bool, confirmed: bool, available: bool, saved: bool)
      returns (r: Outcome, ghost fates: Fates, ghost cleanStop: Fate, ghost cleanDisable: Fate)
      requires Settled(device) && 0 < |image| <= ONLINE_BYTES
      modifies this
      ensures Safe(device)
      ensures || Caused(r, old(script), script) || Excused(r, verifyOnly, saved)
              || (r == Threw(Control) && ((!verifyOnly && !confirmed) || !available))
      ensures (!verifyOnly && !confirmed) || !available ==> r == Threw(Control) && log == old(log) && device == old(device)
      ensures verifyOnly ==> NoErase(old(log), log)
      ensures r.Done? && !verifyOnly && reboot ==> old(log) < log && log[|log| - 1] == Sent(Multiboot(0), Answered)
      ensures r.Done? ==> image <= device.memory && (!verifyOnly ==> Padded(image) <= device.memory)
      ensures (Works(old(script), |image|, verifyOnly, !verifyOnly && reboot) && saved && confirmed && available
               && old(device.engine.Idle?) && (verifyOnly ==> image <= old(device.memory))) ==> r.Done?
      ensures NoReload(old(log), log) || (image <= device.memory && !verifyOnly && reboot && !device.mode)
      ensures ReloadsLast(old(log), log) && RunLog(old(log), log, fates, cleanStop, cleanDisable)
      ensures r.Done? ==> !device.mode && !Programs(device) && fates.enable.Answered?
      ensures r.Threw? ==> (Programs(device) <==> LeftProgramming(fates, cleanStop, old(Programs(device))))
      ensures old(Programs(device)) ==> r.Threw? && fates.start.Unsent? && fates.stop.Unsent? && cleanStop.Unsent?
      ensures r.Threw? ==> (device.mode <==> LeftInMode(fates, cleanDisable, old(device.mode)))
      ensures confirmed && available && FateOf(old(script)).Answered? && FateOf(Rest(old(script))).Answered? ==>
                fates.enable == FateOf(Rest(Rest(old(script))))
    {
      hide FateIs, Logged, Safe, Caused, NoErase, Rests, ReloadsLast, NoReload, RunLog, Works;
      fates, cleanStop, cleanDisable := NONE_SENT, Unsent, Unsent;
      NothingLogged(log);
      var transfer := Padded(image);
      PaddedFits(|image|, |transfer|);
      PaddedLength(|image|, |transfer|);
      if |transfer| > ONLINE_BYTES {
        r := Threw(TooLarge);
        return;
      }
      if (!verifyOnly && !confirmed) || !available {
        r := Threw(Control);
        return;
      }
      r, fates, cleanStop, cleanDisable := Attempt(image, transfer, verifyOnly, reboot, saved);
    }

    /** Its try block, and the clean-up if that fails. */
    method Attempt(image: seq<byte>, transfer: seq<byte>, verifyOnly: bool, reboot: bool, saved: bool)
      returns (r: Outcome, ghost fates: Fates, ghost cleanStop: Fate, ghost cleanDisable: Fate)
      requires Settled(device) && image <= transfer && |transfer| <= ONLINE_BYTES && |transfer| % CHUNK == 0
      modifies this
      ensures Safe(device) && (Caused(r, old(script), script) || Excused(r, verifyOnly, saved))
      ensures verifyOnly ==> NoErase(old(log), log)
      ensures r.Done? && !verifyOnly && reboot ==> old(log) < log && log[|log| - 1] == Sent(Multiboot(0), Answered)
      ensures r.Done? ==> image <= device.memory && (!verifyOnly ==> transfer <= device.memory)
      ensures (|transfer| == 4096 * Chunks(|image|) && Works(old(script), |image|, verifyOnly, !verifyOnly && reboot) && saved
               && old(device.engine.Idle?) && (verifyOnly ==> image <= old(device.memory))) ==> r.Done?
      ensures NoReload(old(log), log) || (image <= device.memory && !verifyOnly && reboot && !device.mode)
      ensures ReloadsLast(old(log), log) && RunLog(old(log), log, fates, cleanStop, cleanDisable)
      ensures Left(device, old(device.mode), old(Programs(device)), r, fates, cleanStop, cleanDisable)
      ensures FateOf(old(script)).Answered? && FateOf(Rest(old(script))).Answered? ==> fates.enable == FateOf(Rest(Rest(old(script))))
    {
      hide FateIs, Logged, Safe, Caused, NoErase, Rests, ReloadsLast, NoReload, RunLog, Works;
      cleanStop, cleanDisable := Unsent, Unsent;
      var updateMode, programming;
      ghost var verified;
      r, updateMode, programming, verified, fates := TryProgram(image, transfer, verifyOnly, reboot, saved);
      ghost var l, rest := log, script;
      if r.Threw? {
        cleanStop, cleanDisable := CleanUp(updateMode, programming);
        EarlierCause(r, old(script), rest, script);
      }
      CleanLogged(old(log), l, log, fates, cleanStop, cleanDisable);
    }

    /**
     * After a lost answer to the start command no later run of the updater helps: whatever n + 1 engine steps later happens, the
     * run fails, sends no stop command, and leaves the engine programming and the board as ready for another as it was.
     */
    method LostStartForGood(transfer: seq<byte>, ghost blocks: nat, ghost tail: seq<byte>, n: nat, later: seq<Env>,
                            image: seq<byte>, verifyOnly: bool, reboot: bool, confirmed: bool, available: bool, saved: bool)
      returns (r: Outcome, ghost fates: Fates)
      requires device.engine.Idle? && device.fifo == [] && device.programmed <= device.erased && Covered(device.erased, blocks)
      requires |device.memory| == ONLINE_BYTES && Burnt(device.memory, 0, [], blocks, tail)
      requires |transfer| % CHUNK == 0 && |transfer| <= blocks * BLOCK
      requires script == [Access(0, false, true, false, None)] && 0 < |image| <= ONLINE_BYTES
      modifies this
      ensures r.Threw? && fates.start.Unsent? && fates.stop.Unsent? && Programs(device) && Safe(device)
    {
      hide Safe, LeftInMode, RunLog, ReloadsLast;
      var stillOn;
      r, stillOn := LostStart(transfer, blocks, tail);
      SettledAgain(device, n + 1);
      device, script := Steps(device, n + 1), later;
      ghost var cleanStop, cleanDisable;
      r, fates, cleanStop, cleanDisable := RunProgram(image, verifyOnly, reboot, confirmed, available, saved);
    }

    /** The answer to the command that enables the update mode is lost: the run fails, and the mode stays on. */
    method LostEnable(image: seq<byte>, verifyOnly: bool, reboot: bool, saved: bool) returns (r: Outcome)
      requires Settled(device) && 0 < |image| <= ONLINE_BYTES
      requires script == [Access(0, true, true, false, None), Access(0, true, true, false, None), Access(0, false, true, false, None)]
      modifies this
      ensures r.Threw? && device.mode
    {
      ghost var fates, cleanStop, cleanDisable;
      r, fates, cleanStop, cleanDisable := RunProgram(image, verifyOnly, reboot, true, true, saved);
    }
  }

  /** The entries of the end of the try block. */
  function LeaveLog(disable: Fate, reloaded: Fate): seq<Sent> {
    [Sent(SetMode(false), disable)] + (if reloaded.Unsent? then [] else [Sent(Multiboot(0), reloaded)])
  }

  lemma LeaveLogged(a: seq<Sent>, m: seq<Sent>, b: seq<Sent>, fates: Fates, disable: Fate, reloaded: Fate)
    requires Logged(a, m, fates) && NoReload(a, m) && fates.disable.Unsent? && b == m + LeaveLog(disable, reloaded) && !disable.Unsent?
    requires reloaded.Unsent? || disable.Answered?
    ensures Logged(a, b, fates.(disable := disable)) && (NoErase(a, m) ==> NoErase(a, b)) && a <= m < b
    ensures ReloadsLast(a, b) && (reloaded.Unsent? ==> NoReload(a, b)) && (!reloaded.Unsent? ==> b[|b| - 1] == Sent(Multiboot(0), reloaded))
  {
    var off, last := Sent(SetMode(false), disable), Sent(Multiboot(0), reloaded);
    LoggedOne(m, off);
    LoggedJoin(a, m, m + [off], fates, OneFate(off));
    if reloaded.Unsent? {
      assert b == m + [off];
    } else {
      LoggedOne(m + [off], last);
      LoggedJoin(a, m + [off], b, fates.(disable := disable), OneFate(last));
      assert b == m + [off] + [last];
    }
    hide Logged;
    assert forall i :: |m| <= i < |b| ==> b[i] == LeaveLog(disable, reloaded)[i - |m|];
  }

  /** What the clean-up adds to the log of the try block. */
  lemma CleanLogged(a: seq<Sent>, m: seq<Sent>, b: seq<Sent>, fates: Fates, stop: Fate, disable: Fate)
    requires a <= m && b == m + CleanLog(stop, disable) && Logged(a, m, fates) && ReloadsLast(a, m)
    requires NoReload(a, m) || (stop.Unsent? && disable.Unsent?)
    ensures RunLog(a, b, fates, stop, disable) && ReloadsLast(a, b)
    ensures (NoErase(a, m) ==> NoErase(a, b)) && (NoReload(a, m) ==> NoReload(a, b)) && (CleanLog(stop, disable) == [] ==> b == m)
  {
    hide Logged;
    assert b[..|m|] == m && b[|m|..] == CleanLog(stop, disable);
    assert forall i :: |m| <= i < |b| ==> b[i] == CleanLog(stop, disable)[i - |m|];
  }

  /** The entries of a clean-up. */
  function CleanLog(stop: Fate, disable: Fate): seq<Sent> {
    (if stop.Unsent? then [] else [Sent(StopProgram, stop)]) + (if disable.Unsent? then [] else [Sent(SetMode(false), disable)])
  }

  /** A run's log: that of the try block, with these fates, and that of the clean-up. */
  ghost predicate RunLog(before: seq<Sent>, after: seq<Sent>, fates: Fates, cleanStop: Fate, cleanDisable: Fate) {
    var n := |after| - |CleanLog(cleanStop, cleanDisable)|;
    0 <= n && after[n..] == CleanLog(cleanStop, cleanDisable) && Logged(before, after[..n], fates)
  }

  /**
   * The `programming` flag follows the answers to the commands, the engine the commands. If it was programming before, the
   * run sends neither command and fails.
   */
  ghost predicate ProgramFlag(d: Device, before: bool, r: Outcome, programming: bool, start: Fate, stop: Fate) {
    && (Programs(d) <==> before || (start.Applied() && !stop.Applied()))
    && (programming ==> r.Threw? && start.Answered?) && (start.Lost? || before ==> r.Threw?)
    && (!start.Answered? ==> stop.Unsent?) && (start.Answered? && !programming ==> stop.Answered?) && (before ==> start.Unsent?)
  }

  /** The `update_mode` flag likewise. */
  ghost predicate ModeFlag(d: Device, before: bool, updateMode: bool, fates: Fates) {
    && (d.mode <==> (fates.enable.Applied() || before) && !fates.disable.Applied())
    && (updateMode <==> fates.enable.Answered? && !fates.disable.Answered?)
    && (!fates.enable.Answered? ==> fates.disable.Unsent?)
  }

  /**
   * A failed run leaves the engine programming when it was before, when the start command was carried out without an answer, or
   * when it was answered, no stop command of the try block was carried out, and the one of the clean-up was not either.
   */
  predicate LeftProgramming(fates: Fates, cleanStop: Fate, before: bool) {
    before || fates.start == Lost(true) || (fates.start.Answered? && !fates.stop.Applied() && cleanStop == Lost(false))
  }

  /**
   * It leaves the update mode on when the command for it was carried out without an answer, or was answered and neither
   * the command of the try block nor that of the clean-up to leave it was carried out; or when the mode was on before and
   * the command for it did not get through.
   */
  predicate LeftInMode(fates: Fates, cleanDisable: Fate, before: bool) {
    || fates.enable == Lost(true)
    || (fates.enable.Answered? && !fates.disable.Applied() && cleanDisable == Lost(false))
    || (!fates.enable.Applied() && before)
  }

  /** How a run leaves the board. */
  ghost predicate Left(d: Device, mode: bool, programs: bool, r: Outcome, fates: Fates, cleanStop: Fate, cleanDisable: Fate) {
    && (r.Done? ==> !d.mode && !Programs(d) && fates.enable.Answered?)
    && (r.Threw? ==> (Programs(d) <==> LeftProgramming(fates, cleanStop, programs)))
    && (programs ==> r.Threw? && fates.start.Unsent? && fates.stop.Unsent? && cleanStop.Unsent?)
    && (r.Threw? ==> (d.mode <==> LeftInMode(fates, cleanDisable, mode)))
  }

  /** No reload command was sent. */
  ghost predicate NoReload(before: seq<Sent>, after: seq<Sent>) {
    before <= after && forall i {:trigger after[i]} :: |before| <= i < |after| ==> !after[i].c.Multiboot?
  }

  lemma WholeChunks(sent: nat, bytes: nat)
    requires sent % CHUNK == 0 && bytes % CHUNK == 0 && sent < bytes
    ensures sent + CHUNK <= bytes && (sent + CHUNK) % CHUNK == 0
  {
  }

  lemma PaddedFits(image: nat, transfer: nat)
    requires image <= ONLINE_BYTES && transfer < image + CHUNK && transfer % CHUNK == 0
    ensures transfer <= ONLINE_BYTES
  {
  }

  lemma PaddedLength(image: nat, transfer: nat)
    requires image <= transfer < image + 4096 && transfer % 4096 == 0
    ensures transfer == 4096 * Chunks(image)
  {
  }

  /** verify_readback: done exactly when the bytes are the same. */
  method Verify(expected: seq<byte>, actual: seq<byte>) returns (r: Outcome)
    ensures r.Done? <==> actual == expected
    ensures r.Threw? ==> r.reason == if |actual| != |expected| then SizeMismatch else VerifyFailed
  {
    if |actual| != |expected| {
      return Threw(SizeMismatch);
    }
    for offset := 0 to |expected|
      invariant actual[..offset] == expected[..offset]
    {
      if actual[offset] != expected[offset] {
        return Threw(VerifyFailed);
      }
    }
    assert actual == actual[..|expected|] && expected == expected[..|expected|];
    r := Done;
  }

  lemma {:induction false} ProgramGoesOn(d: Device, n: nat)
    requires InProgram(d)
    ensures InProgram(Steps(d, n))
    decreases n
  {
    if n > 0 {
      ProgramGoesOn(d, n - 1);
    }
  }

  lemma ProgramLater(d: Device, e: Device)
    requires InProgram(d) && Later(d, e)
    ensures InProgram(e)
  {
    var n: nat :| e == Steps(d, n);
    ProgramGoesOn(d, n);
  }
}
