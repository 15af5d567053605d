/**
 The redo log (log.c) as a transition system: any number of file-system operations run
 between begin_op and end_op, the last one out commits, and a crash can hit between any two
 disk writes, including the writes of recovery itself.

 `view` is what the buffer cache shows for every block (the latest contents stored), `disk`
 is what survives a crash, and `head` is the list of block numbers that the header block on
 disk spells out (module Log has its bytes).  Operations are positions in `ops`, so every
 number of concurrent processes is covered.
 */
module LogMachine {
  import opened Blocks
  import opened Wrappers

  const LOGSIZE: nat := 30  // MAXOPBLOCKS * 3

  type Disk = seq<Block>

  /**
   log.start and log.size (both from the superblock), the number of blocks on the device, and
   the number of buffers in the cache (NBUF).
   */
  datatype Geometry = Geometry(start: nat, size: nat, nblocks: nat, nbuf: nat) {
    predicate Valid() {
      1 <= size && start + size <= nblocks < UINT_LIMIT
    }

    predicate InLog(b: int) {
      start <= b < start + size
    }

    // a block that the log may name: on the device, outside the log itself
    predicate Home(b: int) {
      0 <= b < nblocks && !InLog(b)
    }
  }

  // ---------------------------------------------------------------- replaying a log

  // distinct block numbers that the log may name
  ghost predicate HomeList(g: Geometry, lh: seq<nat>) {
    Distinct(lh) && forall i :: 0 <= i < |lh| ==> g.Home(lh[i])
  }

  // a list of block numbers the on-disk log can carry
  ghost predicate GoodList(g: Geometry, lh: seq<nat>) {
    |lh| <= LOGSIZE && |lh| <= g.size - 1 && HomeList(g, lh)
  }

  ghost predicate GoodDisk(g: Geometry, head: seq<nat>, disk: Disk) {
    g.Valid() && |disk| == g.nblocks && GoodList(g, head)
  }

  /** What a completed recovery leaves in home block b: its copy in the log if the header names it. */
  ghost function ImageAt(g: Geometry, head: seq<nat>, disk: Disk, b: nat): Block
    requires GoodDisk(g, head, disk) && b < g.nblocks
  {
    if i: nat :| i < |head| && head[i] == b then disk[g.start + 1 + i] else disk[b]
  }

  /** Recovering from this header and disk restores the home blocks of img. */
  ghost predicate Restores(g: Geometry, head: seq<nat>, disk: Disk, img: Disk) {
    && GoodDisk(g, head, disk) && |img| == g.nblocks
    && forall b: nat :: b < g.nblocks && g.Home(b) ==> ImageAt(g, head, disk, b) == img[b]
  }

  ghost predicate SameHome(g: Geometry, d: Disk, e: Disk) {
    && |d| == |e| == g.nblocks
    && forall b: nat :: b < g.nblocks && g.Home(b) ==> d[b] == e[b]
  }

  // ---------------------------------------------------------------- states and steps

  // a running operation: the blocks it has logged, the blocks it has changed in the cache
  // (under the buffer lock) and not yet logged, and the block for which it is inside
  // log_write, past the test of the log's length and before acquire(&log.lock)
  datatype Op = Op(logged: set<nat>, pending: set<nat>, passed: Option<nat>)

  const NewOp: Op := Op({}, {}, None)

  // where commit() or recover_from_log() stands; Idle is log.committing == 0
  datatype Phase = Idle | Copying(done: nat) | Installing(done: nat) | Finishing

  datatype State = State(head: seq<nat>, disk: Disk, view: Disk, lh: seq<nat>, ops: seq<Op>, phase: Phase)

  datatype Step =
    | BeginOp
    | Modify(p: nat, b: nat, data: Block)
    | Test(p: nat, b: nat)
    | Record(p: nat, b: nat)
    | EndOp(p: nat)
    | CopyLog
    | WriteHead(header: Block)
    | Install
    | Clear(header: Block)
    | Finish
    | Crash

  // begin_op lets another operation in (log.c:130-137)
  predicate MayBegin(s: State) {
    s.phase.Idle? && |s.lh| + (|s.ops| + 1) * MAXOPBLOCKS <= LOGSIZE
  }

  // the guard of log_write (log.c:218): false is a panic
  predicate GuardPasses(g: Geometry, s: State) {
    |s.lh| < LOGSIZE && |s.lh| < g.size - 1
  }

  // the blocks whose buffers cannot be recycled: logged ones are dirty, changed ones are held
  ghost function Pinned(s: State): set<nat> {
    Elements(s.lh) + (set p, b | 0 <= p < |s.ops| && b in s.ops[p].pending :: b)
  }

  /**
   A changed block is in the cache, so with the blocks pinned already it takes at most nbuf
   buffers.  write_log holds a buffer of the log beside those of all logged blocks.  A block
   beyond the end of the device cannot be written.
   */
  ghost predicate Enabled(g: Geometry, s: State, step: Step) {
    match step
    case BeginOp => MayBegin(s)
    case Modify(p, b, data) =>
      && s.phase.Idle? && p < |s.ops| && g.Home(b) && s.ops[p].passed.None?
      && (forall q :: 0 <= q < |s.ops| && q != p ==> b !in s.ops[q].pending)
      && |Pinned(s) + {b}| <= g.nbuf
    case Test(p, b) =>
      s.phase.Idle? && p < |s.ops| && b in s.ops[p].pending && s.ops[p].passed.None? && GuardPasses(g, s)
    case Record(p, b) => s.phase.Idle? && p < |s.ops| && s.ops[p].passed == Some(b)
    case EndOp(p) => s.phase.Idle? && p < |s.ops| && s.ops[p].pending == {}
    case CopyLog =>
      s.phase.Copying? && s.phase.done < |s.lh| < g.nbuf && g.start + 1 + s.phase.done < g.nblocks
    case WriteHead(_) => s.phase == Copying(|s.lh|) && s.lh != []
    case Install => s.phase.Installing? && s.phase.done < |s.lh| && g.start + 1 + s.phase.done < g.nblocks
    case Clear(_) => s.phase == Installing(|s.lh|)
    case Finish => s.phase.Finishing? || (s.phase == Copying(0) && s.lh == [])
    case Crash => true
  }

  // bwrite through the cache: the block reaches disk and view alike
  ghost function Write(s: State, b: nat, data: Block): State
    requires b < |s.disk| == |s.view|
  {
    s.(disk := s.disk[b := data], view := s.view[b := data])
  }

  // sizes under which the indices below make sense; Inv implies it
  ghost predicate Shape(g: Geometry, s: State) {
    && g.Valid() && |s.disk| == |s.view| == g.nblocks
    && forall i :: 0 <= i < |s.lh| ==> s.lh[i] < g.nblocks
  }

  ghost predicate Next(g: Geometry, s: State, step: Step, s': State) {
    && Shape(g, s)
    && Enabled(g, s, step)
    && match step
       case BeginOp => s' == s.(ops := s.ops + [NewOp])
       case Modify(p, b, data) =>
         s' == s.(view := s.view[b := data],
                  ops := s.ops[p := s.ops[p].(pending := s.ops[p].pending + {b})])
       case Test(p, b) => s' == s.(ops := s.ops[p := s.ops[p].(passed := Some(b))])
       case Record(p, b) =>
         s' == s.(lh := if b in s.lh then s.lh else s.lh + [b],
                  ops := s.ops[p := Op(s.ops[p].logged + {b}, s.ops[p].pending - {b}, None)])
       case EndOp(p) =>
         && s'.ops == s.ops[..p] + s.ops[p + 1..]
         && s' == s.(ops := s'.ops, phase := if s'.ops == [] then Copying(0) else Idle)
       case CopyLog =>
         s' == Write(s, g.start + 1 + s.phase.done, s.view[s.lh[s.phase.done]])
               .(phase := Copying(s.phase.done + 1))
       case WriteHead(header) => s' == Write(s, g.start, header).(head := s.lh, phase := Installing(0))
       case Install =>
         s' == Write(s, s.lh[s.phase.done], s.view[g.start + 1 + s.phase.done])
               .(phase := Installing(s.phase.done + 1))
       case Clear(header) =>
         s' == Write(s, g.start, header).(head := [], lh := [], phase := Finishing)
       case Finish => s' == s.(phase := Idle)
       case Crash => s' == State(s.head, s.disk, s.disk, s.head, [], Installing(0))
  }

  // ---------------------------------------------------------------- the invariant

  ghost predicate PendingSomewhere(s: State, b: nat) {
    exists p :: 0 <= p < |s.ops| && b in s.ops[p].pending
  }

  ghost predicate OpsOk(g: Geometry, s: State) {
    && (forall p, b :: 0 <= p < |s.ops| && b in s.ops[p].pending ==> g.Home(b))
    && (forall p, q :: 0 <= p < q < |s.ops| ==> s.ops[p].pending !! s.ops[q].pending)
    && (forall p, b :: 0 <= p < |s.ops| && b in s.ops[p].logged ==> b in s.lh)
    && (forall p :: 0 <= p < |s.ops| && s.ops[p].passed.Some? ==>
                     g.size >= 2 && s.ops[p].passed.value in s.ops[p].pending)
  }

  ghost predicate PhaseOk(g: Geometry, s: State)
    requires GoodDisk(g, s.head, s.disk) && |s.view| == g.nblocks && HomeList(g, s.lh)
  {
    match s.phase
    case Idle => s.head == [] && |Pinned(s)| <= g.nbuf
    case Copying(t) =>
      && s.head == [] && t <= |s.lh| <= g.nbuf && t <= g.size - 1 && s.ops == []
      && forall i :: 0 <= i < t ==> s.disk[g.start + 1 + i] == s.view[s.lh[i]]
    case Installing(t) =>
      && s.head == s.lh && t <= |s.lh| && s.ops == []
      && forall i :: 0 <= i < t ==> s.disk[s.lh[i]] == s.view[s.lh[i]] == s.disk[g.start + 1 + i]
    case Finishing => s.head == s.lh == [] && s.ops == []
  }

  ghost predicate Inv(g: Geometry, s: State) {
    && GoodDisk(g, s.head, s.disk) && |s.view| == g.nblocks && HomeList(g, s.lh) && |s.lh| <= LOGSIZE
    && (s.lh != [] ==> g.size >= 2)
    && OpsOk(g, s)
    && PhaseOk(g, s)
    && (forall b :: 0 <= b < g.nblocks && g.InLog(b) ==> s.view[b] == s.disk[b])
       // only logged or pending blocks differ from their disk copy
    && (forall b :: 0 <= b < g.nblocks && g.Home(b) && b !in s.lh && !PendingSomewhere(s, b)
                    ==> s.view[b] == s.disk[b])
  }

  /**
   What a step must not do: record an entry beyond the header's array, or copy a block to a
   place beyond the log region.  Nothing in log_write or write_log prevents either by itself;
   SafeRun says when no step of a run does.
   */
  ghost predicate SafeStep(g: Geometry, s: State, step: Step, s': State) {
    && (step.Record? ==> |s'.lh| <= LOGSIZE)
    && (step.CopyLog? && s.phase.Copying? ==> g.InLog(g.start + 1 + s.phase.done))
  }

  // what a step of a running operation leaves pending: all but the block it records
  ghost predicate StillPending(s: State, step: Step, s': State) {
    forall c :: PendingSomewhere(s, c) && !(step.Record? && c == step.b) ==> PendingSomewhere(s', c)
  }

  lemma BeginOpOps(g: Geometry, s: State, s': State)
    requires OpsOk(g, s) && Next(g, s, BeginOp, s')
    ensures OpsOk(g, s') && StillPending(s, BeginOp, s')
  {
    forall c | PendingSomewhere(s, c) ensures PendingSomewhere(s', c) {
      var q :| 0 <= q < |s.ops| && c in s.ops[q].pending;
      assert c in s'.ops[q].pending;
    }
  }

  lemma ModifyOps(g: Geometry, s: State, p: nat, b: nat, data: Block, s': State)
    requires OpsOk(g, s) && Next(g, s, Modify(p, b, data), s')
    ensures OpsOk(g, s') && StillPending(s, Modify(p, b, data), s') && PendingSomewhere(s', b)
    ensures |Pinned(s')| <= g.nbuf
  {
    assert b in s'.ops[p].pending;
    forall c | PendingSomewhere(s, c) ensures PendingSomewhere(s', c) {
      var q :| 0 <= q < |s.ops| && c in s.ops[q].pending;
      assert c in s'.ops[q].pending;
    }
    SubsetSize(Pinned(s'), Pinned(s) + {b});
  }

  lemma TestOps(g: Geometry, s: State, p: nat, b: nat, s': State)
    requires OpsOk(g, s) && Next(g, s, Test(p, b), s')
    ensures OpsOk(g, s') && StillPending(s, Test(p, b), s')
  {
    forall c | PendingSomewhere(s, c) ensures PendingSomewhere(s', c) {
      var q :| 0 <= q < |s.ops| && c in s.ops[q].pending;
      assert c in s'.ops[q].pending;
    }
  }

  lemma RecordOps(g: Geometry, s: State, p: nat, b: nat, s': State)
    requires OpsOk(g, s) && HomeList(g, s.lh) && Next(g, s, Record(p, b), s')
    ensures OpsOk(g, s') && StillPending(s, Record(p, b), s')
    ensures HomeList(g, s'.lh) && b in s'.lh && forall c :: c in s.lh ==> c in s'.lh
  {
    assert b in s.ops[p].pending;
    assert b in s'.lh by { if b !in s.lh { assert s'.lh[|s.lh|] == b; } }
    assert forall c :: c in s.lh ==> c in s'.lh;
    forall c | PendingSomewhere(s, c) && c != b ensures PendingSomewhere(s', c) {
      var q :| 0 <= q < |s.ops| && c in s.ops[q].pending;
      assert c in s'.ops[q].pending;
    }
  }

  lemma EndOpOps(g: Geometry, s: State, p: nat, s': State)
    requires OpsOk(g, s) && Next(g, s, EndOp(p), s')
    ensures OpsOk(g, s') && StillPending(s, EndOp(p), s')
  {
    assert forall q :: 0 <= q < |s'.ops| ==> s'.ops[q] == s.ops[if q < p then q else q + 1];
    forall c | PendingSomewhere(s, c) ensures PendingSomewhere(s', c) {
      var q :| 0 <= q < |s.ops| && c in s.ops[q].pending;
      assert c in s'.ops[if q < p then q else q - 1].pending;
    }
  }

  // no step of a running operation but Modify pins another block
  lemma PinnedShrinks(g: Geometry, s: State, step: Step, s': State)
    requires OpsOk(g, s) && Next(g, s, step, s')
    requires step.BeginOp? || step.Test? || step.Record? || step.EndOp?
    ensures |Pinned(s')| <= |Pinned(s)|
  {
    SubsetSize(Pinned(s'), Pinned(s));
  }

  lemma BeginOpKeeps(g: Geometry, s: State, s': State)
    requires Inv(g, s) && Next(g, s, BeginOp, s')
    ensures Inv(g, s')
  {
    BeginOpOps(g, s, s');
    PinnedShrinks(g, s, BeginOp, s');
  }

  lemma ModifyKeeps(g: Geometry, s: State, p: nat, b: nat, data: Block, s': State)
    requires Inv(g, s) && Next(g, s, Modify(p, b, data), s')
    ensures Inv(g, s')
  {
    ModifyOps(g, s, p, b, data, s');
  }

  lemma TestKeeps(g: Geometry, s: State, p: nat, b: nat, s': State)
    requires Inv(g, s) && Next(g, s, Test(p, b), s')
    ensures Inv(g, s')
  {
    TestOps(g, s, p, b, s');
    PinnedShrinks(g, s, Test(p, b), s');
  }

  lemma RecordKeeps(g: Geometry, s: State, p: nat, b: nat, s': State)
    requires Inv(g, s) && Next(g, s, Record(p, b), s') && SafeStep(g, s, Record(p, b), s')
    ensures Inv(g, s')
  {
    RecordOps(g, s, p, b, s');
    PinnedShrinks(g, s, Record(p, b), s');
  }

  lemma EndOpKeeps(g: Geometry, s: State, p: nat, s': State)
    requires Inv(g, s) && Next(g, s, EndOp(p), s')
    ensures Inv(g, s')
  {
    EndOpOps(g, s, p, s');
    PinnedShrinks(g, s, EndOp(p), s');
    LoggedArePinned(s');
  }

  lemma LoggedArePinned(s: State)
    requires Distinct(s.lh)
    ensures |s.lh| <= |Pinned(s)|
  {
    DistinctSize(s.lh);
    SubsetSize(Elements(s.lh), Pinned(s));
  }

  // while a commit or a recovery runs no operation is active, so nothing is pending
  lemma NothingPending(g: Geometry, s: State)
    requires Inv(g, s) && !s.phase.Idle?
    ensures s.ops == [] && forall b: nat :: !PendingSomewhere(s, b)
  {
  }

  lemma CopyLogKeeps(g: Geometry, s: State, s': State)
    requires Inv(g, s) && Next(g, s, CopyLog, s') && SafeStep(g, s, CopyLog, s')
    ensures Inv(g, s')
  {
    NothingPending(g, s);
  }

  lemma WriteHeadKeeps(g: Geometry, s: State, step: Step, s': State)
    requires Inv(g, s) && Next(g, s, step, s') && step.WriteHead?
    ensures Inv(g, s')
  {
    NothingPending(g, s);
  }

  lemma InstallKeeps(g: Geometry, s: State, s': State)
    requires Inv(g, s) && Next(g, s, Install, s')
    ensures Inv(g, s')
  {
    NothingPending(g, s);
  }

  lemma ClearKeeps(g: Geometry, s: State, step: Step, s': State)
    requires Inv(g, s) && Next(g, s, step, s') && step.Clear?
    ensures Inv(g, s')
  {
    NothingPending(g, s);
  }

  lemma FinishKeeps(g: Geometry, s: State, s': State)
    requires Inv(g, s) && Next(g, s, Finish, s')
    ensures Inv(g, s')
  {
    NothingPending(g, s);
    assert Pinned(s') == {};
  }

  /** Every step of every process, of the committer, of recovery, and every crash keeps Inv. */
  lemma InvStep(g: Geometry, s: State, step: Step, s': State)
    requires Inv(g, s) && Next(g, s, step, s') && SafeStep(g, s, step, s')
    ensures Inv(g, s')
  {
    match step
    case BeginOp => BeginOpKeeps(g, s, s');
    case Modify(p, b, data) => ModifyKeeps(g, s, p, b, data, s');
    case Test(p, b) => TestKeeps(g, s, p, b, s');
    case Record(p, b) => RecordKeeps(g, s, p, b, s');
    case EndOp(p) => EndOpKeeps(g, s, p, s');
    case CopyLog => CopyLogKeeps(g, s, s');
    case WriteHead(_) => WriteHeadKeeps(g, s, step, s');
    case Install => InstallKeeps(g, s, s');
    case Clear(_) => ClearKeeps(g, s, step, s');
    case Finish => FinishKeeps(g, s, s');
    case Crash =>
  }

  // ---------------------------------------------------------------- what a crash would leave

  lemma ImageOf(g: Geometry, head: seq<nat>, disk: Disk, b: nat)
    requires GoodDisk(g, head, disk) && b < g.nblocks
    ensures forall i: nat :: i < |head| && head[i] == b ==> ImageAt(g, head, disk, b) == disk[g.start + 1 + i]
    ensures b !in head ==> ImageAt(g, head, disk, b) == disk[b]
  {
  }

  lemma WriteHeadCommits(g: Geometry, s: State, step: Step, s': State, b: nat)
    requires Inv(g, s) && Next(g, s, step, s') && step.WriteHead? && b < g.nblocks && g.Home(b)
    ensures GoodDisk(g, s'.head, s'.disk)
    ensures ImageAt(g, s'.head, s'.disk, b) == s.view[b]
  {
    NothingPending(g, s);
    ImageOf(g, s'.head, s'.disk, b);
  }

  // when all blocks are installed the header is not needed any more
  lemma ClearImage(g: Geometry, s: State, step: Step, s': State, b: nat)
    requires Inv(g, s) && Next(g, s, step, s') && step.Clear? && b < g.nblocks && g.Home(b)
    ensures GoodDisk(g, s'.head, s'.disk)
    ensures ImageAt(g, s'.head, s'.disk, b) == ImageAt(g, s.head, s.disk, b)
  {
    ImageOf(g, s.head, s.disk, b);
    ImageOf(g, s'.head, s'.disk, b);
  }

  lemma OtherStepImage(g: Geometry, s: State, step: Step, s': State, b: nat)
    requires Inv(g, s) && Next(g, s, step, s') && SafeStep(g, s, step, s')
    requires !step.WriteHead? && b < g.nblocks && g.Home(b)
    ensures GoodDisk(g, s'.head, s'.disk)
    ensures ImageAt(g, s'.head, s'.disk, b) == ImageAt(g, s.head, s.disk, b)
  {
    ImageOf(g, s.head, s.disk, b);
    if step.Clear? {
      ClearImage(g, s, step, s', b);
    } else {
      assert s'.head == s.head;
      ImageOf(g, s'.head, s'.disk, b);
    }
  }

  /**
   The commit point: the write of the header is the only step that changes what recovery
   would restore, and it changes it to the cache contents of a moment at which no operation
   was running.
   */
  lemma StepImage(g: Geometry, s: State, step: Step, s': State, img: Disk)
    requires Inv(g, s) && Next(g, s, step, s') && SafeStep(g, s, step, s') && Restores(g, s.head, s.disk, img)
    ensures step.WriteHead? ==> s.ops == [] && Restores(g, s'.head, s'.disk, s.view)
    ensures !step.WriteHead? ==> Restores(g, s'.head, s'.disk, img)
  {
    var img' := if step.WriteHead? then s.view else img;
    InvStep(g, s, step, s');
    forall b: nat | b < g.nblocks && g.Home(b) ensures ImageAt(g, s'.head, s'.disk, b) == img'[b] {
      if step.WriteHead? {
        WriteHeadCommits(g, s, step, s', b);
      } else {
        OtherStepImage(g, s, step, s', b);
      }
    }
  }

  lemma WriteAheadStep(g: Geometry, s: State, step: Step, s': State, b: nat)
    requires Inv(g, s) && Next(g, s, step, s') && SafeStep(g, s, step, s')
    requires b < g.nblocks == |s.disk| == |s'.disk| && s'.disk[b] != s.disk[b]
    ensures s.ops == [] && !s.phase.Idle?
    ensures g.InLog(b) || b in s.head
  {
  }

  // ---------------------------------------------------------------- whole runs

  // initlog: an empty cache over a disk that may carry a committed transaction
  ghost predicate Boot(g: Geometry, s: State) {
    GoodDisk(g, s.head, s.disk) && s == State(s.head, s.disk, s.disk, s.head, [], Installing(0))
  }

  ghost predicate NextAt(g: Geometry, run: seq<State>, steps: seq<Step>, i: nat)
    requires i < |steps| < |run|
  {
    Next(g, run[i], steps[i], run[i + 1])
  }

  ghost predicate IsRun(g: Geometry, run: seq<State>, steps: seq<Step>) {
    && |run| == |steps| + 1
    && Boot(g, run[0])
    && forall i: nat {:trigger NextAt(g, run, steps, i)} :: i < |steps| ==> NextAt(g, run, steps, i)
  }

  // no operation has logged more than MAXOPBLOCKS distinct blocks
  ghost predicate Within(s: State) {
    forall p :: 0 <= p < |s.ops| ==> |s.ops[p].logged| <= MAXOPBLOCKS
  }

  /**
   A cache with no more buffers than the log has blocks and the header has entries, as in
   this kernel: NBUF, LOGSIZE and the log of mkfs are all 30.
   */
  predicate SmallCache(g: Geometry) {
    g.nbuf <= g.size && g.nbuf <= LOGSIZE
  }

  /**
   The geometries with which a run of operations that keep to MAXOPBLOCKS can write beyond
   the log region: two operations pass the unlocked test of log_write with log.size - 2
   entries, both record, and the cache has the buffers to commit log.size entries.
   */
  predicate CanSpill(g: Geometry) {
    && 2 <= g.size <= LOGSIZE && g.size < g.nbuf
    && g.start + g.size < g.nblocks && g.size <= g.nblocks - g.size
  }

  /** Either the cache is too small to commit an overfull list, or the list is never overfull. */
  ghost predicate Safe(g: Geometry, run: seq<State>) {
    SmallCache(g) || (!CanSpill(g) && forall k :: 0 <= k < |run| ==> Within(run[k]))
  }

  // ---------------------------------------------------------------- the space reservation

  // what the running operations may still add to the log
  ghost function Reserve(ops: seq<Op>): int {
    if ops == [] then 0 else MAXOPBLOCKS - |ops[0].logged| + Reserve(ops[1..])
  }

  lemma {:induction false} ReserveSplit(ops: seq<Op>, p: nat)
    requires p < |ops|
    ensures Reserve(ops) == Reserve(ops[..p]) + MAXOPBLOCKS - |ops[p].logged| + Reserve(ops[p + 1..])
  {
    if p == 0 {
    } else {
      ReserveSplit(ops[1..], p - 1);
      assert ops[1..][..p - 1] == ops[..p][1..];
      assert ops[1..][p..] == ops[p + 1..];
    }
  }

  lemma {:induction false} ReserveAppend(a: seq<Op>, b: seq<Op>)
    ensures Reserve(a + b) == Reserve(a) + Reserve(b)
  {
    if a == [] {
      assert a + b == b;
    } else {
      ReserveAppend(a[1..], b);
      assert (a + b)[1..] == a[1..] + b;
    }
  }

  lemma {:induction false} ReserveNonNegative(ops: seq<Op>)
    requires forall p :: 0 <= p < |ops| ==> |ops[p].logged| <= MAXOPBLOCKS
    ensures 0 <= Reserve(ops) <= |ops| * MAXOPBLOCKS
  {
    if ops != [] { ReserveNonNegative(ops[1..]); }
  }

  /** What begin_op reserves is there. */
  ghost predicate Budget(s: State) {
    s.phase.Idle? ==> |s.lh| + Reserve(s.ops) <= LOGSIZE
  }

  // as much of Inv as the reservation needs; it holds in all runs
  ghost predicate Accounts(s: State) {
    && (forall p, b :: 0 <= p < |s.ops| && b in s.ops[p].logged ==> b in s.lh)
    && (!s.phase.Idle? ==> s.ops == [])
    && (s.phase.Finishing? ==> s.lh == [])
  }

  lemma ReplaceOp(ops: seq<Op>, p: nat, op: Op)
    requires p < |ops|
    ensures Reserve(ops[p := op]) == Reserve(ops) + |ops[p].logged| - |op.logged|
  {
    ReserveSplit(ops, p);
    ReserveSplit(ops[p := op], p);
    assert ops[p := op][..p] == ops[..p];
    assert ops[p := op][p + 1..] == ops[p + 1..];
  }

  lemma RecordBudget(g: Geometry, s: State, p: nat, b: nat, s': State)
    requires Accounts(s) && Next(g, s, Record(p, b), s') && Budget(s)
    ensures Budget(s')
  {
    ReplaceOp(s.ops, p, s'.ops[p]);
    if b in s.ops[p].logged {
      assert s.ops[p].logged + {b} == s.ops[p].logged;
    }
  }

  lemma EndOpBudget(g: Geometry, s: State, p: nat, s': State)
    requires Accounts(s) && Next(g, s, EndOp(p), s') && Budget(s) && Within(s)
    ensures Budget(s')
  {
    ReserveSplit(s.ops, p);
    ReserveAppend(s.ops[..p], s.ops[p + 1..]);
  }

  lemma BudgetStep(g: Geometry, s: State, step: Step, s': State)
    requires Accounts(s) && Next(g, s, step, s') && Budget(s) && Within(s)
    ensures Budget(s')
  {
    match step
    case BeginOp =>
      ReserveNonNegative(s.ops);
      ReserveAppend(s.ops, [NewOp]);
    case Modify(p, b, data) => ReplaceOp(s.ops, p, s'.ops[p]);
    case Test(p, b) => ReplaceOp(s.ops, p, s'.ops[p]);
    case Record(p, b) => RecordBudget(g, s, p, b, s');
    case EndOp(p) => EndOpBudget(g, s, p, s');
    case _ =>
  }

  lemma AccountsStep(g: Geometry, s: State, step: Step, s': State)
    requires Accounts(s) && Next(g, s, step, s')
    ensures Accounts(s')
  {
    if step.Record? {
      assert step.b in s'.lh by { if step.b !in s.lh { assert s'.lh[|s.lh|] == step.b; } }
      assert forall c :: c in s.lh ==> c in s'.lh;
    }
  }

  lemma {:induction false} RunBudget(g: Geometry, run: seq<State>, steps: seq<Step>, i: nat)
    requires IsRun(g, run, steps) && i < |run|
    requires forall k :: 0 <= k < |run| ==> Within(run[k])
    ensures Accounts(run[i]) && Budget(run[i])
  {
    if i > 0 {
      RunBudget(g, run, steps, i - 1);
      assert NextAt(g, run, steps, i - 1);
      AccountsStep(g, run[i - 1], steps[i - 1], run[i]);
      BudgetStep(g, run[i - 1], steps[i - 1], run[i]);
    }
  }

  // ---------------------------------------------------------------- no step leaves the log region

  lemma HomeCount(g: Geometry, lh: seq<nat>)
    requires g.Valid() && HomeList(g, lh)
    ensures |lh| <= g.nblocks - g.size
  {
    DistinctSize(lh);
    var all, log := Range(0, g.nblocks), Range(g.start, g.start + g.size);
    assert all == (all - log) + log;
    SubsetSize(Elements(lh), all - log);
  }

  lemma SmallCacheSafe(g: Geometry, s: State, step: Step, s': State)
    requires Inv(g, s) && Next(g, s, step, s') && SmallCache(g)
    ensures SafeStep(g, s, step, s')
  {
    if step.Record? {
      PinnedShrinks(g, s, step, s');
      LoggedArePinned(s');
    }
  }

  /** In this kernel every step of the log keeps the invariant, with no condition on operations. */
  lemma SmallCacheStep(g: Geometry, s: State, step: Step, s': State)
    requires Inv(g, s) && Next(g, s, step, s') && SmallCache(g)
    ensures Inv(g, s')
  {
    SmallCacheSafe(g, s, step, s');
    InvStep(g, s, step, s');
  }

  lemma BudgetSafe(g: Geometry, s: State, step: Step, s': State)
    requires Inv(g, s) && Next(g, s, step, s') && Budget(s) && Budget(s') && Within(s') && !CanSpill(g)
    ensures SafeStep(g, s, step, s')
  {
    if step.Record? {
      ReserveNonNegative(s'.ops);
    } else if step.CopyLog? {
      HomeCount(g, s.lh);
    }
  }

  lemma {:induction false} RunInv(g: Geometry, run: seq<State>, steps: seq<Step>, i: nat)
    requires IsRun(g, run, steps) && Safe(g, run) && i < |run|
    ensures Inv(g, run[i])
    ensures i > 0 ==> SafeStep(g, run[i - 1], steps[i - 1], run[i])
  {
    if i > 0 {
      RunInv(g, run, steps, i - 1);
      assert NextAt(g, run, steps, i - 1);
      var s, step, s' := run[i - 1], steps[i - 1], run[i];
      if SmallCache(g) {
        SmallCacheSafe(g, s, step, s');
      } else {
        RunBudget(g, run, steps, i - 1);
        RunBudget(g, run, steps, i);
        BudgetSafe(g, s, step, s');
      }
      InvStep(g, s, step, s');
    }
  }

  /** Under the same conditions no step of the run leaves the header's array or the log region. */
  lemma SafeRun(g: Geometry, run: seq<State>, steps: seq<Step>, i: nat)
    requires IsRun(g, run, steps) && Safe(g, run) && i < |steps|
    ensures Inv(g, run[i]) && Next(g, run[i], steps[i], run[i + 1])
    ensures SafeStep(g, run[i], steps[i], run[i + 1])
  {
    RunInv(g, run, steps, i);
    RunInv(g, run, steps, i + 1);
    assert NextAt(g, run, steps, i);
  }

  /**
   Write-ahead: a block that changes on disk is either in the log region, or it is a home
   block that the header on disk already names; and no operation is then active.
   */
  lemma WriteAhead(g: Geometry, run: seq<State>, steps: seq<Step>, i: nat, b: nat)
    requires IsRun(g, run, steps) && Safe(g, run) && i < |steps|
    requires b < g.nblocks && |run[i].disk| == |run[i + 1].disk| == g.nblocks && run[i + 1].disk[b] != run[i].disk[b]
    ensures run[i].ops == [] && !run[i].phase.Idle?
    ensures g.InLog(b) || b in run[i].head
  {
    SafeRun(g, run, steps, i);
    WriteAheadStep(g, run[i], steps[i], run[i + 1], b);
  }

  // ---------------------------------------------------------------- the disk one would like to have

  /**
   The device that the log pretends to be: `current` is what operations see, `durable` what a
   crash leaves.  Stores change current, a commit makes it durable in one step, a crash goes
   back to durable.
   */
  datatype Ideal = Ideal(durable: Disk, current: Disk)

  function Stored(d: Disk, b: nat, data: Block): Disk {
    if b < |d| then d[b := data] else d
  }

  function IdealNext(i: Ideal, step: Step): Ideal {
    match step
    case Modify(_, b, data) => i.(current := Stored(i.current, b, data))
    case WriteHead(_) => Ideal(i.current, i.current)
    case Crash => Ideal(i.durable, i.durable)
    case _ => i
  }

  /** The ideal device after the first i steps, from the home blocks img. */
  function IdealAt(steps: seq<Step>, img: Disk, i: nat): Ideal
    requires i <= |steps|
  {
    if i == 0 then Ideal(img, img) else IdealNext(IdealAt(steps, img, i - 1), steps[i - 1])
  }

  // a state whose log is empty on disk and in memory, with nothing running
  ghost predicate Quiescent(s: State) {
    s.lh == [] && s.ops == [] && (s.phase.Finishing? || s.phase.Idle?)
  }

  lemma QuiescentAgrees(g: Geometry, s: State, img: Disk)
    requires Inv(g, s) && Quiescent(s) && Restores(g, s.head, s.disk, img)
    ensures SameHome(g, s.disk, img) && SameHome(g, s.view, img)
  {
    forall b: nat | b < g.nblocks && g.Home(b) ensures s.disk[b] == s.view[b] == img[b] {
      assert !PendingSomewhere(s, b);
      ImageOf(g, s.head, s.disk, b);
    }
  }

  lemma SwapImage(g: Geometry, s: State, d: Disk, e: Disk)
    requires Restores(g, s.head, s.disk, d) && SameHome(g, d, e)
    ensures Restores(g, s.head, s.disk, e)
  {
  }

  // recovery restores durable, and the cache shows current once a recovery is over
  ghost predicate Shows(g: Geometry, s: State, i: Ideal) {
    && |i.current| == g.nblocks && Restores(g, s.head, s.disk, i.durable)
    && (s.phase.Installing? ==> i.current == i.durable)
    && (!s.phase.Installing? ==> SameHome(g, s.view, i.current))
  }

  lemma ShowsBoot(g: Geometry, s: State, img: Disk)
    requires Boot(g, s) && Restores(g, s.head, s.disk, img)
    ensures Shows(g, s, Ideal(img, img))
  {
  }

  lemma ShowsCommit(g: Geometry, s: State, step: Step, s': State, i: Ideal)
    requires Inv(g, s) && Next(g, s, step, s') && step.WriteHead? && Shows(g, s, i)
    ensures Shows(g, s', IdealNext(i, step))
  {
    StepImage(g, s, step, s', i.durable);
    SwapImage(g, s', s.view, i.current);
  }

  lemma ShowsClear(g: Geometry, s: State, step: Step, s': State, i: Ideal)
    requires Inv(g, s) && Next(g, s, step, s') && step.Clear? && Shows(g, s, i)
    ensures Shows(g, s', IdealNext(i, step))
  {
    StepImage(g, s, step, s', i.durable);
    InvStep(g, s, step, s');
    QuiescentAgrees(g, s', i.durable);
  }

  lemma ShowsStep(g: Geometry, s: State, step: Step, s': State, i: Ideal)
    requires Inv(g, s) && Next(g, s, step, s') && SafeStep(g, s, step, s') && Shows(g, s, i)
    ensures Shows(g, s', IdealNext(i, step))
  {
    if step.WriteHead? {
      ShowsCommit(g, s, step, s', i);
    } else if step.Clear? {
      ShowsClear(g, s, step, s', i);
    } else {
      StepImage(g, s, step, s', i.durable);
    }
  }

  lemma {:induction false} RunShows(g: Geometry, run: seq<State>, steps: seq<Step>, img: Disk, i: nat)
    requires IsRun(g, run, steps) && Safe(g, run) && i < |run| && Restores(g, run[0].head, run[0].disk, img)
    ensures Shows(g, run[i], IdealAt(steps, img, i))
  {
    if i == 0 {
      ShowsBoot(g, run[0], img);
    } else {
      RunShows(g, run, steps, img, i - 1);
      SafeRun(g, run, steps, i - 1);
      ShowsStep(g, run[i - 1], steps[i - 1], run[i], IdealAt(steps, img, i - 1));
    }
  }

  /**
   Crash atomicity over whole runs, as a refinement: however operations interleave, wherever
   crashes cut commits, and however often recovery itself is cut, recovery restores the
   durable contents of the ideal device, and running operations see its current contents.
   */
  lemma CrashAtomicity(g: Geometry, run: seq<State>, steps: seq<Step>, img: Disk, i: nat)
    requires IsRun(g, run, steps) && Safe(g, run) && i < |run| && Restores(g, run[0].head, run[0].disk, img)
    ensures var ideal := IdealAt(steps, img, i);
            && Restores(g, run[i].head, run[i].disk, ideal.durable)
            && (!run[i].phase.Installing? ==> SameHome(g, run[i].view, ideal.current))
  {
    RunShows(g, run, steps, img, i);
  }

  /** Once a commit or a recovery has finished, cache and disk both show the durable contents. */
  lemma Settled(g: Geometry, run: seq<State>, steps: seq<Step>, img: Disk, i: nat)
    requires IsRun(g, run, steps) && Safe(g, run) && i < |run| && Restores(g, run[0].head, run[0].disk, img)
    requires Quiescent(run[i])
    ensures var ideal := IdealAt(steps, img, i);
            SameHome(g, run[i].disk, ideal.durable) && SameHome(g, run[i].view, ideal.durable)
            && SameHome(g, ideal.current, ideal.durable)
  {
    RunInv(g, run, steps, i);
    CrashAtomicity(g, run, steps, img, i);
    QuiescentAgrees(g, run[i], IdealAt(steps, img, i).durable);
  }

  // ---------------------------------------------------------------- when log_write panics

  // every running operation has used up its reservation
  ghost predicate Spent(s: State) {
    forall p :: 0 <= p < |s.ops| ==> |s.ops[p].logged| == MAXOPBLOCKS
  }

  lemma NoReserve(ops: seq<Op>, p: nat)
    requires forall q :: 0 <= q < |ops| ==> |ops[q].logged| <= MAXOPBLOCKS
    requires Reserve(ops) <= 0 && p < |ops|
    ensures |ops[p].logged| == MAXOPBLOCKS
  {
    ReserveSplit(ops, p);
    ReserveNonNegative(ops[..p]);
    ReserveNonNegative(ops[p + 1..]);
  }

  /**
   What begin_op's reservation buys, in a run whose operations keep to MAXOPBLOCKS.  The test
   of log_write fails in two cases: the log region is full, which a log longer than LOGSIZE
   rules out, or the header is full and every operation has used up its reservation, when
   only a block that is in the log already can be asked for.  So with log.size > LOGSIZE an
   operation with reservation left never fails it.
   */
  lemma ReservationHolds(g: Geometry, run: seq<State>, steps: seq<Step>, i: nat)
    requires IsRun(g, run, steps) && i < |run|
    requires forall k :: 0 <= k < |run| ==> Within(run[k])
    requires run[i].phase.Idle?
    ensures var s := run[i];
            !GuardPasses(g, s) <==> |s.lh| >= g.size - 1 || (|s.lh| == LOGSIZE && Spent(s))
    ensures forall p :: 0 <= p < |run[i].ops| && |run[i].ops[p].logged| < MAXOPBLOCKS && g.size > LOGSIZE
                        ==> GuardPasses(g, run[i])
  {
    RunBudget(g, run, steps, i);
    var s := run[i];
    ReserveNonNegative(s.ops);
    if |s.lh| >= LOGSIZE {
      forall p | 0 <= p < |s.ops| ensures |s.ops[p].logged| == MAXOPBLOCKS {
        NoReserve(s.ops, p);
      }
    }
  }
}
