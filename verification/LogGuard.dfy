/**
 Runs in which the log's bookkeeping fails although every operation keeps to MAXOPBLOCKS.

 begin_op reserves LOGSIZE entries (log.c:132), log_write stops at log.size - 1 of them
 (log.c:218), and it tests that before it takes the lock (log.c:223).  mkfs gives the log
 LOGSIZE blocks including the header (mkfs.c:25).
 */
module LogGuard {
  import opened Blocks
  import opened Wrappers
  import opened LogMachine

  /** The log that mkfs lays out, with NBUF buffers. */
  const MkfsLog: Geometry := Geometry(2, LOGSIZE, 2000, 30)

  // the i-th block outside the log
  function HomeBlock(g: Geometry, i: nat): nat {
    if i < g.start then i else i + g.size
  }

  ghost function BlankDisk(g: Geometry): Disk {
    seq(g.nblocks, i => ZeroBlock)
  }

  // ---------------------------------------------------------------- filling the log

  // three operations share the log's thirty entries: the one that logs entry i
  function Owner(i: nat): nat {
    if i < 9 || i == 28 then 0 else if i < 18 || i == 29 then 1 else 2
  }

  // how many of the first j entries are k's
  function Share(k: nat, j: nat): nat {
    if k == 0 then (if j < 9 then j else if j <= 28 then 9 else 10)
    else if k == 1 then (if j < 9 then 0 else if j < 18 then j - 9 else if j <= 29 then 9 else 10)
    else if j < 18 then 0 else if j < 28 then j - 18 else 10
  }

  ghost function Logged(g: Geometry, k: nat, j: nat): (r: set<nat>)
    requires k < 3 && j <= LOGSIZE
    ensures forall i :: j <= i ==> HomeBlock(g, i) !in r
    ensures |r| == Share(k, j)
  {
    if j == 0 then {}
    else if Owner(j - 1) == k then
      assert HomeBlock(g, j - 1) !in Logged(g, k, j - 1);
      Logged(g, k, j - 1) + {HomeBlock(g, j - 1)}
    else Logged(g, k, j - 1)
  }

  ghost function Ops(g: Geometry, j: nat): seq<Op>
    requires j <= LOGSIZE
  {
    seq(3, k requires 0 <= k < 3 => Op(Logged(g, k, j), {}, None))
  }

  /** Three operations are running and have logged the first j home blocks between them. */
  ghost function Filled(g: Geometry, j: nat): State
    requires j <= LOGSIZE
  {
    State([], BlankDisk(g), BlankDisk(g), seq(j, i requires 0 <= i => HomeBlock(g, i)), Ops(g, j), Idle)
  }

  // enough home blocks and buffers for n entries
  predicate Room(g: Geometry, n: nat) {
    g.Valid() && n <= LOGSIZE && n <= g.nbuf && n <= g.nblocks - g.size
  }

  ghost predicate WithinRun(g: Geometry, run: seq<State>, steps: seq<Step>) {
    IsRun(g, run, steps) && forall k :: 0 <= k < |run| ==> Within(run[k])
  }

  lemma Extend(g: Geometry, run: seq<State>, steps: seq<Step>, step: Step, s: State)
    returns (run': seq<State>, steps': seq<Step>)
    requires WithinRun(g, run, steps) && Next(g, run[|run| - 1], step, s) && Within(s)
    ensures WithinRun(g, run', steps') && run'[|run'| - 1] == s
    ensures run' == run + [s] && steps' == steps + [step]
  {
    run', steps' := run + [s], steps + [step];
    forall i: nat | i < |steps'| ensures NextAt(g, run', steps', i) {
      if i < |steps| {
        assert NextAt(g, run, steps, i);
      }
    }
  }

  ghost function Calm(g: Geometry): State {
    State([], BlankDisk(g), BlankDisk(g), [], [], Idle)
  }

  // boot on a blank image
  lemma BootUp(g: Geometry) returns (run: seq<State>, steps: seq<Step>)
    requires g.Valid()
    ensures WithinRun(g, run, steps) && run[|run| - 1] == Calm(g)
  {
    run, steps := [Calm(g).(phase := Installing(0))], [];
    assert BlankDisk(g)[g.start := ZeroBlock] == BlankDisk(g);
    run, steps := Extend(g, run, steps, Clear(ZeroBlock), Calm(g).(phase := Finishing));
    run, steps := Extend(g, run, steps, Finish, Calm(g));
  }

  // and let three operations begin
  lemma ThreeBegin(g: Geometry) returns (run: seq<State>, steps: seq<Step>)
    requires g.Valid()
    ensures WithinRun(g, run, steps) && run[|run| - 1] == Filled(g, 0)
  {
    run, steps := BootUp(g);
    run, steps := Extend(g, run, steps, BeginOp, Calm(g).(ops := [NewOp]));
    run, steps := Extend(g, run, steps, BeginOp, Calm(g).(ops := [NewOp, NewOp]));
    run, steps := Extend(g, run, steps, BeginOp, Calm(g).(ops := [NewOp, NewOp, NewOp]));
    assert Filled(g, 0) == Calm(g).(ops := [NewOp, NewOp, NewOp]);
  }

  // ---------------------------------------------------------------- the steps of one operation

  ghost function Modified(s: State, p: nat, b: nat, data: Block): State
    requires p < |s.ops| && b < |s.view|
  {
    s.(view := s.view[b := data], ops := s.ops[p := s.ops[p].(pending := s.ops[p].pending + {b})])
  }

  ghost function Tested(s: State, p: nat, b: nat): State
    requires p < |s.ops|
  {
    s.(ops := s.ops[p := s.ops[p].(passed := Some(b))])
  }

  ghost function Recorded(s: State, p: nat, b: nat): State
    requires p < |s.ops|
  {
    s.(lh := if b in s.lh then s.lh else s.lh + [b],
       ops := s.ops[p := Op(s.ops[p].logged + {b}, s.ops[p].pending - {b}, None)])
  }

  lemma PinnedAtMost(s: State, extra: set<nat>, b: nat)
    requires Distinct(s.lh) && forall p :: 0 <= p < |s.ops| ==> s.ops[p].pending <= extra
    ensures |Pinned(s) + {b}| <= |s.lh| + |extra| + 1
  {
    DistinctSize(s.lh);
    SubsetSize(Pinned(s) + {b}, Elements(s.lh) + extra + {b});
  }

  lemma FilledFacts(g: Geometry, j: nat)
    requires Room(g, j)
    ensures Within(Filled(g, j)) && Shape(g, Filled(g, j)) && Distinct(Filled(g, j).lh)
    ensures forall i :: j <= i ==> HomeBlock(g, i) !in Filled(g, j).lh
  {
  }

  lemma ModifyFilled(g: Geometry, p: nat, j: nat, b: nat)
    requires Room(g, j) && p < 3 && g.Home(b) && (j < g.nbuf || b in Filled(g, j).lh)
    ensures var s := Modified(Filled(g, j), p, b, ZeroBlock);
            Next(g, Filled(g, j), Modify(p, b, ZeroBlock), s) && Within(s)
    ensures Modified(Filled(g, j), p, b, ZeroBlock).view == BlankDisk(g)
  {
    FilledFacts(g, j);
    PinnedAtMost(Filled(g, j), {}, b);
    if b in Filled(g, j).lh {
      assert Pinned(Filled(g, j)) + {b} == Elements(Filled(g, j).lh);
      DistinctSize(Filled(g, j).lh);
    }
  }

  lemma TestFilled(g: Geometry, p: nat, j: nat, b: nat)
    requires Room(g, j) && p < 3 && g.Home(b) && j < LOGSIZE && j < g.size - 1
    ensures var s := Modified(Filled(g, j), p, b, ZeroBlock);
            Next(g, s, Test(p, b), Tested(s, p, b)) && Within(Tested(s, p, b))
  {
    FilledFacts(g, j);
  }

  lemma RecordFilled(g: Geometry, j: nat)
    requires Room(g, j + 1)
    ensures var p, b := Owner(j), HomeBlock(g, j);
            Next(g, Tested(Modified(Filled(g, j), p, b, ZeroBlock), p, b), Record(p, b), Filled(g, j + 1))
  {
    FilledFacts(g, j);
    RecordedIs(g, j);
  }

  lemma LoggedNext(g: Geometry, k: nat, j: nat)
    requires k < 3 && j < LOGSIZE
    ensures Logged(g, k, j + 1) == if Owner(j) == k then Logged(g, k, j) + {HomeBlock(g, j)} else Logged(g, k, j)
  {
  }

  lemma RecordedIs(g: Geometry, j: nat)
    requires Room(g, j + 1)
    ensures var p, b := Owner(j), HomeBlock(g, j);
            var s := Tested(Modified(Filled(g, j), p, b, ZeroBlock), p, b);
            s.ops[p].pending == {b} && Recorded(s, p, b) == Filled(g, j + 1)
  {
    var p, b := Owner(j), HomeBlock(g, j);
    var s := Tested(Modified(Filled(g, j), p, b, ZeroBlock), p, b);
    assert {} + {b} == {b} && {b} - {b} == {};
    assert s.ops[p].pending == {b} && s.ops[p].pending - {b} == {};
    var ops, next := Recorded(s, p, b).ops, Ops(g, j + 1);
    forall k | 0 <= k < 3 ensures ops[k] == next[k] {
      LoggedNext(g, k, j);
    }
    assert ops == next;
    FilledFacts(g, j);
    assert b !in s.lh && Filled(g, j + 1).lh == s.lh + [b];
    assert s.view == BlankDisk(g);
  }

  /** The log fills up to any length that the test lets through. */
  lemma {:induction false} LogMany(g: Geometry, j: nat) returns (run: seq<State>, steps: seq<Step>)
    requires Room(g, j) && j <= g.size - 1
    ensures WithinRun(g, run, steps) && run[|run| - 1] == Filled(g, j)
  {
    if j == 0 {
      run, steps := ThreeBegin(g);
    } else {
      run, steps := LogMany(g, j - 1);
      var p, b := Owner(j - 1), HomeBlock(g, j - 1);
      var s := Modified(Filled(g, j - 1), p, b, ZeroBlock);
      ModifyFilled(g, p, j - 1, b);
      run, steps := Extend(g, run, steps, Modify(p, b, ZeroBlock), s);
      TestFilled(g, p, j - 1, b);
      run, steps := Extend(g, run, steps, Test(p, b), Tested(s, p, b));
      RecordFilled(g, j - 1);
      FilledFacts(g, j);
      run, steps := Extend(g, run, steps, Record(p, b), Filled(g, j));
    }
  }

  // ---------------------------------------------------------------- the test of log_write fails

  /**
   With a log of at most LOGSIZE blocks, such as that of mkfs, there is a run in which no
   operation exceeds MAXOPBLOCKS, and one that has reservation left and a new block to log
   cannot log it.
   */
  lemma ReservationFails(g: Geometry) returns (run: seq<State>, steps: seq<Step>, p: nat, b: nat)
    requires Room(g, g.size)
    ensures IsRun(g, run, steps) && forall k :: 0 <= k < |run| ==> Within(run[k])
    ensures var s := run[|run| - 1];
            && s.phase.Idle? && p < |s.ops| && b in s.ops[p].pending && b !in s.lh
            && |s.ops[p].logged| < MAXOPBLOCKS && !GuardPasses(g, s)
  {
    var j := g.size - 1;
    p, b := Owner(j), HomeBlock(g, j);
    run, steps := LogMany(g, j);
    ModifyFilled(g, p, j, b);
    FilledFacts(g, j);
    run, steps := Extend(g, run, steps, Modify(p, b, ZeroBlock), Modified(Filled(g, j), p, b, ZeroBlock));
  }

  /**
   A longer log does not rule the panic out: with every reservation used up, an operation
   that changes one of its own blocks once more cannot log it, although it needs no entry.
   */
  lemma AbsorbedFails(g: Geometry) returns (run: seq<State>, steps: seq<Step>, p: nat, b: nat)
    requires Room(g, LOGSIZE) && g.size > LOGSIZE
    ensures IsRun(g, run, steps) && forall k :: 0 <= k < |run| ==> Within(run[k])
    ensures var s := run[|run| - 1];
            && s.phase.Idle? && p < |s.ops| && b in s.ops[p].pending && b in s.ops[p].logged
            && |s.ops[p].logged| == MAXOPBLOCKS && |s.lh| == LOGSIZE && !GuardPasses(g, s)
  {
    p, b := 2, HomeBlock(g, 27);
    run, steps := LogMany(g, LOGSIZE);
    assert Filled(g, LOGSIZE).lh[27] == b;
    ModifyFilled(g, p, LOGSIZE, b);
    assert b in Logged(g, 2, 28) && Logged(g, 2, 28) == Logged(g, 2, 30);
    run, steps := Extend(g, run, steps, Modify(p, b, ZeroBlock), Modified(Filled(g, LOGSIZE), p, b, ZeroBlock));
  }

  // ---------------------------------------------------------------- the log region is left

  function OneBlock(): (b: Block)
    ensures b != ZeroBlock
  {
    var b := seq(BSIZE, _ => 1);
    assert b[0] != ZeroBlock[0];
    b
  }

  // two operations can both find room for the last entry
  predicate Tight(g: Geometry) {
    Room(g, g.size) && g.size >= 2
  }

  // the two blocks that operations 0 and 1 change when there is one entry left
  function X(g: Geometry): nat
    requires g.size >= 2
  {
    HomeBlock(g, g.size - 2)
  }

  function Y(g: Geometry): nat
    requires g.size >= 1
  {
    HomeBlock(g, g.size - 1)
  }

  // operations 0 and 1 are in states a and b, the log holds n entries, Y has been changed
  ghost function Racing(g: Geometry, a: Op, b: Op, n: nat): State
    requires Tight(g)
  {
    State([], BlankDisk(g), Stored(BlankDisk(g), Y(g), OneBlock()), seq(n, i requires 0 <= i => HomeBlock(g, i)),
          [a, b, Op(Logged(g, 2, g.size - 2), {}, None)], Idle)
  }

  // operation k (0 or 1) has changed its block, passed the test, recorded it
  ghost function Changed(g: Geometry, k: nat): Op
    requires Tight(g) && k < 2
  {
    Op(Logged(g, k, g.size - 2), {HomeBlock(g, g.size - 2 + k)}, None)
  }

  ghost function Passed(g: Geometry, k: nat): Op
    requires Tight(g) && k < 2
  {
    Changed(g, k).(passed := Some(HomeBlock(g, g.size - 2 + k)))
  }

  ghost function Done(g: Geometry, k: nat): Op
    requires Tight(g) && k < 2
  {
    Op(Logged(g, k, g.size - 2) + {HomeBlock(g, g.size - 2 + k)}, {}, None)
  }

  lemma RacingFacts(g: Geometry, a: Op, b: Op, n: nat)
    requires Tight(g) && n <= g.size
    ensures var s := Racing(g, a, b, n);
            && Shape(g, s) && Distinct(s.lh) && (forall i :: n <= i ==> HomeBlock(g, i) !in s.lh)
            && (|a.logged| <= MAXOPBLOCKS && |b.logged| <= MAXOPBLOCKS ==> Within(s))
  {
  }

  // the state in which only operation 0 has changed its block
  ghost function OneChanged(g: Geometry): State
    requires Tight(g)
  {
    Modified(Filled(g, g.size - 2), 0, X(g), ZeroBlock)
  }

  lemma OneChangedIs(g: Geometry)
    requires Tight(g)
    ensures OneChanged(g)
            == Racing(g, Changed(g, 0), Op(Logged(g, 1, g.size - 2), {}, None), g.size - 2).(view := BlankDisk(g))
  {
    var s := OneChanged(g);
    assert s.view == BlankDisk(g);
    assert {} + {X(g)} == {X(g)};
    assert s.ops == [Changed(g, 0), Op(Logged(g, 1, g.size - 2), {}, None), Op(Logged(g, 2, g.size - 2), {}, None)];
  }

  lemma SecondMay(g: Geometry)
    requires Tight(g)
    ensures Shape(g, OneChanged(g)) && Enabled(g, OneChanged(g), Modify(1, Y(g), OneBlock()))
  {
    var s := OneChanged(g);
    OneChangedIs(g);
    RacingFacts(g, s.ops[0], s.ops[1], g.size - 2);
    PinnedAtMost(s, {X(g)}, Y(g));
  }

  lemma SecondModify(g: Geometry)
    requires Tight(g)
    ensures Next(g, OneChanged(g), Modify(1, Y(g), OneBlock()), Racing(g, Changed(g, 0), Changed(g, 1), g.size - 2))
  {
    var s, s' := OneChanged(g), Racing(g, Changed(g, 0), Changed(g, 1), g.size - 2);
    OneChangedIs(g);
    SecondMay(g);
    assert {} + {Y(g)} == {Y(g)};
    assert s'.ops == s.ops[1 := s.ops[1].(pending := s.ops[1].pending + {Y(g)})];
  }

  lemma BothModify(g: Geometry) returns (run: seq<State>, steps: seq<Step>)
    requires Tight(g)
    ensures WithinRun(g, run, steps) && run[|run| - 1] == Racing(g, Changed(g, 0), Changed(g, 1), g.size - 2)
  {
    run, steps := LogMany(g, g.size - 2);
    ModifyFilled(g, 0, g.size - 2, X(g));
    run, steps := Extend(g, run, steps, Modify(0, X(g), ZeroBlock), OneChanged(g));
    SecondModify(g);
    RacingFacts(g, Changed(g, 0), Changed(g, 1), g.size - 2);
    run, steps := Extend(g, run, steps, Modify(1, Y(g), OneBlock()),
      Racing(g, Changed(g, 0), Changed(g, 1), g.size - 2));
  }

  lemma BothTest(g: Geometry) returns (run: seq<State>, steps: seq<Step>)
    requires Tight(g)
    ensures WithinRun(g, run, steps) && run[|run| - 1] == Racing(g, Passed(g, 0), Passed(g, 1), g.size - 2)
  {
    run, steps := BothModify(g);
    RacingFacts(g, Changed(g, 0), Changed(g, 1), g.size - 2);
    RacingFacts(g, Passed(g, 0), Changed(g, 1), g.size - 2);
    RacingFacts(g, Passed(g, 0), Passed(g, 1), g.size - 2);
    run, steps := Extend(g, run, steps, Test(0, X(g)), Racing(g, Passed(g, 0), Changed(g, 1), g.size - 2));
    run, steps := Extend(g, run, steps, Test(1, Y(g)), Racing(g, Passed(g, 0), Passed(g, 1), g.size - 2));
  }

  lemma OneMore(g: Geometry, n: nat)
    ensures seq(n + 1, i requires 0 <= i => HomeBlock(g, i)) == seq(n, i requires 0 <= i => HomeBlock(g, i))
              + [HomeBlock(g, n)]
  {
  }

  // operation k records its block; before and after are the two operations' states
  lemma OneRecords(g: Geometry, k: nat, a: Op, b: Op, a': Op, b': Op)
    requires Tight(g) && k < 2
    requires (if k == 0 then a else b) == Passed(g, k) && (if k == 0 then b' == b else a' == a)
    requires (if k == 0 then a' else b') == Done(g, k)
    ensures Next(g, Racing(g, a, b, g.size - 2 + k), Record(k, HomeBlock(g, g.size - 2 + k)),
                 Racing(g, a', b', g.size - 1 + k))
  {
    var s, n := Racing(g, a, b, g.size - 2 + k), g.size - 2 + k;
    RacingFacts(g, a, b, n);
    OneMore(g, n);
    assert {HomeBlock(g, n)} - {HomeBlock(g, n)} == {};
    assert Racing(g, a', b', n + 1).ops == s.ops[k := Done(g, k)];
    assert HomeBlock(g, n) !in s.lh && Racing(g, a', b', n + 1).lh == s.lh + [HomeBlock(g, n)];
  }

  ghost function Overfull(g: Geometry): State
    requires Tight(g)
  {
    Racing(g, Done(g, 0), Done(g, 1), g.size)
  }

  lemma BothRecord(g: Geometry) returns (run: seq<State>, steps: seq<Step>)
    requires Tight(g)
    ensures WithinRun(g, run, steps) && run[|run| - 1] == Overfull(g)
  {
    run, steps := FirstRecords(g);
    RacingFacts(g, Done(g, 0), Done(g, 1), g.size);
    OneRecords(g, 1, Done(g, 0), Passed(g, 1), Done(g, 0), Done(g, 1));
    run, steps := Extend(g, run, steps, Record(1, Y(g)), Overfull(g));
  }

  lemma FirstRecords(g: Geometry) returns (run: seq<State>, steps: seq<Step>)
    requires Tight(g)
    ensures WithinRun(g, run, steps) && run[|run| - 1] == Racing(g, Done(g, 0), Passed(g, 1), g.size - 1)
  {
    run, steps := BothTest(g);
    RacingFacts(g, Done(g, 0), Passed(g, 1), g.size - 1);
    OneRecords(g, 0, Passed(g, 0), Passed(g, 1), Done(g, 0), Passed(g, 1));
    run, steps := Extend(g, run, steps, Record(0, X(g)), Racing(g, Done(g, 0), Passed(g, 1), g.size - 1));
  }

  // the machine's step out of the first operation
  lemma FirstEnds(g: Geometry, s: State)
    requires Shape(g, s) && s.phase.Idle? && s.ops != [] && s.ops[0].pending == {} && Within(s)
    ensures var s' := s.(ops := s.ops[1..], phase := if |s.ops| == 1 then Copying(0) else Idle);
            Next(g, s, EndOp(0), s') && Within(s')
  {
    assert s.ops[..0] + s.ops[1..] == s.ops[1..];
  }

  lemma AllEnd(g: Geometry) returns (run: seq<State>, steps: seq<Step>)
    requires Tight(g)
    ensures WithinRun(g, run, steps) && run[|run| - 1] == Overfull(g).(ops := [], phase := Copying(0))
  {
    run, steps := BothRecord(g);
    RacingFacts(g, Done(g, 0), Done(g, 1), g.size);
    var s := Overfull(g);
    var t, u := s.(ops := s.ops[1..]), s.(ops := s.ops[1..][1..]);
    FirstEnds(g, s);
    run, steps := Extend(g, run, steps, EndOp(0), t);
    FirstEnds(g, t);
    run, steps := Extend(g, run, steps, EndOp(0), u);
    FirstEnds(g, u);
    run, steps := Extend(g, run, steps, EndOp(0), s.(ops := [], phase := Copying(0)));
  }

  lemma CopyNext(g: Geometry, t: nat)
    requires Tight(g) && CanSpill(g) && t < g.size - 1
    ensures var s := Overfull(g).(ops := []);
            Next(g, s.(phase := Copying(t)), CopyLog, s.(phase := Copying(t + 1)))
  {
    var s := Overfull(g);
    assert s.view[s.lh[t]] == ZeroBlock;
    assert s.disk[g.start + 1 + t := ZeroBlock] == s.disk;
    assert s.view[g.start + 1 + t := ZeroBlock] == s.view;
  }

  lemma {:induction false} CopyMany(g: Geometry, t: nat) returns (run: seq<State>, steps: seq<Step>)
    requires Tight(g) && CanSpill(g) && t <= g.size - 1
    ensures WithinRun(g, run, steps) && run[|run| - 1] == Overfull(g).(ops := [], phase := Copying(t))
  {
    if t == 0 {
      run, steps := AllEnd(g);
    } else {
      run, steps := CopyMany(g, t - 1);
      CopyNext(g, t - 1);
      run, steps := Extend(g, run, steps, CopyLog, Overfull(g).(ops := [], phase := Copying(t)));
    }
  }

  /** The run writes, in its last step, a home block b that the header on disk does not name. */
  ghost predicate NotAhead(g: Geometry, run: seq<State>, steps: seq<Step>, b: nat) {
    && WithinRun(g, run, steps) && |steps| > 0
    && var s, s' := run[|steps| - 1], run[|steps|];
    && b < g.nblocks && g.Home(b) && b !in s.head && |s.disk| == |s'.disk| == g.nblocks
    && s'.disk[b] != s.disk[b]
  }

  /**
   Two operations pass the unlocked test with room for one entry, both record, and the commit
   copies the last block over the first one behind the log region, which no header names.
   */
  lemma Spills(g: Geometry) returns (run: seq<State>, steps: seq<Step>, b: nat)
    requires g.Valid() && CanSpill(g)
    ensures NotAhead(g, run, steps, b) && b == g.start + g.size
  {
    run, steps := CopyMany(g, g.size - 1);
    b := g.start + g.size;
    var s := Overfull(g).(ops := [], phase := Copying(g.size - 1));
    assert s.lh[g.size - 1] == Y(g) && s.view[Y(g)] == OneBlock();
    var s' := Write(s, b, OneBlock()).(phase := Copying(g.size));
    run, steps := Extend(g, run, steps, CopyLog, s');
  }

  /** Operations within MAXOPBLOCKS can break write-ahead with exactly the geometries of CanSpill. */
  lemma SpillsExactly(g: Geometry)
    requires g.Valid()
    ensures CanSpill(g) <==> exists run, steps, b :: NotAhead(g, run, steps, b)
  {
    if CanSpill(g) {
      var run, steps, b := Spills(g);
    } else {
      forall run, steps, b ensures !NotAhead(g, run, steps, b) {
        if NotAhead(g, run, steps, b) {
          WriteAhead(g, run, steps, |steps| - 1, b);
        }
      }
    }
  }

  /**
   What happens in this kernel instead: with as many buffers as log blocks the same two
   operations leave a commit for which bread finds no buffer, before its first write.
   */
  lemma CommitStuck(g: Geometry) returns (run: seq<State>, steps: seq<Step>)
    requires Tight(g) && g.nbuf == g.size
    ensures WithinRun(g, run, steps)
    ensures var s := run[|run| - 1]; s.phase == Copying(0) && s.lh != [] && !Enabled(g, s, CopyLog)
  {
    run, steps := AllEnd(g);
  }

  /** The log of mkfs with NBUF buffers: no run leaves the log region, and a commit can get stuck. */
  lemma InThisKernel() returns (run: seq<State>, steps: seq<Step>)
    ensures SmallCache(MkfsLog) && WithinRun(MkfsLog, run, steps)
    ensures var s := run[|run| - 1]; s.phase == Copying(0) && s.lh != [] && !Enabled(MkfsLog, s, CopyLog)
  {
    run, steps := CommitStuck(MkfsLog);
  }
}
