// Sleep locks over sleep and wakeup, as a transition system over any number of processes.
// Each acquire, release and assignment of acquiresleep, releasesleep, holdingsleep, sleep and
// wakeup is one step; processes interleave freely, may be killed while asleep, may be
// preempted when they hold no spinlock, and may sleep and wake on other channels.
module SleepLock {
  import opened Wrappers

  // where a process stands
  datatype Pc =
    | Idle                       // outside, not holding the sleep lock
    | Holding                    // outside, holding it
    | AcquireStart               // acquiresleep
    | AcquireTest
    | AcquireSet
    | AcquirePid
    | AcquireEnd
    | SleepStart                 // sleep, called from acquiresleep
    | SleepRelease
    | SleepChan
    | SleepState
    | SleepSched
    | Asleep
    | WokenChan
    | WokenEnd
    | ReleaseStart               // releasesleep
    | ReleaseClear
    | ReleasePid
    | WakeStart                  // wakeup, called from releasesleep
    | Waking(next: nat)          // wakeup1's loop
    | ReleaseEnd
    | HoldingStart(held: bool)   // holdingsleep; held: called while holding the lock
    | HoldingRead(held: bool)
    | HoldingEnd(held: bool, r: bool)
    | AsleepElsewhere            // asleep on some other channel

  datatype RunState = Running | Runnable | Sleeping

  datatype Chan = NoChan | OnLock | Elsewhere

  datatype Proc = Proc(pc: Pc, state: RunState, chan: Chan)

  // spin: the spinlock inside the sleep lock; table: ptable.lock; pid: the owner's, None for 0
  datatype State = State(procs: seq<Proc>, spin: Option<nat>, table: Option<nat>, locked: bool, pid: Option<nat>)

  datatype Call = Acquire | Release | Query | SleepElsewhere

  datatype Step =
    | Enter(p: nat, call: Call)
    | Run(p: nat)
    | Kill(p: nat)
    | WakeElsewhere(p: nat)
    | Preempt(p: nat)
    | Resume(p: nat)

  predicate HasSpin(pc: Pc) {
    match pc
    case AcquireTest | AcquireSet | AcquirePid | AcquireEnd | SleepStart | SleepRelease => true
    case ReleaseClear | ReleasePid | WakeStart | Waking(_) | ReleaseEnd => true
    case HoldingRead(_) | HoldingEnd(_, _) => true
    case _ => false
  }

  predicate HasTable(pc: Pc) {
    pc.SleepRelease? || pc.SleepChan? || pc.SleepState? || pc.SleepSched? || pc.WokenChan? || pc.WokenEnd? || pc.Waking?
  }

  // ---------------------------------------------------------------- steps

  function Goto(s: State, p: nat, pc: Pc): State
    requires p < |s.procs|
  {
    s.(procs := s.procs[p := s.procs[p].(pc := pc)])
  }

  function With(s: State, p: nat, q: Proc): State
    requires p < |s.procs|
  {
    s.(procs := s.procs[p := q])
  }

  // the next instruction of process p, None when it has to wait: holding ptable.lock
  function ExecuteTable(s: State, p: nat): Option<State>
    requires p < |s.procs|
  {
    var me := s.procs[p];
    match me.pc
    case SleepRelease => Some(Goto(s, p, SleepChan).(spin := None))
    case SleepChan => Some(With(s, p, me.(pc := SleepState, chan := OnLock)))
    case SleepState => Some(With(s, p, me.(pc := SleepSched, state := Sleeping)))
    case SleepSched => Some(Goto(s, p, Asleep).(table := None))
    case WokenChan => Some(With(s, p, me.(pc := WokenEnd, chan := NoChan)))
    case WokenEnd => Some(Goto(s, p, AcquireStart).(table := None))
    case Waking(i) =>
      if i < |s.procs| then Some(Goto(WakeOne(s, i), p, Waking(i + 1)))
      else Some(Goto(s, p, ReleaseEnd).(table := None))
    case _ => None
  }

  // holding the inner spinlock only: what becomes of the shared fields, and where the process goes
  function ExecuteSpin(s: State, p: nat): (r: Option<(State, Pc)>)
    requires p < |s.procs|
    ensures r.Some? ==> r.value.0.procs == s.procs
  {
    match s.procs[p].pc
    case AcquireTest => Some((s, if s.locked then SleepStart else AcquireSet))
    case AcquireSet => Some((s.(locked := true), AcquirePid))
    case AcquirePid => Some((s.(pid := Some(p)), AcquireEnd))
    case AcquireEnd => Some((s.(spin := None), Holding))
    case SleepStart => if s.table == None then Some((s.(table := Some(p)), SleepRelease)) else None
    case ReleaseClear => Some((s.(locked := false), ReleasePid))
    case ReleasePid => Some((s.(pid := None), WakeStart))
    case WakeStart => if s.table == None then Some((s.(table := Some(p)), Waking(0))) else None
    case ReleaseEnd => Some((s.(spin := None), Idle))
    case HoldingRead(held) => Some((s, HoldingEnd(held, s.locked && s.pid == Some(p))))
    case HoldingEnd(held, _) => Some((s.(spin := None), if held then Holding else Idle))
    case _ => None
  }

  // holding neither
  function ExecuteFree(s: State, p: nat): (r: Option<(State, Pc)>)
    requires p < |s.procs|
    ensures r.Some? ==> r.value.0.procs == s.procs
  {
    if s.spin != None then None
    else match s.procs[p].pc
      case AcquireStart => Some((s.(spin := Some(p)), AcquireTest))
      case ReleaseStart => Some((s.(spin := Some(p)), ReleaseClear))
      case HoldingStart(held) => Some((s.(spin := Some(p)), HoldingRead(held)))
      case _ => None
  }

  function Move(r: Option<(State, Pc)>, p: nat): Option<State>
    requires r.Some? ==> p < |r.value.0.procs|
  {
    if r.None? then None else Some(Goto(r.value.0, p, r.value.1))
  }

  // the scheduler takes ptable.lock and switches to a sleeper that has been woken
  function Switch(s: State, p: nat): Option<State>
    requires p < |s.procs|
  {
    var me := s.procs[p];
    if me.state != Runnable || s.table != None then None
    else if me.pc.Asleep? then Some(With(s, p, me.(pc := WokenChan, state := Running)).(table := Some(p)))
    else Some(With(s, p, Proc(Idle, Running, NoChan)))
  }

  function Execute(s: State, p: nat): Option<State>
    requires p < |s.procs|
  {
    var me := s.procs[p];
    if me.pc.Asleep? || me.pc.AsleepElsewhere? then Switch(s, p)
    else if HasTable(me.pc) then ExecuteTable(s, p)
    else if me.state != Running then None
    else if HasSpin(me.pc) then Move(ExecuteSpin(s, p), p)
    else Move(ExecuteFree(s, p), p)
  }

  // one round of wakeup1's loop
  function WakeOne(s: State, i: nat): State
    requires i < |s.procs|
  {
    if s.procs[i].state == Sleeping && s.procs[i].chan == OnLock then With(s, i, s.procs[i].(state := Runnable)) else s
  }

  function Begin(s: State, p: nat, call: Call): Option<State>
    requires p < |s.procs|
  {
    var me := s.procs[p];
    if me.state != Running || !(me.pc.Idle? || me.pc.Holding?) then None
    else match call
      case Acquire => if me.pc.Idle? then Some(Goto(s, p, AcquireStart)) else None
      case Release => Some(Goto(s, p, ReleaseStart))
      case Query => Some(Goto(s, p, HoldingStart(me.pc.Holding?)))
      case SleepElsewhere =>
        if me.pc.Idle? && s.table == None then Some(With(s, p, Proc(AsleepElsewhere, Sleeping, Elsewhere))) else None
  }

  function Apply(s: State, step: Step): Option<State> {
    if step.p >= |s.procs| then None
    else
      var me := s.procs[step.p];
      match step
      case Enter(p, call) => Begin(s, p, call)
      case Run(p) => Execute(s, p)
      // kill makes any sleeping process runnable
      case Kill(p) => if s.table == None && me.state == Sleeping then Some(With(s, p, me.(state := Runnable))) else None
      case WakeElsewhere(p) =>
        if s.table == None && me.state == Sleeping && me.chan == Elsewhere then Some(With(s, p, me.(state := Runnable)))
        else None
      case Preempt(p) =>
        if s.table == None && me.state == Running && !HasSpin(me.pc) && !HasTable(me.pc) then
          Some(With(s, p, me.(state := Runnable))) else None
      case Resume(p) =>
        if s.table == None && me.state == Runnable && !me.pc.Asleep? && !me.pc.AsleepElsewhere? then
          Some(With(s, p, me.(state := Running))) else None
  }

  ghost predicate Next(s: State, step: Step, s': State) {
    Apply(s, step) == Some(s')
  }

  ghost predicate Init(s: State) {
    && s.spin == None && s.table == None && !s.locked && s.pid == None
    && forall p :: 0 <= p < |s.procs| ==> s.procs[p] == Proc(Idle, Running, NoChan)
  }

  ghost predicate NextAt(run: seq<State>, steps: seq<Step>, k: nat) {
    k + 1 < |run| && k < |steps| && Next(run[k], steps[k], run[k + 1])
  }

  ghost predicate IsRun(run: seq<State>, steps: seq<Step>) {
    && |run| == |steps| + 1 && Init(run[0])
    && forall k: nat {:trigger NextAt(run, steps, k)} :: k < |steps| ==> NextAt(run, steps, k)
  }

  // ---------------------------------------------------------------- no lost wakeup

  // the holder of the spinlock is about to wake process p
  ghost predicate Coming(s: State, p: nat) {
    && s.spin.Some? && s.spin.value < |s.procs|
    && var pc := s.procs[s.spin.value].pc;
       pc.ReleasePid? || pc.WakeStart? || (pc.Waking? && pc.next <= p)
  }

  // asleep on the lock, or past the point of no return on the way there
  predicate Drowsy(q: Proc) {
    q.pc.SleepChan? || q.pc.SleepState? || ((q.pc.SleepSched? || q.pc.Asleep?) && q.state == Sleeping)
  }

  ghost predicate ProcOk(s: State, p: nat) {
    p < |s.procs| ==>
      var q := s.procs[p];
      && (s.spin == Some(p) <==> HasSpin(q.pc))
      && (s.table == Some(p) <==> HasTable(q.pc))
      && (q.state == Sleeping ==> q.pc.SleepSched? || q.pc.Asleep? || q.pc.AsleepElsewhere?)
      && (q.pc.SleepSched? ==> q.state == Sleeping)
      && (q.pc.Asleep? ==> q.state != Running)
      && (q.chan == OnLock <==> q.pc.SleepState? || q.pc.SleepSched? || q.pc.Asleep? || q.pc.WokenChan?)
      && (q.pc.SleepStart? || q.pc.SleepRelease? ==> s.locked)
      && (q.pc.AcquireSet? || q.pc.ReleasePid? ==> !s.locked)
      && (Drowsy(q) ==> s.locked || Coming(s, p))
  }

  ghost predicate Inv(s: State) {
    && (s.spin.Some? ==> s.spin.value < |s.procs|)
    && (s.table.Some? ==> s.table.value < |s.procs|)
    && forall p: nat {:trigger ProcOk(s, p)} :: ProcOk(s, p)
  }

  lemma InitInv(s: State)
    requires Init(s)
    ensures Inv(s)
  {
  }

  // the processes that hold the spinlocks stand where they do
  ghost predicate HoldersOk(s: State) {
    && (s.spin.Some? ==> s.spin.value < |s.procs| && HasSpin(s.procs[s.spin.value].pc))
    && (s.table.Some? ==> s.table.value < |s.procs| && HasTable(s.procs[s.table.value].pc))
  }

  lemma InvHolders(s: State)
    requires Inv(s)
    ensures HoldersOk(s)
  {
    if s.spin.Some? { assert ProcOk(s, s.spin.value); }
    if s.table.Some? { assert ProcOk(s, s.table.value); }
  }

  // the process that moves, and some other one, by what the moving one holds
  lemma TableSelf(s: State, p: nat, s': State)
    requires HoldersOk(s) && ProcOk(s, p) && p < |s.procs| && HasTable(s.procs[p].pc) && ExecuteTable(s, p) == Some(s')
    ensures ProcOk(s', p)
  {
  }

  lemma TableOther(s: State, p: nat, s': State, q: nat)
    requires HoldersOk(s) && ProcOk(s, p) && ProcOk(s, q) && p != q
    requires p < |s.procs| && HasTable(s.procs[p].pc) && ExecuteTable(s, p) == Some(s')
    ensures ProcOk(s', q)
  {
  }

  lemma SpinSelf(s: State, p: nat, s': State)
    requires HoldersOk(s) && ProcOk(s, p) && p < |s.procs| && !HasTable(s.procs[p].pc)
    requires Move(ExecuteSpin(s, p), p) == Some(s')
    ensures ProcOk(s', p)
  {
  }

  lemma SpinOther(s: State, p: nat, s': State, q: nat)
    requires HoldersOk(s) && ProcOk(s, p) && ProcOk(s, q) && p != q
    requires p < |s.procs| && !HasTable(s.procs[p].pc) && Move(ExecuteSpin(s, p), p) == Some(s')
    ensures ProcOk(s', q)
  {
  }

  lemma FreeOk(s: State, p: nat, s': State, q: nat)
    requires HoldersOk(s) && ProcOk(s, p) && ProcOk(s, q) && p < |s.procs|
    requires Move(ExecuteFree(s, p), p) == Some(s')
             || ((s.procs[p].pc.Asleep? || s.procs[p].pc.AsleepElsewhere?) && Switch(s, p) == Some(s'))
    ensures ProcOk(s', q)
  {
  }

  // killing, preempting and calling
  lemma AroundOk(s: State, step: Step, s': State, q: nat)
    requires HoldersOk(s) && ProcOk(s, step.p) && ProcOk(s, q) && Next(s, step, s') && !step.Run?
    ensures ProcOk(s', q)
  {
    if step.p == q { AroundSelf(s, step, s'); } else { AroundOther(s, step, s', q); }
  }

  lemma AroundSelf(s: State, step: Step, s': State)
    requires HoldersOk(s) && ProcOk(s, step.p) && Next(s, step, s') && !step.Run?
    ensures ProcOk(s', step.p)
  {
  }

  lemma AroundOther(s: State, step: Step, s': State, q: nat)
    requires HoldersOk(s) && ProcOk(s, q) && Next(s, step, s') && !step.Run? && step.p != q
    ensures ProcOk(s', q)
  {
  }

  lemma RunOk(s: State, p: nat, s': State, q: nat)
    requires HoldersOk(s) && ProcOk(s, p) && ProcOk(s, q) && p < |s.procs| && Execute(s, p) == Some(s')
    ensures ProcOk(s', q)
  {
    var pc := s.procs[p].pc;
    if HasTable(pc) {
      if p == q { TableSelf(s, p, s'); } else { TableOther(s, p, s', q); }
    } else if HasSpin(pc) {
      if p == q { SpinSelf(s, p, s'); } else { SpinOther(s, p, s', q); }
    } else {
      FreeOk(s, p, s', q);
    }
  }

  lemma InvStep(s: State, step: Step, s': State)
    requires Inv(s) && Next(s, step, s')
    ensures Inv(s')
  {
    Bounds(s, step, s');
    StepOk(s, step, s');
  }

  lemma Bounds(s: State, step: Step, s': State)
    requires Next(s, step, s')
    ensures step.p < |s.procs| == |s'.procs|
    ensures s'.spin == s.spin || s'.spin == None || s'.spin == Some(step.p)
    ensures s'.table == s.table || s'.table == None || s'.table == Some(step.p)
  {
  }

  lemma StepOk(s: State, step: Step, s': State)
    requires Inv(s) && Next(s, step, s') && step.p < |s.procs|
    ensures forall q: nat {:trigger ProcOk(s', q)} :: ProcOk(s', q)
  {
    InvHolders(s);
    assert ProcOk(s, step.p);
    forall q: nat ensures ProcOk(s', q) {
      assert ProcOk(s, q);
      if step.Run? {
        RunOk(s, step.p, s', q);
      } else {
        AroundOk(s, step, s', q);
      }
    }
  }

  lemma {:induction false} RunInv(run: seq<State>, steps: seq<Step>, k: nat)
    requires IsRun(run, steps) && k < |run|
    ensures Inv(run[k])
  {
    if k == 0 {
      InitInv(run[0]);
    } else {
      RunInv(run, steps, k - 1);
      assert NextAt(run, steps, k - 1);
      InvStep(run[k - 1], steps[k - 1], run[k]);
    }
  }

  /** With both spinlocks free, a process asleep on the sleep lock means that the lock is held. */
  lemma NoLostWakeup(run: seq<State>, steps: seq<Step>, k: nat, p: nat)
    requires IsRun(run, steps) && k < |run| && p < |run[k].procs|
    requires run[k].spin == None && run[k].table == None
    requires run[k].procs[p].state == Sleeping && run[k].procs[p].chan == OnLock
    ensures run[k].locked
  {
    RunInv(run, steps, k);
    assert ProcOk(run[k], p);
  }

  // ---------------------------------------------------------------- mutual exclusion

  /** The process has the sleep lock: from setting locked in acquiresleep to clearing it in releasesleep. */
  predicate Owns(pc: Pc) {
    || pc.AcquirePid? || pc.AcquireEnd? || pc.Holding? || pc.ReleaseStart? || pc.ReleaseClear?
    || ((pc.HoldingStart? || pc.HoldingRead? || pc.HoldingEnd?) && pc.held)
  }

  // only a holder calls releasesleep
  ghost predicate Disciplined(s: State, step: Step) {
    step.Enter? && step.call.Release? && step.p < |s.procs| ==> s.procs[step.p].pc.Holding?
  }

  ghost predicate OwnerOk(s: State, p: nat) {
    p < |s.procs| ==>
      var pc := s.procs[p].pc;
      && (Owns(pc) ==> s.locked)
      && (Owns(pc) && !pc.AcquirePid? ==> s.pid == Some(p))
      && (s.pid == Some(p) ==> Owns(pc) || pc.ReleasePid?)
      && (pc.HoldingEnd? ==> pc.r == pc.held)
  }

  ghost predicate OneOwner(s: State, p: nat, q: nat) {
    p < |s.procs| && q < |s.procs| && Owns(s.procs[p].pc) && Owns(s.procs[q].pc) ==> p == q
  }

  ghost predicate Exclusive(s: State) {
    && (forall p: nat {:trigger OwnerOk(s, p)} :: OwnerOk(s, p))
    && (forall p: nat, q: nat {:trigger OneOwner(s, p, q)} :: OneOwner(s, p, q))
  }

  lemma OwnerSelf(s: State, step: Step, s': State)
    requires ProcOk(s, step.p) && OwnerOk(s, step.p) && Next(s, step, s') && Disciplined(s, step)
    ensures OwnerOk(s', step.p)
  {
    if step.Run? {
      OwnerRun(s, step.p, s');
    }
  }

  lemma OwnerRun(s: State, p: nat, s': State)
    requires p < |s.procs| && ProcOk(s, p) && OwnerOk(s, p) && Execute(s, p) == Some(s')
    ensures OwnerOk(s', p)
  {
    if HasSpin(s.procs[p].pc) && !HasTable(s.procs[p].pc) {
      OwnerSpin(s, p, s');
    }
  }

  lemma OwnerSpin(s: State, p: nat, s': State)
    requires p < |s.procs| && ProcOk(s, p) && OwnerOk(s, p) && Move(ExecuteSpin(s, p), p) == Some(s')
    ensures OwnerOk(s', p)
  {
  }

  // how a step changes what the other processes see
  lemma OwnerSeen(s: State, step: Step, s': State)
    requires Inv(s) && Exclusive(s) && Next(s, step, s')
    ensures step.p < |s.procs|
    ensures s'.locked == s.locked || s'.locked || Owns(s.procs[step.p].pc)
    ensures s'.pid == s.pid || s'.pid == Some(step.p) || s'.pid == None
    ensures s'.pid != s.pid ==> Owns(s.procs[step.p].pc) || !s.locked
  {
    assert ProcOk(s, step.p) && OwnerOk(s, step.p);
  }

  // no other process moves
  lemma OtherPc(s: State, step: Step, s': State, p: nat)
    requires Next(s, step, s') && p < |s.procs| && p != step.p
    ensures |s'.procs| == |s.procs| && s'.procs[p].pc == s.procs[p].pc
  {
    if step.Run? {
      OtherRunPc(s, step.p, s', p);
    }
  }

  lemma OtherRunPc(s: State, p: nat, s': State, q: nat)
    requires p < |s.procs| && q < |s.procs| && p != q && Execute(s, p) == Some(s')
    ensures |s'.procs| == |s.procs| && s'.procs[q].pc == s.procs[q].pc
  {
  }

  lemma OwnerStep(s: State, step: Step, s': State, p: nat)
    requires Inv(s) && Exclusive(s) && Next(s, step, s') && Disciplined(s, step) && p < |s.procs|
    ensures OwnerOk(s', p)
  {
    if p == step.p {
      assert ProcOk(s, p) && OwnerOk(s, p);
      OwnerSelf(s, step, s');
    } else {
      OwnerOther(s, step, s', p);
    }
  }

  lemma OwnerOther(s: State, step: Step, s': State, p: nat)
    requires Inv(s) && Exclusive(s) && Next(s, step, s') && p < |s.procs| && p != step.p
    ensures OwnerOk(s', p)
  {
    OwnerSeen(s, step, s');
    OtherPc(s, step, s', p);
    assert OwnerOk(s, p) && OneOwner(s, p, step.p);
  }

  // nobody becomes an owner but by setting locked, and then nobody was
  lemma OwnsStep(s: State, step: Step, s': State, p: nat)
    requires ProcOk(s, step.p) && Next(s, step, s') && Disciplined(s, step) && p < |s.procs|
    ensures |s'.procs| == |s.procs|
    ensures Owns(s'.procs[p].pc) ==> Owns(s.procs[p].pc) || (p == step.p && !s.locked)
  {
    if p != step.p {
      OtherPc(s, step, s', p);
    }
  }

  lemma ExclusiveStep(s: State, step: Step, s': State)
    requires Inv(s) && Exclusive(s) && Next(s, step, s') && Disciplined(s, step)
    ensures Exclusive(s')
  {
    assert ProcOk(s, step.p);
    OwnsStep(s, step, s', step.p);
    forall p: nat ensures OwnerOk(s', p) {
      if p < |s.procs| { OwnerStep(s, step, s', p); }
    }
    forall p: nat, q: nat ensures OneOwner(s', p, q) {
      assert OneOwner(s, p, q) && OwnerOk(s, p) && OwnerOk(s, q);
      if p < |s.procs| { OwnsStep(s, step, s', p); }
      if q < |s.procs| { OwnsStep(s, step, s', q); }
    }
  }

  ghost predicate DisciplinedRun(run: seq<State>, steps: seq<Step>) {
    IsRun(run, steps) && forall k: nat :: k < |steps| ==> Disciplined(run[k], steps[k])
  }

  lemma {:induction false} RunExclusive(run: seq<State>, steps: seq<Step>, k: nat)
    requires DisciplinedRun(run, steps) && k < |run|
    ensures Exclusive(run[k])
  {
    if k > 0 {
      RunInv(run, steps, k - 1);
      RunExclusive(run, steps, k - 1);
      assert NextAt(run, steps, k - 1);
      ExclusiveStep(run[k - 1], steps[k - 1], run[k]);
    }
  }

  /**
   Where only holders release, at most one process has the lock, and holdingsleep answers whether
   the caller has it.
   */
  lemma MutualExclusion(run: seq<State>, steps: seq<Step>, k: nat)
    requires DisciplinedRun(run, steps) && k < |run|
    ensures forall p, q :: 0 <= p < |run[k].procs| && 0 <= q < |run[k].procs| ==>
              (Owns(run[k].procs[p].pc) && Owns(run[k].procs[q].pc) ==> p == q)
    ensures forall p :: 0 <= p < |run[k].procs| && run[k].procs[p].pc.HoldingEnd? ==>
              (run[k].procs[p].pc.r <==> run[k].procs[p].pc.held)
  {
    var s := run[k];
    RunExclusive(run, steps, k);
    forall p, q | 0 <= p < |s.procs| && 0 <= q < |s.procs| && Owns(s.procs[p].pc) && Owns(s.procs[q].pc)
      ensures p == q
    {
      assert OneOwner(s, p, q);
    }
    forall p | 0 <= p < |s.procs| && s.procs[p].pc.HoldingEnd? ensures s.procs[p].pc.r == s.procs[p].pc.held {
      assert OwnerOk(s, p);
    }
  }
}
