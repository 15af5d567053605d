// The life of processes.  A method is what one process does while it holds ptable.lock, or one of
// the unlocked writes of fork; any sequence of calls is an interleaving.  A process is an
// index into the table; I/O, files and the scheduler's choice are left to the caller.
module Proc {
  import opened Wrappers

  datatype RunState = UNUSED | EMBRYO | SLEEPING | RUNNABLE | RUNNING | ZOMBIE

  // what a process can sleep on: the address of a process (in wait), or anything else
  datatype Chan = Nothing | Process(p: nat) | Other(c: nat)

  datatype Proc = Proc(state: RunState, pid: nat, parent: Option<nat>, chan: Chan, killed: bool, kstack: Option<nat>,
                       pgdir: Option<nat>)

  // how far fork has come with a new process: slot taken, stack allocated, memory copied, parent set
  datatype Stage = Taken | Stacked | Copied | Adopted

  datatype Fork = Fork(forker: nat, stage: Stage)

  // forks: the forks under way; stacks and spaces: the kernel stacks and page tables that are allocated
  datatype Kernel = Kernel(procs: seq<Proc>, init: nat, nextpid: nat, forks: map<nat, Fork>, stacks: set<nat>,
                           spaces: set<nat>)

  datatype WaitResult = Reaped(pid: nat) | NoChild | WaitAsleep

  predicate Alive(s: RunState) {
    s == SLEEPING || s == RUNNABLE || s == RUNNING
  }

  // asleep in wait
  predicate Waiting(k: Kernel, p: nat)
    requires p < |k.procs|
  {
    k.procs[p].state == SLEEPING && k.procs[p].chan == Process(p)
  }

  predicate HasStack(k: Kernel, p: nat)
    requires p < |k.procs|
  {
    k.procs[p].state != UNUSED && !(p in k.forks && k.forks[p].stage == Taken)
  }

  predicate HasSpace(k: Kernel, p: nat)
    requires p < |k.procs|
  {
    k.procs[p].state != UNUSED && !(p in k.forks && (k.forks[p].stage == Taken || k.forks[p].stage == Stacked))
  }

  ghost predicate ProcOk(k: Kernel, p: nat) {
    p < |k.procs| ==>
      var q := k.procs[p];
      && (q.state == EMBRYO <==> p in k.forks)
      && (q.state == UNUSED ==> q.parent == None) && q.parent != Some(p) && (p == k.init ==> q.parent == None)
      && (q.state == ZOMBIE || Alive(q.state) ==> p == k.init || q.parent.Some?)
      && (p in k.forks ==>
            && k.forks[p].forker < |k.procs| && k.forks[p].forker != p && Alive(k.procs[k.forks[p].forker].state)
            && q.parent == (if k.forks[p].stage == Adopted then Some(k.forks[p].forker) else None))
      && (HasStack(k, p) ==> q.kstack.Some? && q.kstack.value in k.stacks)
      && (HasSpace(k, p) ==> q.pgdir.Some? && q.pgdir.value in k.spaces)
      && q.pid < k.nextpid && (q.state != UNUSED ==> q.pid != 0)
  }

  ghost predicate ParentOk(k: Kernel, p: nat, q: nat)
    requires p < |k.procs| && q < |k.procs|
  {
    k.procs[p].parent == Some(q) ==> Alive(k.procs[q].state) && (k.procs[p].state == ZOMBIE ==> !Waiting(k, q))
  }

  ghost predicate Apart(k: Kernel, p: nat, q: nat)
    requires p < |k.procs| && q < |k.procs|
  {
    && (HasStack(k, p) && HasStack(k, q) ==> k.procs[p].kstack != k.procs[q].kstack)
    && (HasSpace(k, p) && HasSpace(k, q) ==> k.procs[p].pgdir != k.procs[q].pgdir)
    && (k.procs[p].pid == k.procs[q].pid ==> k.procs[p].pid == 0)
  }

  ghost predicate PairOk(k: Kernel, p: nat, q: nat) {
    p < |k.procs| && q < |k.procs| ==> ParentOk(k, p, q) && (p != q ==> Apart(k, p, q))
  }

  ghost predicate ParentIn(k: Kernel, p: nat) {
    p < |k.procs| && k.procs[p].parent.Some? ==> k.procs[p].parent.value < |k.procs|
  }

  ghost predicate StackUsed(k: Kernel, p: nat, a: nat) {
    p < |k.procs| && HasStack(k, p) && k.procs[p].kstack == Some(a)
  }

  ghost predicate SpaceUsed(k: Kernel, p: nat, a: nat) {
    p < |k.procs| && HasSpace(k, p) && k.procs[p].pgdir == Some(a)
  }

  // nothing has leaked
  ghost predicate StackOwned(k: Kernel, a: nat) {
    a in k.stacks ==> exists p: nat :: StackUsed(k, p, a)
  }

  ghost predicate SpaceOwned(k: Kernel, a: nat) {
    a in k.spaces ==> exists p: nat :: SpaceUsed(k, p, a)
  }

  ghost predicate Ok(k: Kernel) {
    && k.init < |k.procs| && Alive(k.procs[k.init].state) && k.nextpid > 0
    && (forall p: nat {:trigger p in k.forks} :: p in k.forks ==> p < |k.procs|)
    && (forall p: nat {:trigger ProcOk(k, p)} :: ProcOk(k, p))
    && (forall p: nat {:trigger ParentIn(k, p)} :: ParentIn(k, p))
    && (forall p: nat, q: nat {:trigger PairOk(k, p, q)} :: PairOk(k, p, q))
    && (forall a: nat {:trigger StackOwned(k, a)} :: StackOwned(k, a))
    && (forall a: nat {:trigger SpaceOwned(k, a)} :: SpaceOwned(k, a))
  }

  // p is in the middle of fork
  ghost predicate Forking(k: Kernel, p: nat) {
    exists c: nat :: c in k.forks && k.forks[c].forker == p
  }

  /** A parent is alive, and is not asleep in wait when the child is a zombie. */
  lemma ParentsReady(k: Kernel, c: nat)
    requires Ok(k) && c < |k.procs| && k.procs[c].parent.Some?
    ensures var f := k.procs[c].parent.value;
            f < |k.procs| && Alive(k.procs[f].state) && (k.procs[c].state == ZOMBIE ==> !Waiting(k, f))
  {
    assert ParentIn(k, c) && PairOk(k, c, k.procs[c].parent.value);
  }

  /** What is allocated is what the processes have, each stack and each page table with one of them. */
  lemma OneOwner(k: Kernel, a: nat)
    requires Ok(k)
    ensures a in k.stacks <==> exists p: nat :: StackUsed(k, p, a)
    ensures a in k.spaces <==> exists p: nat :: SpaceUsed(k, p, a)
    ensures forall p: nat, q: nat :: StackUsed(k, p, a) && StackUsed(k, q, a) ==> p == q
    ensures forall p: nat, q: nat :: SpaceUsed(k, p, a) && SpaceUsed(k, q, a) ==> p == q
  {
    assert StackOwned(k, a) && SpaceOwned(k, a);
    forall p: nat | StackUsed(k, p, a) || SpaceUsed(k, p, a) ensures ProcOk(k, p) {
    }
    forall p: nat, q: nat | (StackUsed(k, p, a) && StackUsed(k, q, a)) || (SpaceUsed(k, p, a) && SpaceUsed(k, q, a))
      ensures p == q
    {
      assert PairOk(k, p, q);
    }
  }

  // ---------------------------------------------------------------- fork

  ghost function WithProc(k: Kernel, c: nat, q: Proc): Kernel
    requires c < |k.procs|
  {
    k.(procs := k.procs[c := q])
  }

  ghost function TakeSlot(k: Kernel, f: nat, c: nat): Kernel
    requires c < |k.procs|
  {
    WithProc(k, c, k.procs[c].(state := EMBRYO, pid := k.nextpid))
    .(nextpid := k.nextpid + 1, forks := k.forks[c := Fork(f, Taken)])
  }

  ghost function GiveStack(k: Kernel, c: nat, a: nat): Kernel
    requires c < |k.procs| && c in k.forks
  {
    WithProc(k, c, k.procs[c].(kstack := Some(a)))
    .(forks := k.forks[c := k.forks[c].(stage := Stacked)], stacks := k.stacks + {a})
  }

  ghost function GiveSpace(k: Kernel, c: nat, a: nat): Kernel
    requires c < |k.procs| && c in k.forks
  {
    WithProc(k, c, k.procs[c].(pgdir := Some(a)))
    .(forks := k.forks[c := k.forks[c].(stage := Copied)], spaces := k.spaces + {a})
  }

  // the slot is given up, with its stack if it has one
  ghost function DropSlot(k: Kernel, c: nat): Kernel
    requires c < |k.procs| && c in k.forks
  {
    var stack := if HasStack(k, c) && k.procs[c].kstack.Some? then {k.procs[c].kstack.value} else {};
    WithProc(k, c, k.procs[c].(state := UNUSED, kstack := None)).(forks := k.forks - {c}, stacks := k.stacks - stack)
  }

  ghost function Adopt(k: Kernel, c: nat): Kernel
    requires c < |k.procs| && c in k.forks
  {
    WithProc(k, c, k.procs[c].(parent := Some(k.forks[c].forker)))
    .(forks := k.forks[c := k.forks[c].(stage := Adopted)])
  }

  ghost function Launch(k: Kernel, c: nat): Kernel
    requires c < |k.procs|
  {
    WithProc(k, c, k.procs[c].(state := RUNNABLE)).(forks := k.forks - {c})
  }

  // a change of slot c alone
  ghost predicate Local(k: Kernel, k': Kernel, c: nat) {
    && c < |k.procs| && |k'.procs| == |k.procs| && k'.init == k.init && k'.nextpid >= k.nextpid
    && (forall p: nat :: p < |k.procs| && p != c ==> k'.procs[p] == k.procs[p])
    && (forall p: nat :: p != c ==> (p in k'.forks <==> p in k.forks) && (p in k.forks ==> k'.forks[p] == k.forks[p]))
  }

  // slot c keeps the resources it holds, gives some back, or gets new ones
  ghost predicate Balanced(k: Kernel, k': Kernel, c: nat)
    requires Local(k, k', c)
  {
    && (forall a :: a in k'.stacks ==> a in k.stacks || StackUsed(k', c, a))
    && (forall a :: a in k.stacks && a !in k'.stacks ==> StackUsed(k, c, a))
    && (forall a :: StackUsed(k, c, a) ==> StackUsed(k', c, a) || a !in k'.stacks)
    && (forall a :: StackUsed(k', c, a) ==> a in k'.stacks && (a in k.stacks ==> StackUsed(k, c, a)))
    && (forall a :: a in k'.spaces ==> a in k.spaces || SpaceUsed(k', c, a))
    && (forall a :: a in k.spaces && a !in k'.spaces ==> SpaceUsed(k, c, a))
    && (forall a :: SpaceUsed(k, c, a) ==> SpaceUsed(k', c, a) || a !in k'.spaces)
    && (forall a :: SpaceUsed(k', c, a) ==> a in k'.spaces && (a in k.spaces ==> SpaceUsed(k, c, a)))
  }

  lemma ResourcesOk(k: Kernel, k': Kernel, c: nat, a: nat)
    requires Ok(k) && Local(k, k', c) && Balanced(k, k', c)
    ensures StackOwned(k', a) && SpaceOwned(k', a)
  {
    assert StackOwned(k, a) && SpaceOwned(k, a);
    if a in k'.stacks && !StackUsed(k', c, a) {
      var p: nat :| StackUsed(k, p, a);
      assert StackUsed(k', p, a);
    }
    if a in k'.spaces && !SpaceUsed(k', c, a) {
      var p: nat :| SpaceUsed(k, p, a);
      assert SpaceUsed(k', p, a);
    }
  }

  // what slot c may become without harm to the others
  ghost predicate Fits(k: Kernel, k': Kernel, c: nat)
    requires Local(k, k', c)
  {
    var q, q' := k.procs[c], k'.procs[c];
    && (Alive(q.state) ==> Alive(q'.state))
    && (q'.parent == q.parent || q'.parent == None
    || (q'.parent.Some? && q'.parent.value < |k.procs| && q'.parent.value != c
    && Alive(k.procs[q'.parent.value].state)))
    && (q'.state == ZOMBIE ==> q.state == ZOMBIE && q'.parent == q.parent)
    && (q'.pid == q.pid || q'.pid == 0 || q'.pid == k.nextpid < k'.nextpid)
  }

  lemma LocalProc(k: Kernel, k': Kernel, c: nat, p: nat)
    requires Ok(k) && Local(k, k', c) && Balanced(k, k', c) && Fits(k, k', c) && p != c
    ensures ProcOk(k', p) && ParentIn(k', p)
  {
    assert ProcOk(k, p) && ParentIn(k, p);
    if p < |k.procs| {
      assert PairOk(k, p, c) && PairOk(k, c, p);
      if HasStack(k, p) { assert StackUsed(k, p, k.procs[p].kstack.value); }
      if HasSpace(k, p) { assert SpaceUsed(k, p, k.procs[p].pgdir.value); }
    }
  }

  // a waiting process has no zombie child, so slot c must not begin to wait if it has one
  ghost predicate MayWait(k: Kernel, k': Kernel, c: nat)
    requires Local(k, k', c)
  {
    Waiting(k', c) ==> Waiting(k, c) || forall z: nat :: z < |k.procs| && k.procs[z].parent == Some(c) ==>
      k.procs[z].state != ZOMBIE
  }

  lemma LocalParent(k: Kernel, k': Kernel, c: nat, p: nat, q: nat)
    requires Ok(k) && Local(k, k', c) && Fits(k, k', c) && MayWait(k, k', c) && p < |k.procs| && q < |k.procs|
    ensures ParentOk(k', p, q)
  {
    assert PairOk(k, p, q);
  }

  lemma LocalApart(k: Kernel, k': Kernel, c: nat, p: nat, q: nat)
    requires Ok(k) && Local(k, k', c) && Balanced(k, k', c) && Fits(k, k', c) && ProcOk(k', c)
    requires p < |k.procs| && q < |k.procs| && p != q
    ensures Apart(k', p, q)
  {
    assert PairOk(k, p, q) && ProcOk(k, p) && ProcOk(k, q);
    if p == c || q == c {
      var o := if p == c then q else p;
      if HasStack(k', c) && HasStack(k', o) { LocalStack(k, k', c, o); }
      if HasSpace(k', c) && HasSpace(k', o) { LocalSpace(k, k', c, o); }
    }
  }

  lemma LocalStack(k: Kernel, k': Kernel, c: nat, q: nat)
    requires Ok(k) && Local(k, k', c) && Balanced(k, k', c) && ProcOk(k', c) && q < |k.procs| && q != c
    requires HasStack(k', c) && HasStack(k', q)
    ensures k'.procs[c].kstack != k'.procs[q].kstack
  {
    assert ProcOk(k, q) && PairOk(k, c, q) && ProcOk(k', c);
    assert StackUsed(k', c, k'.procs[c].kstack.value);
  }

  lemma LocalSpace(k: Kernel, k': Kernel, c: nat, q: nat)
    requires Ok(k) && Local(k, k', c) && Balanced(k, k', c) && ProcOk(k', c) && q < |k.procs| && q != c
    requires HasSpace(k', c) && HasSpace(k', q)
    ensures k'.procs[c].pgdir != k'.procs[q].pgdir
  {
    assert ProcOk(k, q) && PairOk(k, c, q) && ProcOk(k', c);
    assert SpaceUsed(k', c, k'.procs[c].pgdir.value);
  }

  lemma LocalOk(k: Kernel, k': Kernel, c: nat)
    requires Ok(k) && Local(k, k', c) && Balanced(k, k', c) && Fits(k, k', c) && ProcOk(k', c) && ParentIn(k', c)
    requires MayWait(k, k', c)
    ensures Ok(k')
  {
    forall p: nat ensures ProcOk(k', p) && ParentIn(k', p) {
      if p != c { LocalProc(k, k', c, p); }
    }
    forall p: nat, q: nat ensures PairOk(k', p, q) {
      if p < |k.procs| && q < |k.procs| {
        LocalParent(k, k', c, p, q);
        if p != q { LocalApart(k, k', c, p, q); }
      }
    }
    forall a: nat ensures StackOwned(k', a) && SpaceOwned(k', a) {
      ResourcesOk(k, k', c, a);
    }
  }

  lemma TakeSlotOk(k: Kernel, f: nat, c: nat)
    requires Ok(k) && f < |k.procs| && Alive(k.procs[f].state) && c < |k.procs| && k.procs[c].state == UNUSED
    ensures Ok(TakeSlot(k, f, c))
  {
    assert ProcOk(k, c);
    LocalOk(k, TakeSlot(k, f, c), c);
  }

  lemma GiveStackOk(k: Kernel, c: nat, a: nat)
    requires Ok(k) && c in k.forks && c < |k.procs| && k.forks[c].stage == Taken && a !in k.stacks
    ensures Ok(GiveStack(k, c, a))
  {
    assert ProcOk(k, c);
    LocalOk(k, GiveStack(k, c, a), c);
  }

  lemma GiveSpaceOk(k: Kernel, c: nat, a: nat)
    requires Ok(k) && c in k.forks && c < |k.procs| && k.forks[c].stage == Stacked && a !in k.spaces
    ensures Ok(GiveSpace(k, c, a))
  {
    assert ProcOk(k, c);
    LocalOk(k, GiveSpace(k, c, a), c);
  }

  lemma DropSlotOk(k: Kernel, c: nat)
    requires Ok(k) && c in k.forks && c < |k.procs| && (k.forks[c].stage == Taken || k.forks[c].stage == Stacked)
    ensures Ok(DropSlot(k, c))
  {
    assert ProcOk(k, c);
    LocalOk(k, DropSlot(k, c), c);
  }

  lemma AdoptOk(k: Kernel, c: nat)
    requires Ok(k) && c in k.forks && c < |k.procs| && k.forks[c].stage == Copied
    ensures Ok(Adopt(k, c))
  {
    assert ProcOk(k, c);
    LocalOk(k, Adopt(k, c), c);
  }

  lemma LaunchOk(k: Kernel, c: nat)
    requires Ok(k) && c in k.forks && c < |k.procs| && k.forks[c].stage == Adopted
    ensures Ok(Launch(k, c))
  {
    assert ProcOk(k, c) && ParentIn(k, c);
    LocalOk(k, Launch(k, c), c);
  }

  // ---------------------------------------------------------------- scheduling, sleeping and reaping

  /** One process changes its run state, between alive ones, and its channel. */
  lemma ResetOk(k: Kernel, p: nat, state: RunState, chan: Chan, killed: bool)
    requires Ok(k) && p < |k.procs| && Alive(k.procs[p].state) && Alive(state)
    requires state == SLEEPING && chan == Process(p) ==>
               Waiting(k, p) || forall z: nat :: z < |k.procs| && k.procs[z].parent == Some(p) ==>
                 k.procs[z].state != ZOMBIE
    ensures Ok(WithProc(k, p, k.procs[p].(state := state, chan := chan, killed := killed)))
  {
    assert ProcOk(k, p) && ParentIn(k, p);
    LocalOk(k, WithProc(k, p, k.procs[p].(state := state, chan := chan, killed := killed)), p);
  }

  // kill can also mark a slot that is not alive
  lemma MarkOk(k: Kernel, p: nat)
    requires Ok(k) && p < |k.procs|
    ensures Ok(WithProc(k, p, k.procs[p].(killed := true)))
  {
    assert ProcOk(k, p) && ParentIn(k, p);
    LocalOk(k, WithProc(k, p, k.procs[p].(killed := true)), p);
  }

  /** The zombie's slot, stack and page table are given back; its page table pointer stays behind. */
  ghost function Reap(k: Kernel, c: nat): Kernel
    requires c < |k.procs| && k.procs[c].kstack.Some? && k.procs[c].pgdir.Some?
  {
    WithProc(k, c, k.procs[c].(state := UNUSED, pid := 0, parent := None, killed := false, kstack := None)).(
      stacks := k.stacks - {k.procs[c].kstack.value}, spaces := k.spaces - {k.procs[c].pgdir.value})
  }

  lemma ReapOk(k: Kernel, c: nat)
    requires Ok(k) && c < |k.procs| && k.procs[c].state == ZOMBIE
    ensures k.procs[c].kstack.Some? && k.procs[c].kstack.value in k.stacks
    ensures k.procs[c].pgdir.Some? && k.procs[c].pgdir.value in k.spaces
    ensures Ok(Reap(k, c))
  {
    assert ProcOk(k, c) && ParentIn(k, c);
    LocalOk(k, Reap(k, c), c);
  }

  function Woken(q: Proc, chan: Chan): Proc {
    if q.state == SLEEPING && q.chan == chan then q.(state := RUNNABLE) else q
  }

  ghost predicate WokenAt(k: Kernel, k': Kernel, chan: Chan, q: nat) {
    |k'.procs| == |k.procs| && (q < |k.procs| ==> k'.procs[q] == Woken(k.procs[q], chan))
  }

  lemma WakePair(k: Kernel, k': Kernel, chan: Chan, p: nat, q: nat)
    requires Ok(k) && k' == k.(procs := k'.procs) && WokenAt(k, k', chan, p) && WokenAt(k, k', chan, q)
    ensures PairOk(k', p, q)
  {
    assert PairOk(k, p, q);
  }

  lemma WakeProc(k: Kernel, k': Kernel, chan: Chan, p: nat)
    requires Ok(k) && k' == k.(procs := k'.procs)
    requires forall q: nat {:trigger WokenAt(k, k', chan, q)} :: WokenAt(k, k', chan, q)
    ensures ProcOk(k', p) && ParentIn(k', p) && StackOwned(k', p) && SpaceOwned(k', p)
  {
    assert ProcOk(k, p) && ParentIn(k, p) && WokenAt(k, k', chan, p);
    if p in k.forks { assert WokenAt(k, k', chan, k.forks[p].forker); }
    assert StackOwned(k, p) && SpaceOwned(k, p);
    if p in k.stacks {
      var q: nat :| StackUsed(k, q, p);
      assert WokenAt(k, k', chan, q);
      assert StackUsed(k', q, p);
    }
    if p in k.spaces {
      var q: nat :| SpaceUsed(k, q, p);
      assert WokenAt(k, k', chan, q);
      assert SpaceUsed(k', q, p);
    }
  }

  lemma WakeOk(k: Kernel, k': Kernel, chan: Chan)
    requires Ok(k) && k' == k.(procs := k'.procs)
    requires forall q: nat {:trigger WokenAt(k, k', chan, q)} :: WokenAt(k, k', chan, q)
    ensures Ok(k')
  {
    assert WokenAt(k, k', chan, k.init);
    forall p: nat ensures ProcOk(k', p) && ParentIn(k', p) && StackOwned(k', p) && SpaceOwned(k', p) {
      WakeProc(k, k', chan, p);
    }
    forall p: nat, q: nat ensures PairOk(k', p, q) {
      assert WokenAt(k, k', chan, p) && WokenAt(k, k', chan, q);
      WakePair(k, k', chan, p, q);
    }
  }

  // ---------------------------------------------------------------- exit

  ghost predicate ZombieChild(k: Kernel, p: nat) {
    exists z: nat :: IsZombieChild(k, p, z)
  }

  ghost predicate IsZombieChild(k: Kernel, p: nat, z: nat) {
    z < |k.procs| && k.procs[z].parent == Some(p) && k.procs[z].state == ZOMBIE
  }

  // a slot after exit's loop, where woke says that a zombie child was passed on
  ghost function Passed(k: Kernel, p: nat, woke: bool, x: Proc): Proc {
    var y := if x.parent == Some(p) then x.(parent := Some(k.init)) else x;
    if woke then Woken(y, Process(k.init)) else y
  }

  /** Slot q after the exit of p: p is a zombie, its children are init's, and whoever waits for one of them is up. */
  ghost function Exited(k: Kernel, p: nat, q: nat): Proc
    requires p < |k.procs| && q < |k.procs| && k.procs[p].parent.Some?
  {
    if q == p then k.procs[q].(state := ZOMBIE)
    else Passed(k, p, ZombieChild(k, p), Woken(k.procs[q], Process(k.procs[p].parent.value)))
  }

  ghost predicate ExitedAt(k: Kernel, k': Kernel, p: nat, q: nat) {
    p < |k.procs| == |k'.procs| && k.procs[p].parent.Some? && (q < |k.procs| ==> k'.procs[q] == Exited(k, p, q))
  }

  // k' is k after the exit of p
  ghost predicate Exits(k: Kernel, k': Kernel, p: nat) {
    && p < |k.procs| == |k'.procs| && p != k.init && k.procs[p].state == RUNNING && !Forking(k, p)
    && k.procs[p].parent.Some?
    && k' == k.(procs := k'.procs)
    && forall q: nat {:trigger ExitedAt(k, k', p, q)} :: ExitedAt(k, k', p, q)
  }

  lemma ExitProc(k: Kernel, k': Kernel, p: nat, q: nat)
    requires Ok(k) && Exits(k, k', p)
    ensures ProcOk(k', q) && ParentIn(k', q)
  {
    assert ExitedAt(k, k', p, q) && ProcOk(k, q) && ParentIn(k, q);
    if q < |k.procs| && q in k.forks {
      assert ExitedAt(k, k', p, k.forks[q].forker);
      assert k.forks[q].forker != p;
    }
  }

  // what exit leaves alone
  lemma ExitSame(k: Kernel, k': Kernel, p: nat, q: nat)
    requires Exits(k, k', p) && q < |k.procs|
    ensures HasStack(k', q) == HasStack(k, q) && HasSpace(k', q) == HasSpace(k, q)
    ensures k'.procs[q].kstack == k.procs[q].kstack && k'.procs[q].pgdir == k.procs[q].pgdir
    ensures k'.procs[q].pid == k.procs[q].pid
    ensures Alive(k'.procs[q].state) <==> Alive(k.procs[q].state) && q != p
    ensures k'.procs[q].state == ZOMBIE <==> k.procs[q].state == ZOMBIE || q == p
    ensures Waiting(k', q) ==> Waiting(k, q)
  {
    assert ExitedAt(k, k', p, q);
  }

  // who ends up with a zombie child is up
  lemma ExitWakes(k: Kernel, k': Kernel, p: nat, a: nat, b: nat)
    requires Ok(k) && Exits(k, k', p) && a < |k.procs| && b < |k.procs| && k'.procs[a].parent == Some(b)
    ensures b != p && (Alive(k.procs[b].state)) && (k'.procs[a].state == ZOMBIE ==> !Waiting(k', b))
  {
    assert ExitedAt(k, k', p, a) && ExitedAt(k, k', p, b) && PairOk(k, a, b) && ProcOk(k, p);
    if k.procs[a].parent == Some(p) && k.procs[a].state == ZOMBIE {
      assert IsZombieChild(k, p, a);
    }
  }

  lemma ExitPair(k: Kernel, k': Kernel, p: nat, a: nat, b: nat)
    requires Ok(k) && Exits(k, k', p)
    ensures PairOk(k', a, b)
  {
    assert PairOk(k, a, b);
    if a < |k.procs| && b < |k.procs| {
      ExitSame(k, k', p, a);
      ExitSame(k, k', p, b);
      if k'.procs[a].parent == Some(b) {
        ExitWakes(k, k', p, a, b);
      }
    }
  }

  lemma ExitResources(k: Kernel, k': Kernel, p: nat, a: nat)
    requires Ok(k) && Exits(k, k', p)
    ensures StackOwned(k', a) && SpaceOwned(k', a)
  {
    assert StackOwned(k, a) && SpaceOwned(k, a);
    if a in k.stacks {
      var q: nat :| StackUsed(k, q, a);
      assert ExitedAt(k, k', p, q);
      assert StackUsed(k', q, a);
    }
    if a in k.spaces {
      var q: nat :| SpaceUsed(k, q, a);
      assert ExitedAt(k, k', p, q);
      assert SpaceUsed(k', q, a);
    }
  }

  lemma ExitOk(k: Kernel, k': Kernel, p: nat)
    requires Ok(k) && Exits(k, k', p)
    ensures Ok(k')
  {
    assert ExitedAt(k, k', p, k.init);
    forall q: nat ensures ProcOk(k', q) && ParentIn(k', q) {
      ExitProc(k, k', p, q);
    }
    forall a: nat, b: nat ensures PairOk(k', a, b) {
      ExitPair(k, k', p, a, b);
    }
    forall a: nat ensures StackOwned(k', a) && SpaceOwned(k', a) {
      ExitResources(k, k', p, a);
    }
  }

  // ---------------------------------------------------------------- the table

  class Table {
    const table: array<Proc>
    const init: nat
    var nextpid: nat
    ghost var forks: map<nat, Fork>
    ghost var stacks: set<nat>
    ghost var spaces: set<nat>

    ghost function K(): Kernel
      reads this, table
    {
      Kernel(table[..], init, nextpid, forks, stacks, spaces)
    }

    ghost predicate Valid()
      reads this, table
    {
      Ok(K())
    }

    /** userinit: the first process, with its kernel stack and page table. */
    constructor (n: nat, stack: nat, space: nat)
      requires n > 0
      ensures Valid() && fresh(table) && table.Length == n && init == 0 && table[0].state == RUNNABLE
      ensures stacks == {stack} && spaces == {space} && forks == map[]
    {
      var first := Proc(RUNNABLE, 1, None, Nothing, false, Some(stack), Some(space));
      var unused := Proc(UNUSED, 0, None, Nothing, false, None, None);
      table := new Proc[n](i => if i == 0 then first else unused);
      init, nextpid, forks, stacks, spaces := 0, 2, map[], {stack}, {space};
      new;
      assert StackUsed(K(), 0, stack) && SpaceUsed(K(), 0, space);
    }

    /** allocproc's search: the lowest unused slot becomes an embryo with a pid nobody has. */
    method AllocSlot(f: nat) returns (c: Option<nat>)
      requires Valid() && f < table.Length && table[f].state == RUNNING && !Forking(K(), f)
      modifies this, table
      ensures Valid()
      ensures c.None? ==> K() == old(K()) && forall q :: 0 <= q < table.Length ==> table[q].state != UNUSED
      ensures c.Some? ==>
                && c.value < table.Length && old(table[c.value].state) == UNUSED
                && (forall q :: 0 <= q < c.value ==> table[q].state != UNUSED)
                && K() == TakeSlot(old(K()), f, c.value)
    {
      var p := 0;
      while p < table.Length
        invariant p <= table.Length && forall q :: 0 <= q < p ==> table[q].state != UNUSED
        invariant K() == old(K())
      {
        if table[p].state == UNUSED {
          ghost var k := K();
          TakeSlotOk(k, f, p);
          table[p] := table[p].(state := EMBRYO, pid := nextpid);
          nextpid, forks := nextpid + 1, forks[p := Fork(f, Taken)];
          assert K() == TakeSlot(k, f, p);
          return Some(p);
        }
        p := p + 1;
      }
      return None;
    }

    /** The rest of allocproc: a kernel stack, or the slot is given up. */
    method AllocStack(c: nat, page: Option<nat>) returns (ok: bool)
      requires Valid() && c in forks && forks[c].stage == Taken && (page.Some? ==> page.value !in stacks)
      modifies this, table
      ensures Valid() && ok == page.Some?
      ensures c < table.Length && K() == if ok then GiveStack(old(K()), c, page.value) else DropSlot(old(K()), c)
    {
      ghost var k := K();
      if page.Some? {
        GiveStackOk(k, c, page.value);
        table[c] := table[c].(kstack := page);
        forks, stacks := forks[c := forks[c].(stage := Stacked)], stacks + {page.value};
        assert K() == GiveStack(k, c, page.value);
        return true;
      }
      DropSlotOk(k, c);
      table[c] := table[c].(state := UNUSED, kstack := None);
      forks := forks - {c};
      assert K() == DropSlot(k, c);
      return false;
    }

    /** copyuvm's result in fork: a page table, or stack and slot are given up. */
    method CopyMemory(c: nat, space: Option<nat>) returns (ok: bool)
      requires Valid() && c in forks && forks[c].stage == Stacked && (space.Some? ==> space.value !in spaces)
      modifies this, table
      ensures Valid() && ok == space.Some?
      ensures c < table.Length && K() == if ok then GiveSpace(old(K()), c, space.value) else DropSlot(old(K()), c)
    {
      ghost var k := K();
      assert ProcOk(k, c);
      if space.Some? {
        GiveSpaceOk(k, c, space.value);
        table[c] := table[c].(pgdir := space);
        forks, spaces := forks[c := forks[c].(stage := Copied)], spaces + {space.value};
        assert K() == GiveSpace(k, c, space.value);
        return true;
      }
      DropSlotOk(k, c);
      stacks := stacks - {table[c].kstack.value};
      table[c] := table[c].(state := UNUSED, kstack := None);
      forks := forks - {c};
      assert K() == DropSlot(k, c);
      return false;
    }

    // the unlocked store of the parent
    method SetParent(c: nat, f: nat)
      requires Valid() && c in forks && forks[c] == Fork(f, Copied)
      modifies this`forks, table
      ensures Valid() && c < table.Length && K() == Adopt(old(K()), c)
    {
      ghost var k := K();
      AdoptOk(k, c);
      table[c] := table[c].(parent := Some(f));
      forks := forks[c := forks[c].(stage := Adopted)];
      assert K() == Adopt(k, c);
    }

    method MakeRunnable(c: nat)
      requires Valid() && c in forks && forks[c].stage == Adopted
      modifies this`forks, table
      ensures Valid() && c < table.Length && K() == Launch(old(K()), c)
    {
      ghost var k := K();
      LaunchOk(k, c);
      table[c] := table[c].(state := RUNNABLE);
      forks := forks - {c};
      assert K() == Launch(k, c);
    }

    // ---------------------------------------------------------------- scheduling

    // one alive process changes its run state and channel
    method Reset(p: nat, state: RunState, chan: Chan, killed: bool)
      requires Valid() && p < table.Length && Alive(table[p].state) && Alive(state)
      requires state == SLEEPING && chan == Process(p) ==>
                 Waiting(K(), p) || forall z: nat :: z < table.Length && table[z].parent == Some(p) ==>
                   table[z].state != ZOMBIE
      modifies table
      ensures Valid() && K() == WithProc(old(K()), p, old(table[p]).(state := state, chan := chan, killed := killed))
    {
      ghost var k := K();
      ResetOk(k, p, state, chan, killed);
      table[p] := table[p].(state := state, chan := chan, killed := killed);
      assert K() == WithProc(k, p, k.procs[p].(state := state, chan := chan, killed := killed));
    }

    /** The scheduler picks p; if p was in sleep, it forgets its channel. */
    method Run(p: nat)
      requires Valid() && p < table.Length && table[p].state == RUNNABLE
      modifies table
      ensures Valid() && K() == WithProc(old(K()), p, old(table[p]).(state := RUNNING, chan := Nothing))
    {
      Reset(p, RUNNING, Nothing, table[p].killed);
    }

    method Yield(p: nat)
      requires Valid() && p < table.Length && table[p].state == RUNNING
      modifies table
      ensures Valid() && K() == WithProc(old(K()), p, old(table[p]).(state := RUNNABLE))
    {
      Reset(p, RUNNABLE, table[p].chan, table[p].killed);
    }

    /** sleep on something other than a process. */
    method Sleep(p: nat, c: nat)
      requires Valid() && p < table.Length && table[p].state == RUNNING
      modifies table
      ensures Valid() && K() == WithProc(old(K()), p, old(table[p]).(state := SLEEPING, chan := Other(c)))
    {
      Reset(p, SLEEPING, Other(c), table[p].killed);
    }

    /** wakeup1: exactly the processes asleep on chan become runnable. */
    method Wakeup1(chan: Chan)
      modifies table
      ensures K() == old(K()).(procs := K().procs)
      ensures forall q :: 0 <= q < table.Length ==> table[q] == Woken(old(table[q]), chan)
    {
      var p := 0;
      while p < table.Length
        invariant p <= table.Length && K() == old(K()).(procs := K().procs)
        invariant forall q :: 0 <= q < p ==> table[q] == Woken(old(table[q]), chan)
        invariant forall q :: p <= q < table.Length ==> table[q] == old(table[q])
      {
        if table[p].state == SLEEPING && table[p].chan == chan {
          table[p] := table[p].(state := RUNNABLE);
        }
        p := p + 1;
      }
    }

    method Wakeup(chan: Chan)
      requires Valid()
      modifies table
      ensures Valid() && K() == old(K()).(procs := K().procs)
      ensures forall q :: 0 <= q < table.Length ==> table[q] == Woken(old(table[q]), chan)
    {
      ghost var k := K();
      Wakeup1(chan);
      forall q: nat ensures WokenAt(k, K(), chan, q) {
      }
      WakeOk(k, K(), chan);
    }

    /** kill: the first slot with the pid is marked, and woken if it sleeps. */
    method Kill(pid: nat) returns (ok: bool, ghost p: nat)
      requires Valid()
      modifies table
      ensures Valid()
      ensures !ok ==> K() == old(K()) && forall q :: 0 <= q < table.Length ==> table[q].pid != pid
      ensures ok ==>
                && p < table.Length && old(table[p]).pid == pid
                && K() == WithProc(old(K()), p, old(table[p]).(killed := true, state :=
                                     if old(table[p]).state == SLEEPING then RUNNABLE else old(table[p]).state))
      ensures ok && pid != 0 ==> forall q :: 0 <= q < table.Length && q != p ==> table[q].pid != pid
    {
      var i := 0;
      while i < table.Length
        invariant i <= table.Length && K() == old(K())
        invariant forall q :: 0 <= q < i ==> table[q].pid != pid
      {
        if table[i].pid == pid {
          ghost var k := K();
          p := i;
          forall q: nat | q < table.Length && q != p && pid != 0 ensures table[q].pid != pid {
            assert PairOk(k, p, q);
          }
          if table[i].state == SLEEPING {
            Reset(i, RUNNABLE, table[i].chan, true);
          } else {
            MarkOk(k, p);
            table[i] := table[i].(killed := true);
            assert K() == WithProc(k, p, k.procs[p].(killed := true));
          }
          return true, p;
        }
        i := i + 1;
      }
      return false, 0;
    }

    // ---------------------------------------------------------------- exit and wait

    // exit's loop over the table, k before it: the children of p go to init, which wakes up if one is a zombie
    method PassChildren(p: nat, ghost k: Kernel)
      requires p < table.Length && p != init && K() == k
      modifies table
      ensures table.Length == |k.procs| && K() == k.(procs := K().procs)
      ensures forall q: nat :: q < table.Length ==> table[q] == Passed(k, p, ZombieChild(k, p), k.procs[q])
    {
      ghost var woke := false;
      var i := 0;
      while i < table.Length
        invariant i <= table.Length == |k.procs| && K() == k.(procs := K().procs)
        invariant woke <==> exists z: nat :: z < i && IsZombieChild(k, p, z)
        invariant forall q: nat :: q < i ==> table[q] == Passed(k, p, woke, k.procs[q])
        invariant forall q: nat :: i <= q < table.Length ==> table[q] == if woke then Woken(k.procs[q], Process(init))
                  else k.procs[q]
      {
        if table[i].parent == Some(p) {
          table[i] := table[i].(parent := Some(init));
          if table[i].state == ZOMBIE {
            assert IsZombieChild(k, p, i);
            Wakeup1(Process(init));
            woke := true;
          }
        }
        i := i + 1;
      }
    }

    /** exit, from taking the lock: see Exited.  init does not exit: false stands for the panic. */
    method Exit(p: nat) returns (ok: bool)
      requires Valid() && p < table.Length && table[p].state == RUNNING && !Forking(K(), p)
      modifies table
      ensures Valid() && (ok <==> p != init)
      ensures !ok ==> K() == old(K())
      ensures ok ==> Exits(old(K()), K(), p)
    {
      if p == init {
        return false;
      }
      ghost var k := K();
      assert ProcOk(k, p) && ProcOk(k, init);
      Wakeup1(Process(table[p].parent.value));
      ghost var k1 := K();
      assert ZombieChild(k, p) <==> ZombieChild(k1, p) by {
        assert forall z: nat :: IsZombieChild(k, p, z) <==> IsZombieChild(k1, p, z);
      }
      PassChildren(p, k1);
      table[p] := table[p].(state := ZOMBIE);
      forall q: nat ensures ExitedAt(k, K(), p, q) {
      }
      ExitOk(k, K(), p);
      return true;
    }

    /**
     wait, once round its loop: a zombie child is reaped, its stack and page table freed; with no
     child, or when killed, the answer is -1; otherwise p goes to sleep with no zombie child.
     */
    method WaitOnce(p: nat) returns (r: WaitResult, ghost c: nat)
      requires Valid() && p < table.Length && table[p].state == RUNNING && !Forking(K(), p)
      modifies this`stacks, this`spaces, table
      ensures Valid()
      ensures r.Reaped? ==>
                && IsZombieChild(old(K()), p, c) && r.pid == old(table[c]).pid
                && old(table[c]).kstack.Some? && old(table[c]).kstack.value in old(stacks)
                && old(table[c]).pgdir.Some? && old(table[c]).pgdir.value in old(spaces)
                && K() == Reap(old(K()), c)
      ensures !r.Reaped? ==> !ZombieChild(old(K()), p)
      ensures r.NoChild? ==> K() == old(K())
                             && (table[p].killed || forall q: nat :: q < table.Length ==> table[q].parent != Some(p))
      ensures r.WaitAsleep? ==>
                && !table[p].killed && (exists q: nat :: q < table.Length && table[q].parent == Some(p))
                && K() == WithProc(old(K()), p, old(table[p]).(state := SLEEPING, chan := Process(p)))
    {
      ghost var k := K();
      var havekids, i := false, 0;
      while i < table.Length
        invariant i <= table.Length && K() == k
        invariant havekids <==> exists q: nat :: q < i && table[q].parent == Some(p)
        invariant forall q: nat :: q < i ==> !IsZombieChild(k, p, q)
      {
        if table[i].parent == Some(p) {
          havekids := true;
          if table[i].state == ZOMBIE {
            ReapOk(k, i);
            var pid := table[i].pid;
            stacks, spaces := stacks - {table[i].kstack.value}, spaces - {table[i].pgdir.value};
            table[i] := table[i].(state := UNUSED, pid := 0, parent := None, killed := false, kstack := None);
            assert K() == Reap(k, i);
            return Reaped(pid), i;
          }
        }
        i := i + 1;
      }
      if !havekids || table[p].killed {
        return NoChild, 0;
      }
      assert forall z: nat :: z < table.Length && table[z].parent == Some(p) ==> !IsZombieChild(k, p, z);
      Reset(p, SLEEPING, Process(p), table[p].killed);
      assert forall q: nat :: q < table.Length ==> table[q].parent == k.procs[q].parent;
      return WaitAsleep, 0;
    }
  }
}
