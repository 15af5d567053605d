/**
 The writes of one commit or recovery, in order.  A committer's next step is determined by
 the state of the log, so the disks it goes through form a sequence; this module says what
 a crash between any two of them leaves.
 */
module Commit {
  import opened Blocks
  import opened LogMachine

  ghost predicate Busy(s: State) {
    s.phase.Installing? || (s.phase.Copying? && s.lh != [])
  }

  // the committer's next write; hb is what a write of the header block puts there
  ghost function StepOf(s: State, hb: Block): Step
    requires Busy(s)
  {
    if s.phase.Copying? then if s.phase.done < |s.lh| then CopyLog else WriteHead(hb)
    else if s.phase.done < |s.lh| then Install else Clear(hb)
  }

  // one disk write of the committer, as a step of the log machine
  ghost predicate Writes(g: Geometry, s: State, s': State) {
    && Inv(g, s) && Busy(s) && GoodList(g, s.lh)
    && |s'.disk| == g.nblocks && Next(g, s, StepOf(s, s'.disk[g.start]), s')
  }

  ghost predicate WritesAt(g: Geometry, trail: seq<State>, i: nat)
    requires i + 1 < |trail|
  {
    Writes(g, trail[i], trail[i + 1])
  }

  /** Consecutive disk writes of one commit or recovery, cut after any of them. */
  ghost predicate Trail(g: Geometry, trail: seq<State>) {
    && trail != [] && Inv(g, trail[0])
    && forall i: nat {:trigger WritesAt(g, trail, i)} :: i + 1 < |trail| ==> WritesAt(g, trail, i)
  }

  /** The disks a trail leaves behind, one for every write. */
  ghost function Disks(trail: seq<State>): seq<Disk>
    requires trail != []
  {
    seq(|trail| - 1, i requires 0 <= i < |trail| - 1 => trail[i + 1].disk)
  }

  lemma TrailInv(g: Geometry, trail: seq<State>, i: nat)
    requires Trail(g, trail) && i < |trail|
    ensures Inv(g, trail[i])
  {
    if i > 0 {
      assert WritesAt(g, trail, i - 1);
      InvStep(g, trail[i - 1], StepOf(trail[i - 1], trail[i].disk[g.start]), trail[i]);
    }
  }

  lemma TrailWrites(g: Geometry, trail: seq<State>, i: nat)
    requires Trail(g, trail) && i + 1 < |trail|
    ensures Writes(g, trail[i], trail[i + 1])
  {
    assert WritesAt(g, trail, i);
  }

  lemma TrailExtend(g: Geometry, trail: seq<State>, s: State)
    requires Trail(g, trail) && Writes(g, trail[|trail| - 1], s)
    ensures Trail(g, trail + [s])
    ensures Disks(trail + [s]) == Disks(trail) + [s.disk]
  {
    forall i: nat | i + 1 < |trail| + 1 ensures WritesAt(g, trail + [s], i) {
      if i + 1 < |trail| {
        assert WritesAt(g, trail, i);
      }
    }
  }

  // the state that copying block t into the log leads to
  ghost function Copied(g: Geometry, s: State, t: nat): State
    requires Shape(g, s) && t < |s.lh| && g.start + 1 + t < g.nblocks
  {
    Write(s, g.start + 1 + t, s.view[s.lh[t]]).(phase := Copying(t + 1))
  }

  // the state that copying block t home leads to
  ghost function Installed(g: Geometry, s: State, t: nat): State
    requires Shape(g, s) && t < |s.lh| && g.start + 1 + t < g.nblocks
  {
    Write(s, s.lh[t], s.view[g.start + 1 + t]).(phase := Installing(t + 1))
  }

  // what the two change
  lemma CopyWrites(g: Geometry, s: State, t: nat)
    requires LaidOut(g, s, t)
    ensures var s', b, v := Copied(g, s, t), g.start + 1 + t, s.view[s.lh[t]];
            && s'.disk == s.disk[b := v] && s'.view == s.view[b := v] && s'.disk[g.start] == s.disk[g.start]
            && s'.lh == s.lh && s'.head == s.head
  {
  }

  lemma InstallWrites(g: Geometry, s: State, t: nat)
    requires LaidOut(g, s, t)
    ensures var s', b, v := Installed(g, s, t), s.lh[t], s.view[g.start + 1 + t];
            && s'.disk == s.disk[b := v] && s'.view == s.view[b := v] && s'.disk[g.start] == s.disk[g.start]
            && s'.lh == s.lh && s'.head == s.head
  {
    assert g.Home(s.lh[t]);
  }

  lemma ExtendCopied(g: Geometry, trail: seq<State>, t: nat)
    requires Trail(g, trail)
    requires var s := trail[|trail| - 1]; s.phase == Copying(t) && t < |s.lh| < g.nbuf && |s.lh| < g.size && Inv(g, s)
    ensures var s' := Copied(g, trail[|trail| - 1], t);
            Trail(g, trail + [s']) && Disks(trail + [s']) == Disks(trail) + [s'.disk] && Inv(g, s')
  {
    var s := trail[|trail| - 1];
    InvStep(g, s, CopyLog, Copied(g, s, t));
    TrailExtend(g, trail, Copied(g, s, t));
  }

  lemma ExtendInstalled(g: Geometry, trail: seq<State>, t: nat)
    requires Trail(g, trail)
    requires var s := trail[|trail| - 1]; s.phase == Installing(t) && t < |s.lh| && Inv(g, s)
    ensures var s' := Installed(g, trail[|trail| - 1], t);
            Trail(g, trail + [s']) && Disks(trail + [s']) == Disks(trail) + [s'.disk] && Inv(g, s')
  {
    var s := trail[|trail| - 1];
    InvStep(g, s, Install, Installed(g, s, t));
    TrailExtend(g, trail, Installed(g, s, t));
  }

  // the states that writing the header block leads to, at the commit point and at the end
  ghost function Headed(g: Geometry, s: State, hb: Block): State
    requires Shape(g, s)
  {
    Write(s, g.start, hb).(head := s.lh, phase := Installing(0))
  }

  ghost function Cleared(g: Geometry, s: State, hb: Block): State
    requires Shape(g, s)
  {
    Write(s, g.start, hb).(head := [], lh := [], phase := Finishing)
  }

  lemma ExtendHeaded(g: Geometry, trail: seq<State>, hb: Block)
    requires Trail(g, trail)
    requires var s := trail[|trail| - 1]; s.phase == Copying(|s.lh|) && s.lh != [] && Inv(g, s)
    ensures var s' := Headed(g, trail[|trail| - 1], hb);
            Trail(g, trail + [s']) && Disks(trail + [s']) == Disks(trail) + [s'.disk] && Inv(g, s')
  {
    var s := trail[|trail| - 1];
    InvStep(g, s, WriteHead(hb), Headed(g, s, hb));
    TrailExtend(g, trail, Headed(g, s, hb));
  }

  lemma ExtendCleared(g: Geometry, trail: seq<State>, hb: Block)
    requires Trail(g, trail)
    requires var s := trail[|trail| - 1]; s.phase == Installing(|s.lh|) && Inv(g, s)
    ensures var s' := Cleared(g, trail[|trail| - 1], hb);
            Trail(g, trail + [s']) && Disks(trail + [s']) == Disks(trail) + [s'.disk] && Inv(g, s')
  {
    var s := trail[|trail| - 1];
    InvStep(g, s, Clear(hb), Cleared(g, s, hb));
    TrailExtend(g, trail, Cleared(g, s, hb));
  }

  /**
   A commit (toLog) or a recovery that began in s and went along trail has copied k blocks,
   to the log or home; once one is in the log there was a buffer for it.
   */
  ghost predicate OnTrail(g: Geometry, s: State, trail: seq<State>, k: nat, toLog: bool) {
    && Trail(g, trail) && trail[0] == s
    && var last := trail[|trail| - 1];
    && Inv(g, last) && last.lh == s.lh && last.phase == (if toLog then Copying(k) else Installing(k))
    && (toLog && k > 0 ==> |s.lh| < g.nbuf)
  }

  lemma TrailStarts(g: Geometry, s: State)
    requires Inv(g, s) && s.phase == Copying(0)
    ensures OnTrail(g, s, [s], 0, true) && Disks([s]) == []
  {
  }

  ghost predicate LaidOut(g: Geometry, s: State, t: nat) {
    Shape(g, s) && HomeList(g, s.lh) && t < |s.lh| && g.InLog(g.start + 1 + t)
  }

  lemma CopiedOn(g: Geometry, s: State, trail: seq<State>, t: nat)
    requires OnTrail(g, s, trail, t, true) && t < |s.lh| && SmallCache(g)
    ensures var last := trail[|trail| - 1];
            && LaidOut(g, last, t)
            && var s' := Copied(g, last, t);
               |s.lh| < g.nbuf ==>
                 OnTrail(g, s, trail + [s'], t + 1, true) && Disks(trail + [s']) == Disks(trail) + [s'.disk]
  {
    if |s.lh| < g.nbuf { ExtendCopied(g, trail, t); }
  }

  lemma InstalledOn(g: Geometry, s: State, trail: seq<State>, t: nat)
    requires OnTrail(g, s, trail, t, false) && t < |s.lh|
    ensures var last := trail[|trail| - 1];
            && LaidOut(g, last, t)
            && var s' := Installed(g, last, t);
               OnTrail(g, s, trail + [s'], t + 1, false) && Disks(trail + [s']) == Disks(trail) + [s'.disk]
  {
    ExtendInstalled(g, trail, t);
  }

  lemma HeadedOn(g: Geometry, s: State, trail: seq<State>, hb: Block)
    requires OnTrail(g, s, trail, |s.lh|, true) && s.lh != []
    ensures var last := trail[|trail| - 1];
            && Shape(g, last)
            && var s' := Headed(g, last, hb);
               OnTrail(g, s, trail + [s'], 0, false) && Disks(trail + [s']) == Disks(trail) + [s'.disk]
  {
    ExtendHeaded(g, trail, hb);
  }

  // what one write does to the position of the committer
  lemma WritePhase(g: Geometry, s: State, s': State)
    requires Writes(g, s, s')
    ensures var t := s.phase.done;
            if s.phase.Copying? then
              && s'.lh == s.lh && SameHome(g, s'.view, s.view)
              && s'.phase == if t < |s.lh| then Copying(t + 1) else Installing(0)
            else if t < |s.lh| then s'.lh == s.lh && s'.phase == Installing(t + 1)
            else s'.lh == [] && s'.phase == Finishing
  {
  }

  // ---------------------------------------------------------------- commit

  // where k writes take a commit of n blocks
  ghost predicate CommitAt(s': State, lh: seq<nat>, k: nat) {
    var n := |lh|;
    if k <= n then s'.lh == lh && s'.phase == Copying(k)
    else if k <= 2 * n + 1 then s'.lh == lh && s'.phase == Installing(k - n - 1)
    else s'.lh == [] && s'.phase == Finishing
  }

  // one write of a commit: what recovery would restore changes at the header write alone
  lemma CommitWrite(g: Geometry, s: State, s': State, lh: seq<nat>, k: nat, img: Disk)
    requires Writes(g, s, s') && lh != [] && CommitAt(s, lh, k) && Restores(g, s.head, s.disk, img)
    ensures CommitAt(s', lh, k + 1)
    ensures k < |lh| ==> SameHome(g, s'.view, s.view)
    ensures Restores(g, s'.head, s'.disk, if k == |lh| then s.view else img)
  {
    WritePhase(g, s, s');
    StepImage(g, s, StepOf(s, s'.disk[g.start]), s', img);
  }

  lemma SameHomeTrans(g: Geometry, a: Disk, b: Disk, c: Disk)
    requires SameHome(g, a, b) && SameHome(g, b, c)
    ensures SameHome(g, a, c)
  {
  }

  // what a crash leaves after k writes of a commit that began in s
  ghost predicate CutAt(g: Geometry, s: State, s': State, k: nat, img: Disk) {
    && CommitAt(s', s.lh, k)
    && (k <= |s.lh| ==> SameHome(g, s'.view, s.view))
    && Restores(g, s'.head, s'.disk, if k <= |s.lh| then img else s.view)
  }

  lemma CutStart(g: Geometry, s: State, img: Disk)
    requires s.phase == Copying(0) && |s.view| == g.nblocks && Restores(g, s.head, s.disk, img)
    ensures CutAt(g, s, s, 0, img)
  {
  }

  lemma CutStep(g: Geometry, s: State, t: State, t': State, k: nat, img: Disk)
    requires Writes(g, t, t') && s.lh != [] && CutAt(g, s, t, k, img)
    ensures CutAt(g, s, t', k + 1, img)
  {
    var n := |s.lh|;
    CommitWrite(g, t, t', s.lh, k, if k <= n then img else s.view);
    if k < n {
      SameHomeTrans(g, t'.view, t.view, s.view);
    } else if k == n {
      SwapImage(g, t', t.view, s.view);
    }
  }

  lemma CutStepAt(g: Geometry, trail: seq<State>, k: nat, img: Disk)
    requires Trail(g, trail) && k + 1 < |trail| && trail[0].lh != [] && CutAt(g, trail[0], trail[k], k, img)
    ensures CutAt(g, trail[0], trail[k + 1], k + 1, img)
  {
    TrailWrites(g, trail, k);
    CutStep(g, trail[0], trail[k], trail[k + 1], k, img);
  }

  lemma {:induction false} CutUpTo(g: Geometry, trail: seq<State>, k: nat, img: Disk)
    requires Trail(g, trail) && k < |trail| && trail[0].lh != [] && CutAt(g, trail[0], trail[0], 0, img)
    ensures CutAt(g, trail[0], trail[k], k, img)
  {
    if k > 0 {
      CutUpTo(g, trail, k - 1, img);
      CutStepAt(g, trail, k - 1, img);
    }
  }

  /**
   Crash atomicity of one commit: recovery from a crash after k of its writes restores the
   home blocks of before if the header was not yet written (k <= n), and the cache contents
   the commit started from otherwise.
   */
  lemma CommitCrash(g: Geometry, trail: seq<State>, k: nat, img: Disk)
    requires Trail(g, trail) && k < |trail|
    requires trail[0].phase == Copying(0) && trail[0].lh != [] && Restores(g, trail[0].head, trail[0].disk, img)
    ensures CutAt(g, trail[0], trail[k], k, img)
  {
    CutStart(g, trail[0], img);
    CutUpTo(g, trail, k, img);
  }

  // ---------------------------------------------------------------- recovery

  // where k writes take a recovery of n blocks
  ghost predicate RecoverAt(s': State, lh: seq<nat>, k: nat) {
    if k <= |lh| then s'.lh == lh && s'.phase == Installing(k) else s'.lh == [] && s'.phase == Finishing
  }

  lemma RecoverWrite(g: Geometry, s: State, s': State, lh: seq<nat>, k: nat, img: Disk)
    requires Writes(g, s, s') && RecoverAt(s, lh, k) && Restores(g, s.head, s.disk, img)
    ensures RecoverAt(s', lh, k + 1)
    ensures Restores(g, s'.head, s'.disk, img)
  {
    WritePhase(g, s, s');
    StepImage(g, s, StepOf(s, s'.disk[g.start]), s', img);
  }

  /** A recovery cut after k writes still restores what it started out to restore. */
  lemma {:induction false} RecoverCrash(g: Geometry, trail: seq<State>, k: nat, img: Disk)
    requires Trail(g, trail) && k < |trail| && Boot(g, trail[0]) && Restores(g, trail[0].head, trail[0].disk, img)
    ensures RecoverAt(trail[k], trail[0].lh, k)
    ensures Restores(g, trail[k].head, trail[k].disk, img)
  {
    if k > 0 {
      RecoverCrash(g, trail, k - 1, img);
      assert WritesAt(g, trail, k - 1);
      RecoverWrite(g, trail[k - 1], trail[k], trail[0].lh, k - 1, img);
    }
  }

  // recovery starts on what state s leaves on disk
  ghost predicate StartsFrom(g: Geometry, trail: seq<State>, s: State) {
    Trail(g, trail) && Boot(g, trail[0]) && trail[0].head == s.head && trail[0].disk == s.disk
  }

  ghost function Last(s: State, trails: seq<seq<State>>): State {
    if trails == [] || trails[|trails| - 1] == [] then s
    else var t := trails[|trails| - 1]; t[|t| - 1]
  }

  /** Recovery is started after s, cut, started on what that leaves, cut again, and so on. */
  ghost predicate CutRecoveries(g: Geometry, s: State, trails: seq<seq<State>>) {
    trails != [] ==>
      var before := trails[..|trails| - 1];
      CutRecoveries(g, s, before) && StartsFrom(g, trails[|trails| - 1], Last(s, before))
  }

  /** Recovery can be cut any number of times, anywhere: what it restores does not change. */
  lemma {:induction false} RecoveryIsIdempotent(g: Geometry, s: State, trails: seq<seq<State>>, img: Disk)
    requires CutRecoveries(g, s, trails) && Restores(g, s.head, s.disk, img)
    ensures var s' := Last(s, trails); Restores(g, s'.head, s'.disk, img)
  {
    if trails != [] {
      var t := trails[|trails| - 1];
      RecoveryIsIdempotent(g, s, trails[..|trails| - 1], img);
      RecoverCrash(g, t, |t| - 1, img);
    }
  }

  /** An uncut recovery leaves that image on disk and in the cache, and an empty log. */
  lemma RecoveryCompletes(g: Geometry, s: State, trail: seq<State>, img: Disk)
    requires StartsFrom(g, trail, s) && Restores(g, s.head, s.disk, img) && |trail| == |s.head| + 2
    ensures var s' := trail[|trail| - 1];
            Quiescent(s') && SameHome(g, s'.disk, img) && SameHome(g, s'.view, img)
  {
    var k := |trail| - 1;
    RecoverCrash(g, trail, k, img);
    TrailInv(g, trail, k);
    NothingPending(g, trail[k]);
    QuiescentAgrees(g, trail[k], img);
  }

  /**
   No recovery is ever stuck, nor a commit of a list that fits the log and leaves a buffer for
   it: its next write exists until the log is clear.
   */
  lemma CanWrite(g: Geometry, s: State, hb: Block) returns (s': State)
    requires Inv(g, s) && Busy(s) && (s.phase.Copying? ==> |s.lh| < g.nbuf && |s.lh| < g.size)
    ensures Writes(g, s, s') && Inv(g, s')
  {
    var t, step := s.phase.done, StepOf(s, hb);
    s' := if step.CopyLog? then Copied(g, s, t)
          else if step.WriteHead? then Headed(g, s, hb)
          else if step.Install? then Installed(g, s, t)
          else Cleared(g, s, hb);
    InvStep(g, s, step, s');
  }
}
