/**
 log.c itself: the in-memory header, the copying loops of commit and recovery, and the entry
 points, running on the buffer cache.  Every disk write is shown to be a step of the log
 machine, so what LogMachine and Commit prove of runs holds of this code.
 */
module Log {
  import opened Blocks
  import opened Wrappers
  import opened LogMachine
  import opened Commit
  import opened Pins
  import Bio

  // ---------------------------------------------------------------- the log header block

  ghost predicate HeaderOk(b: Block) {
    GetWord(b, 0) <= LOGSIZE
  }

  ghost function HeaderOf(b: Block): seq<nat>
    requires HeaderOk(b)
  {
    seq(GetWord(b, 0), i requires 0 <= i < GetWord(b, 0) => GetWord(b, 1 + i))
  }

  ghost predicate Loggable(lh: seq<nat>) {
    |lh| <= LOGSIZE && forall i :: 0 <= i < |lh| ==> lh[i] < UINT_LIMIT
  }

  // the first k entries copied into the header's block array
  ghost function SetEntries(b: Block, lh: seq<nat>, k: nat): (r: Block)
    requires Loggable(lh) && k <= |lh|
    ensures GetWord(r, 0) == GetWord(b, 0)
    ensures forall i :: 0 <= i < k ==> GetWord(r, 1 + i) == lh[i]
  {
    if k == 0 then b else SetWord(SetEntries(b, lh, k - 1), k, lh[k - 1])
  }

  lemma SetNext(b: Block, lh: seq<nat>, k: nat)
    requires Loggable(lh) && k < |lh|
    ensures SetEntries(b, lh, k + 1) == SetWord(SetEntries(b, lh, k), k + 1, lh[k])
  {
  }

  /** The header block that write_head leaves: count and entries overwritten, the rest stale. */
  ghost function WithHeader(b: Block, lh: seq<nat>): (r: Block)
    requires Loggable(lh)
    ensures HeaderOk(r) && HeaderOf(r) == lh
  {
    SetEntries(SetWord(b, 0, |lh|), lh, |lh|)
  }

  // the logged blocks fit the header, and it is not one of them
  lemma HeadReady(g: Geometry, s: State)
    requires Inv(g, s)
    ensures Shape(g, s) && Loggable(s.lh) && g.start !in s.lh
  {
  }

  // ---------------------------------------------------------------- one operation's stores

  /** The first i of the stores. */
  ghost function AllStored(d: Disk, bns: seq<nat>, data: seq<Block>, i: nat): (r: Disk)
    requires i <= |bns| == |data|
    ensures |r| == |d|
  {
    if i == 0 then d else Stored(AllStored(d, bns, data, i - 1), bns[i - 1], data[i - 1])
  }

  // one operation is running and between two of its stores
  ghost predicate CalmOp(s: State) {
    s.phase.Idle? && |s.ops| == 1 && s.ops[0].pending == {} && s.ops[0].passed.None?
  }

  // the only operation running changes a block and logs it
  ghost predicate UpdatesVia(g: Geometry, s: State, a: State, b: State, bn: nat, data: Block, s': State) {
    Next(g, s, Modify(0, bn, data), a) && Next(g, a, Test(0, bn), b) && Next(g, b, Record(0, bn), s')
  }

  ghost predicate Updates(g: Geometry, s: State, bn: nat, data: Block, s': State) {
    exists a, b :: UpdatesVia(g, s, a, b, bn, data, s')
  }

  lemma UpdateCalm(g: Geometry, s: State, bn: nat, data: Block, s': State)
    requires CalmOp(s) && Updates(g, s, bn, data, s')
    ensures CalmOp(s') && bn < |s.view| && s' == s.(view := s.view[bn := data], lh := s'.lh, ops := s'.ops)
  {
  }

  lemma UpdateLogs(g: Geometry, s: State, bn: nat, data: Block, s': State)
    requires CalmOp(s) && Updates(g, s, bn, data, s')
    ensures CalmOp(s') && GuardPasses(g, s) && s'.lh == if bn in s.lh then s.lh else s.lh + [bn]
  {
  }

  // the block is changed and not logged yet
  ghost predicate Halfway(s: State, a: State, bn: nat) {
    && a.phase.Idle? && a.lh == s.lh
    && |a.ops| == 1 && a.ops[0].pending == {bn} && a.ops[0].passed.None?
  }

  lemma UpdateBegun(g: Geometry, s: State, bn: nat, data: Block, a: State)
    requires CalmOp(s) && Next(g, s, Modify(0, bn, data), a)
    ensures Halfway(s, a, bn)
  {
  }

  lemma UpdateDone(g: Geometry, s: State, a: State, b: State, bn: nat, data: Block, s': State)
    requires CalmOp(s) && UpdatesVia(g, s, a, b, bn, data, s')
    ensures Updates(g, s, bn, data, s') && CalmOp(s') && s'.lh == if bn in s.lh then s.lh else s.lh + [bn]
  {
    UpdateLogs(g, s, bn, data, s');
  }

  lemma UpdateKeeps(g: Geometry, s: State, bn: nat, data: Block, s': State)
    requires Inv(g, s) && SmallCache(g) && Updates(g, s, bn, data, s')
    ensures Inv(g, s')
  {
    var a, b :| UpdatesVia(g, s, a, b, bn, data, s');
    SmallCacheStep(g, s, Modify(0, bn, data), a);
    SmallCacheStep(g, a, Test(0, bn), b);
    SmallCacheStep(g, b, Record(0, bn), s');
  }

  ghost predicate UpdatesAt(g: Geometry, bns: seq<nat>, data: seq<Block>, states: seq<State>, i: nat)
    requires i < |bns| == |data| && i + 1 < |states|
  {
    Updates(g, states[i], bns[i], data[i], states[i + 1])
  }

  /** The states after begin_op and after each of the stores so far. */
  ghost predicate UpdatesAll(g: Geometry, s: State, bns: seq<nat>, data: seq<Block>, states: seq<State>) {
    && 1 <= |states| <= |bns| + 1 && |bns| == |data| && Next(g, s, BeginOp, states[0])
    && forall i: nat {:trigger UpdatesAt(g, bns, data, states, i)} ::
         i + 1 < |states| ==> UpdatesAt(g, bns, data, states, i)
  }

  lemma UpdatesMore(g: Geometry, s: State, bns: seq<nat>, data: seq<Block>, states: seq<State>, t: State)
    requires UpdatesAll(g, s, bns, data, states) && |states| <= |bns|
    requires var i := |states| - 1; Updates(g, states[i], bns[i], data[i], t)
    ensures UpdatesAll(g, s, bns, data, states + [t])
  {
    forall i: nat | i < |states| ensures UpdatesAt(g, bns, data, states + [t], i) {
      if i + 1 < |states| { assert UpdatesAt(g, bns, data, states, i); }
    }
  }

  lemma OpenCalm(g: Geometry, s: State, t: State)
    requires Quiescent(s) && s.phase.Idle? && Next(g, s, BeginOp, t)
    ensures CalmOp(t) && t == s.(ops := t.ops)
  {
  }

  /** They keep the invariant, and the stores are in the view and none on disk. */
  lemma {:induction false} UpdatesResult(g: Geometry, s: State, bns: seq<nat>, data: seq<Block>, states: seq<State>,
          i: nat)
    requires Inv(g, s) && SmallCache(g) && Quiescent(s) && UpdatesAll(g, s, bns, data, states) && i < |states|
    ensures var t := states[i];
            Inv(g, t) && CalmOp(t) && t.disk == s.disk && t.head == s.head && t.view == AllStored(s.view, bns, data, i)
  {
    if i == 0 {
      OpenCalm(g, s, states[0]);
      SmallCacheStep(g, s, BeginOp, states[0]);
    } else {
      UpdatesResult(g, s, bns, data, states, i - 1);
      assert UpdatesAt(g, bns, data, states, i - 1);
      UpdateCalm(g, states[i - 1], bns[i - 1], data[i - 1], states[i]);
      UpdateKeeps(g, states[i - 1], bns[i - 1], data[i - 1], states[i]);
    }
  }

  // ---------------------------------------------------------------- when it gets through

  // a log that holds these blocks passes log_write's test
  ghost predicate Room(g: Geometry, bns: seq<nat>) {
    |Elements(bns)| < LOGSIZE && |Elements(bns)| < g.size - 1
  }

  /** What was stored before each store leaves room in the log, and all of it leaves a buffer. */
  ghost predicate Feasible(g: Geometry, bns: seq<nat>) {
    (forall i :: 0 <= i < |bns| ==> Room(g, bns[..i])) && (bns != [] ==> |Elements(bns)| < g.nbuf)
  }

  /** An operation that stores no block twice, in this kernel: as many blocks as buffers but one. */
  lemma DistinctFeasible(g: Geometry, bns: seq<nat>)
    requires SmallCache(g) && Distinct(bns)
    ensures Feasible(g, bns) <==> bns == [] || |bns| < g.nbuf
  {
    DistinctSize(bns);
    forall i | 0 <= i < |bns| ensures |Elements(bns[..i])| == i { DistinctSize(bns[..i]); }
  }

  /** One that keeps to MAXOPBLOCKS different blocks, with the log of mkfs and NBUF buffers or with less. */
  lemma WithinFeasible(g: Geometry, bns: seq<nat>)
    requires |Elements(bns)| <= MAXOPBLOCKS && MAXOPBLOCKS < g.nbuf && MAXOPBLOCKS + 1 < g.size
    ensures Feasible(g, bns)
  {
    forall i | 0 <= i < |bns| ensures Room(g, bns[..i]) {
      assert bns[..i] <= bns;
      SubsetSize(Elements(bns[..i]), Elements(bns));
    }
  }

  // the log holds these blocks
  ghost predicate Holding(lh: seq<nat>, bns: seq<nat>) {
    Distinct(lh) && Elements(lh) == Elements(bns)
  }

  lemma FeasibleAt(g: Geometry, s: State, bns: seq<nat>, i: nat)
    requires i < |bns| && Holding(s.lh, bns[..i])
    ensures Feasible(g, bns) ==> GuardPasses(g, s) && |s.lh| < g.nbuf
  {
    DistinctSize(s.lh);
    assert bns[..i] <= bns;
    assert Feasible(g, bns) ==> Room(g, bns[..i]);
    SubsetSize(Elements(bns[..i]), Elements(bns));
  }

  lemma HoldingMore(lh: seq<nat>, bns: seq<nat>, i: nat, lh': seq<nat>)
    requires i < |bns| && Holding(lh, bns[..i]) && lh' == if bns[i] in lh then lh else lh + [bns[i]]
    ensures Holding(lh', bns[..i + 1])
  {
    assert bns[..i + 1] == bns[..i] + [bns[i]];
    assert Elements(bns[..i + 1]) == Elements(bns[..i]) + {bns[i]};
    assert bns[i] in lh <==> bns[i] in Elements(lh);
    assert Elements(lh + [bns[i]]) == Elements(lh) + {bns[i]};
  }

  lemma HoldingNext(g: Geometry, s: State, bns: seq<nat>, i: nat, data: Block, s': State)
    requires i < |bns| && Holding(s.lh, bns[..i]) && CalmOp(s) && Updates(g, s, bns[i], data, s')
    ensures Holding(s'.lh, bns[..i + 1]) && CalmOp(s')
    ensures Room(g, bns[..i])
  {
    UpdateLogs(g, s, bns[i], data, s');
    HoldingMore(s.lh, bns, i, s'.lh);
    DistinctSize(s.lh);
  }

  lemma {:induction false} HoldingUpTo(g: Geometry, s: State, bns: seq<nat>, data: seq<Block>, states: seq<State>,
          i: nat)
    requires Quiescent(s) && s.phase.Idle? && UpdatesAll(g, s, bns, data, states) && i < |states|
    ensures Holding(states[i].lh, bns[..i]) && CalmOp(states[i])
  {
    if i == 0 {
      OpenCalm(g, s, states[0]);
      assert Elements(bns[..0]) == {} == Elements([]);
    } else {
      HoldingUpTo(g, s, bns, data, states, i - 1);
      assert UpdatesAt(g, bns, data, states, i - 1);
      HoldingNext(g, states[i - 1], bns, i - 1, data[i - 1], states[i]);
    }
  }

  // a store has passed its test
  lemma RoomAt(g: Geometry, s: State, bns: seq<nat>, data: seq<Block>, states: seq<State>, i: nat)
    requires Quiescent(s) && s.phase.Idle? && UpdatesAll(g, s, bns, data, states) && i + 1 < |states|
    ensures Room(g, bns[..i])
  {
    HoldingUpTo(g, s, bns, data, states, i);
    assert UpdatesAt(g, bns, data, states, i);
    HoldingNext(g, states[i], bns, i, data[i], states[i + 1]);
  }

  lemma AllHolding(g: Geometry, s: State, bns: seq<nat>, data: seq<Block>, states: seq<State>)
    requires Quiescent(s) && s.phase.Idle? && UpdatesAll(g, s, bns, data, states) && |states| == |bns| + 1
    ensures var n := |states[|bns|].lh|;
            (n == 0 <==> bns == []) && (Feasible(g, bns) <==> bns == [] || n < g.nbuf)
  {
    HoldingUpTo(g, s, bns, data, states, |bns|);
    forall i: nat | i < |bns| ensures Room(g, bns[..i]) { RoomAt(g, s, bns, data, states, i); }
    assert bns[..|bns|] == bns;
    DistinctSize(states[|bns|].lh);
    if bns != [] { assert bns[0] in Elements(bns); } else { assert Elements(bns) == {}; }
  }

  /** What begin_op and all the stores lead to. */
  ghost predicate Gathered(g: Geometry, s: State, bns: seq<nat>, data: seq<Block>, t: State)
    requires |bns| == |data|
  {
    && Inv(g, t) && t.disk == s.disk && t.head == s.head && t.view == AllStored(s.view, bns, data, |bns|)
    && (t.lh == [] <==> bns == []) && (Feasible(g, bns) <==> bns == [] || |t.lh| < g.nbuf)
  }

  lemma AllGathered(g: Geometry, s: State, bns: seq<nat>, data: seq<Block>, states: seq<State>)
    requires Inv(g, s) && SmallCache(g) && Quiescent(s) && s.phase.Idle?
    requires UpdatesAll(g, s, bns, data, states) && |states| == |bns| + 1
    ensures Gathered(g, s, bns, data, states[|bns|])
  {
    UpdatesResult(g, s, bns, data, states, |bns|);
    AllHolding(g, s, bns, data, states);
  }

  lemma QuiescentRestores(g: Geometry, s: State)
    requires Inv(g, s) && Quiescent(s)
    ensures Restores(g, s.head, s.disk, s.view)
  {
    forall b: nat | b < g.nblocks && g.Home(b) ensures ImageAt(g, s.head, s.disk, b) == s.view[b] {
      assert !PendingSomewhere(s, b);
      ImageOf(g, s.head, s.disk, b);
    }
  }

  // CommitCrash for every cut of the commit
  lemma CutAnywhere(g: Geometry, trail: seq<State>, img: Disk)
    requires Trail(g, trail) && trail[0].phase == Copying(0) && Restores(g, trail[0].head, trail[0].disk, img)
    ensures forall k :: 0 <= k < |trail| ==>
              Restores(g, trail[k].head, trail[k].disk, if k <= |trail[0].lh| then img else trail[0].view)
  {
    forall k | 0 <= k < |trail|
      ensures Restores(g, trail[k].head, trail[k].disk, if k <= |trail[0].lh| then img else trail[0].view)
    {
      if k > 0 {
        assert WritesAt(g, trail, 0);
        CommitCrash(g, trail, k, img);
      }
    }
  }

  lemma Recovered(g: Geometry, trail: seq<State>, img: Disk)
    requires Trail(g, trail) && Boot(g, trail[0]) && Restores(g, trail[0].head, trail[0].disk, img)
    requires trail[|trail| - 1].phase.Finishing?
    ensures var t := trail[|trail| - 1];
            && Inv(g, t) && Inv(g, t.(phase := Idle)) && Quiescent(t)
            && SameHome(g, t.disk, img) && SameHome(g, t.view, img)
  {
    var k := |trail| - 1;
    TrailInv(g, trail, k);
    NothingPending(g, trail[k]);
    RecoverCrash(g, trail, k, img);
    QuiescentAgrees(g, trail[k], img);
    InvStep(g, trail[k], Finish, trail[k].(phase := Idle));
  }

  // a commit that is over has put on disk what it started from
  lemma Concluded(g: Geometry, trail: seq<State>, t: State, img: Disk)
    requires Trail(g, trail) && trail[0].phase == Copying(0) && Restores(g, trail[0].head, trail[0].disk, img)
    requires Next(g, trail[|trail| - 1], Finish, t) && t.lh == []
    ensures SameHome(g, t.disk, trail[0].view) && SameHome(g, t.view, trail[0].view)
    ensures Inv(g, t) && Quiescent(t) && t.phase.Idle?
  {
    var k := |trail| - 1;
    TrailInv(g, trail, k);
    NothingPending(g, trail[k]);
    InvStep(g, trail[k], Finish, t);
    if k == 0 {
      QuiescentRestores(g, t);
      QuiescentAgrees(g, t, t.view);
    } else {
      assert WritesAt(g, trail, 0);
      CommitCrash(g, trail, k, img);
      QuiescentAgrees(g, trail[k], trail[0].view);
    }
  }

  // ---------------------------------------------------------------- the log object

  class Log {
    const g: Geometry
    const cache: Bio.BufferCache
    const block: array<nat>  // lh.block
    var n: nat               // lh.n
    var outstanding: nat
    var committing: bool
    ghost var who: seq<nat>  // the processes between begin_op and end_op

    ghost predicate Valid()
      reads this, block, cache, cache.buf, cache.next, cache.prev
    {
      && cache.Valid()
      && block.Length == LOGSIZE && n <= LOGSIZE
      && g.Valid() && |cache.disk| == g.nblocks && cache.nbuf == g.nbuf && SmallCache(g)
      && block as object != cache.next && block as object != cache.prev
    }

    ghost function Lh(): seq<nat>
      reads this, block
      requires n <= block.Length
    {
      block[..n]
    }

    /** The machine state that the object represents. */
    ghost predicate Represents(s: State)
      reads this, block, cache, cache.buf, cache.next, cache.prev
    {
      && Valid()
      && cache.disk == s.disk && cache.view == s.view && Lh() == s.lh
      && HeaderOk(s.disk[g.start]) && HeaderOf(s.disk[g.start]) == s.head
    }

    /**
     A commit or a recovery that began in state s, when the disk history was hist, has gone
     along trail, has copied k blocks, and holds no buffer.  While blocks are copied to the log
     the logged ones stay in the cache, and the first copy shows that there is a buffer more.
     */
    ghost predicate Progress(s: State, trail: seq<State>, k: nat, toLog: bool, hist: seq<Disk>)
      reads this, block, cache, cache.buf, cache.next, cache.prev
    {
      && OnTrail(g, s, trail, k, toLog) && cache.history == hist + Disks(trail)
      && Represents(trail[|trail| - 1]) && HoldersWithin({})
      && (toLog ==> AllDirty(cache.buf[..], s.lh))
    }

    constructor (g: Geometry, cache: Bio.BufferCache)
      requires cache.Valid() && g.Valid() && |cache.disk| == g.nblocks && cache.nbuf == g.nbuf && SmallCache(g)
      ensures Valid() && this.g == g && this.cache == cache
      ensures n == outstanding == 0 && !committing && who == [] && fresh(block)
    {
      this.g, this.cache := g, cache;
      block := new nat[LOGSIZE](i => 0);
      n, outstanding, committing, who := 0, 0, false, [];
    }

    // the caller holds buffer i, it shows block bn, and dropping it loses nothing
    ghost predicate Holds(i: nat, bn: nat, pid: nat)
      reads cache, cache.buf
    {
      && cache.buf.Length == cache.nbuf && i < cache.nbuf && |cache.disk| == |cache.view|
      && bn < |cache.disk| && cache.buf[i].dev == Bio.ROOTDEV && cache.buf[i].blockno == bn
      && cache.buf[i].holder == pid && cache.buf[i].valid && cache.buf[i].refcnt > 0
      && cache.buf[i].data == cache.view[bn]
      && (cache.buf[i].dirty || cache.buf[i].data == cache.disk[bn])
    }

    // no buffer is held but those in keep
    ghost predicate HoldersWithin(keep: set<nat>)
      reads cache, cache.buf
    {
      forall i :: 0 <= i < cache.buf.Length && i !in keep ==> cache.buf[i].holder == 0
    }

    // nobody refers to a buffer, and only blocks of lh have dirty ones
    ghost predicate Stock(lh: seq<nat>)
      reads cache, cache.buf
    {
      Stocked(cache.buf[..], lh, {})
    }

    // bread of a block whose buffer nobody holds: fails exactly when the device has no such block
    // or there is no buffer for it
    method Obtain(bn: nat, pid: nat) returns (r: Option<nat>)
      requires Valid() && pid != 0
      requires forall i :: 0 <= i < cache.nbuf && BufferOf(cache.buf[i], bn) ==> cache.buf[i].holder == 0
      modifies cache.buf
      ensures Valid()
      ensures r.Some? <==> bn < g.nblocks && old(Obtainable(cache.buf[..], bn))
      ensures r.Some? ==> Holds(r.value, bn, pid) && Reread(old(cache.buf[r.value]), cache.buf[r.value], true)
      ensures r.Some? ==> BufferOf(old(cache.buf[r.value]), bn) || Spare(old(cache.buf[r.value]))
      ensures r.Some? ==> forall i :: 0 <= i < cache.nbuf && i != r.value ==> cache.buf[i] == old(cache.buf[i])
    {
      ghost var bs := cache.buf[..];
      assert forall i :: 0 <= i < cache.nbuf ==> bs[i] == cache.buf[i];
      assert forall i :: 0 <= i < cache.nbuf ==> cache.Matches(i, Bio.ROOTDEV, bn) == BufferOf(bs[i], bn);
      assert cache.NoBuffer(Bio.ROOTDEV, bn) <==> !Obtainable(bs, bn) by {
        if HasSpare(bs) {
          var i :| 0 <= i < |bs| && Spare(bs[i]);
          assert cache.buf[i].refcnt == 0 && !cache.buf[i].dirty;
        } else {
          assert forall i :: 0 <= i < |bs| ==> !Spare(bs[i]);
        }
      }
      r := cache.Bread(Bio.ROOTDEV, bn, pid);
    }

    // the log block and then the home block; false is the panic of bread
    method ReadPair(inLog: nat, home: nat, pid: nat) returns (ok: bool, a: nat, b: nat)
      requires Valid() && HoldersWithin({}) && pid != 0
      requires inLog != home && inLog < g.nblocks && home < g.nblocks
      modifies cache.buf
      ensures Valid()
      ensures old(PairObtainable(cache.buf[..], home)) ==> ok
      ensures ok ==> a != b && Holds(a, inLog, pid) && Holds(b, home, pid) && HoldersWithin({a, b})
      ensures ok ==> forall i :: 0 <= i < cache.nbuf ==> Reread(old(cache.buf[i]), cache.buf[i], i in {a, b})
    {
      ghost var bs := cache.buf[..];
      var r := Obtain(inLog, pid);
      if r.None? { return false, 0, 0; }
      a := r.value;
      assert HoldersWithin({a});
      PairGoesOn(bs, cache.buf[..], home, a);
      r := Obtain(home, pid);
      if r.None? { return false, 0, 0; }
      b := r.value;
      return true, a, b;
    }

    method Release(i: nat, bn: nat, pid: nat, ghost keep: set<nat>)
      requires Valid() && pid != 0 && Holds(i, bn, pid) && HoldersWithin(keep)
      modifies cache`order, cache`released, cache`clock, cache.buf, cache.next, cache.prev
      ensures Valid() && HoldersWithin(keep - {i})
      ensures Bio.SameBlock(old(cache.buf[i]), cache.buf[i]) && cache.buf[i].dirty == old(cache.buf[i]).dirty
      ensures cache.buf[i].refcnt + 1 == old(cache.buf[i]).refcnt
      ensures forall j :: 0 <= j < cache.nbuf && j != i ==> cache.buf[j] == old(cache.buf[j])
    {
      var done := cache.Brelse(i, pid);
    }

    // put data into the held buffer of block bn and write it out
    method WriteOut(i: nat, bn: nat, data: Block, pid: nat)
      requires Valid() && pid != 0 && Holds(i, bn, pid)
      modifies cache`disk, cache`view, cache`history, cache.buf
      ensures Valid() && Holds(i, bn, pid)
      ensures bn < |old(cache.disk)| && bn < |old(cache.view)|
      ensures cache.disk == old(cache.disk)[bn := data] && cache.view == old(cache.view)[bn := data]
      ensures cache.history == old(cache.history) + [cache.disk]
      ensures cache.buf[i] == old(cache.buf[i]).(data := data, dirty := false)
      ensures forall j :: 0 <= j < cache.nbuf && j != i ==> cache.buf[j] == old(cache.buf[j])
    {
      cache.Store(i, pid, data);
      var done := cache.Bwrite(i, pid);
    }

    // copy one held buffer to another, write that out, and release both
    method Move(from: nat, to: nat, src: nat, dst: nat, pid: nat)
      requires Valid() && pid != 0 && from != to && Holds(from, src, pid) && Holds(to, dst, pid)
      requires HoldersWithin({from, to}) && src < g.nblocks && dst < g.nblocks
      modifies cache, cache.buf, cache.next, cache.prev
      ensures Valid() && HoldersWithin({})
      ensures cache.disk == old(cache.disk)[dst := old(cache.view)[src]]
      ensures cache.view == old(cache.view)[dst := old(cache.view)[src]]
      ensures cache.history == old(cache.history) + [cache.disk]
      ensures forall i :: 0 <= i < cache.nbuf ==> Moved(old(cache.buf[i]), cache.buf[i], i == to, i in {from, to})
    {
      WriteOut(to, dst, cache.buf[from].data, pid);
      Release(from, src, pid, {from, to});
      Release(to, dst, pid, {to});
    }

    /**
     The body shared by the loops of write_log and install_trans: read the log block, read the
     home block, copy one way, write the destination, release the source and the destination.
     False is the panic of bread.
     */
    method CopyBlock(inLog: nat, home: nat, toLog: bool, pid: nat) returns (ok: bool)
      requires Valid() && HoldersWithin({}) && pid != 0
      requires inLog != home && inLog < g.nblocks && home < g.nblocks
      modifies cache, cache.buf, cache.next, cache.prev
      ensures Valid()
      ensures !ok ==> cache.disk == old(cache.disk) && cache.history == old(cache.history)
      ensures ok ==>
                var dst, data := if toLog then inLog else home, old(cache.view)[if toLog then home else inLog];
                && HoldersWithin({})
                && cache.disk == old(cache.disk)[dst := data]
                && cache.view == old(cache.view)[dst := data]
                && cache.history == old(cache.history) + [cache.disk]
                && inLog in BlockNos(cache.buf[..]) && Rewrote(old(cache.buf[..]), cache.buf[..], dst)
      ensures old(PairObtainable(cache.buf[..], home)) ==> ok
    {
      ghost var bs := cache.buf[..];
      var a, b;
      ok, a, b := ReadPair(inLog, home, pid);
      if !ok { return; }
      ghost var bs1 := cache.buf[..];
      if toLog {
        Move(b, a, home, inLog, pid);
      } else {
        Move(a, b, inLog, home, pid);
      }
      assert cache.buf[..][a].blockno == inLog;
      PairRewrote(bs, bs1, cache.buf[..], cache.disk, cache.view, a, b, if toLog then a else b);
    }

    // a round of write_log, as a step of the machine: there was a buffer for the log block
    method CopyRound(tail: nat, pid: nat, ghost s: State) returns (ok: bool)
      requires Represents(s) && HoldersWithin({}) && LaidOut(g, s, tail) && AllDirty(cache.buf[..], s.lh) && pid != 0
      modifies cache, cache.buf, cache.next, cache.prev
      ensures !ok ==> cache.history == old(cache.history)
      ensures ok ==> HoldersWithin({}) && cache.history == old(cache.history) + [Copied(g, s, tail).disk]
      ensures ok ==> Represents(Copied(g, s, tail)) && AllDirty(cache.buf[..], s.lh) && |s.lh| < g.nbuf
      ensures old(Stock(s.lh)) ==> (|s.lh| < g.nbuf ==> ok) && (ok ==> Stock(s.lh))
    {
      ghost var bs := cache.buf[..];
      assert block[tail] == Lh()[tail] == s.lh[tail];
      CopyWrites(g, s, tail);
      PairLeft(bs, s.lh, tail, cache.disk, cache.view);
      ok := CopyBlock(g.start + 1 + tail, block[tail], true, pid);
      if ok {
        BufferLeft(g, s.lh, bs, cache.buf[..], g.start + 1 + tail);
      }
    }

    // and one of install_trans
    method InstallRound(tail: nat, pid: nat, ghost s: State) returns (ok: bool)
      requires Represents(s) && HoldersWithin({}) && LaidOut(g, s, tail) && pid != 0
      modifies cache, cache.buf, cache.next, cache.prev
      ensures !ok ==> cache.history == old(cache.history)
      ensures ok ==> HoldersWithin({}) && cache.history == old(cache.history) + [Installed(g, s, tail).disk]
      ensures ok ==> Represents(Installed(g, s, tail))
      ensures old(Able(cache.buf[..], s.lh, tail)) ==> ok && Able(cache.buf[..], s.lh, tail + 1)
    {
      ghost var bs := cache.buf[..];
      assert block[tail] == Lh()[tail] == s.lh[tail];
      InstallWrites(g, s, tail);
      AblePair(bs, s.lh, tail, cache.disk, cache.view);
      ok := CopyBlock(g.start + 1 + tail, block[tail], false, pid);
      if ok { AbleNext(bs, cache.buf[..], s.lh, tail); }
    }

    method CopyOne(tail: nat, pid: nat, ghost s: State, ghost trail: seq<State>, ghost hist: seq<Disk>)
      returns (ok: bool, ghost trail': seq<State>)
      requires Progress(s, trail, tail, true, hist) && pid != 0 && tail < n
      modifies cache, cache.buf, cache.next, cache.prev
      ensures ok ==> Progress(s, trail', tail + 1, true, hist)
      ensures old(Stock(s.lh)) ==> (|s.lh| < g.nbuf ==> ok) && (ok ==> Stock(s.lh))
      ensures !ok ==> Trail(g, trail') && trail'[0] == s && cache.history == hist + Disks(trail')
    {
      CopiedOn(g, s, trail, tail);
      ok := CopyRound(tail, pid, trail[|trail| - 1]);
      trail' := if ok then trail + [Copied(g, trail[|trail| - 1], tail)] else trail;
    }

    method InstallOne(tail: nat, pid: nat, ghost s: State, ghost trail: seq<State>, ghost hist: seq<Disk>)
      returns (ok: bool, ghost trail': seq<State>)
      requires Progress(s, trail, tail, false, hist) && pid != 0 && tail < n
      modifies cache, cache.buf, cache.next, cache.prev
      ensures ok ==> Progress(s, trail', tail + 1, false, hist)
      ensures old(Able(cache.buf[..], s.lh, tail)) ==> ok && Able(cache.buf[..], s.lh, tail + 1)
      ensures !ok ==> Trail(g, trail') && trail'[0] == s && cache.history == hist + Disks(trail')
    {
      trail' := trail;
      InstalledOn(g, s, trail, tail);
      ok := InstallRound(tail, pid, trail[|trail| - 1]);
      if ok {
        trail' := trail + [Installed(g, trail[|trail| - 1], tail)];
      }
    }

    /** write_log: every logged block from the cache to its place in the log. */
    method WriteLog(pid: nat, ghost s: State, ghost hist: seq<Disk>) returns (ok: bool, ghost trail: seq<State>)
      requires Progress(s, [s], 0, true, hist) && pid != 0
      modifies cache, cache.buf, cache.next, cache.prev
      ensures ok ==> Progress(s, trail, |s.lh|, true, hist)
      ensures old(Stock(s.lh)) ==> (|s.lh| < g.nbuf ==> ok) && (ok ==> Stock(s.lh))
      ensures !ok ==> Trail(g, trail) && trail[0] == s && cache.history == hist + Disks(trail)
    {
      trail := [s];
      var tail := 0;
      while tail < n
        invariant 0 <= tail <= n && Progress(s, trail, tail, true, hist)
        invariant old(Stock(s.lh)) ==> Stock(s.lh)
      {
        ok, trail := CopyOne(tail, pid, s, trail, hist);
        if !ok { return; }
        tail := tail + 1;
      }
      ok := true;
    }

    /** install_trans: every block of the log from the log to its home location. */
    method InstallTrans(pid: nat, ghost s: State, ghost start: seq<State>, ghost hist: seq<Disk>)
      returns (ok: bool, ghost trail: seq<State>)
      requires Progress(s, start, 0, false, hist) && pid != 0
      modifies cache, cache.buf, cache.next, cache.prev
      ensures ok ==> Progress(s, trail, |s.lh|, false, hist)
      ensures old(Able(cache.buf[..], s.lh, 0)) ==> ok && Able(cache.buf[..], s.lh, |s.lh|)
      ensures !ok ==> Trail(g, trail) && trail[0] == s && cache.history == hist + Disks(trail)
    {
      trail := start;
      var tail := 0;
      while tail < n
        invariant 0 <= tail <= n && Progress(s, trail, tail, false, hist)
        invariant old(Able(cache.buf[..], s.lh, 0)) ==> Able(cache.buf[..], s.lh, tail)
      {
        ok, trail := InstallOne(tail, pid, s, trail, hist);
        if !ok { return; }
        tail := tail + 1;
      }
      ok := true;
    }

    // the count and the entries of the in-memory header, over the old contents of the block
    method FillHeader(data: Block) returns (hb: Block)
      requires block.Length == LOGSIZE && n <= LOGSIZE && Loggable(Lh())
      ensures hb == WithHeader(data, Lh())
    {
      hb := SetWord(data, 0, n);
      ghost var b0 := hb;
      var i := 0;
      while i < n
        invariant 0 <= i <= n && hb == SetEntries(b0, Lh(), i)
      {
        SetNext(b0, Lh(), i);
        hb := SetWord(hb, i + 1, block[i]);
        i := i + 1;
      }
    }

    /** write_head: the in-memory header into the header block, and that to disk. */
    method WriteHead(pid: nat) returns (ok: bool)
      requires Valid() && HoldersWithin({}) && pid != 0 && Loggable(Lh())
      modifies cache, cache.buf, cache.next, cache.prev
      ensures Valid()
      ensures !ok ==> cache.history == old(cache.history)
      ensures ok ==>
                var hb := WithHeader(old(cache.view)[g.start], Lh());
                && HoldersWithin({})
                && cache.disk == old(cache.disk)[g.start := hb]
                && cache.view == old(cache.view)[g.start := hb]
                && cache.history == old(cache.history) + [cache.disk]
                && Rewrote(old(cache.buf[..]), cache.buf[..], g.start)
      ensures old(HasSpare(cache.buf[..])) ==> ok
    {
      ghost var bs := cache.buf[..];
      var r := Obtain(g.start, pid);
      if r.None? { return false; }
      var hb := FillHeader(cache.buf[r.value].data);
      WriteOut(r.value, g.start, hb, pid);
      Release(r.value, g.start, pid, {r.value});
      OneRewrote(bs, cache.buf[..], cache.disk, cache.view, r.value);
      return true;
    }

    // the inverse of FillHeader
    method TakeHeader(hb: Block)
      requires block.Length == LOGSIZE && HeaderOk(hb)
      modifies this`n, block
      ensures n <= LOGSIZE && Lh() == HeaderOf(hb)
    {
      n := GetWord(hb, 0);
      var i := 0;
      while i < n
        invariant 0 <= i <= n && n == GetWord(hb, 0)
        invariant forall k :: 0 <= k < i ==> block[k] == GetWord(hb, 1 + k)
        modifies block
      {
        block[i] := GetWord(hb, 1 + i);
        i := i + 1;
      }
    }

    /** read_head: the header block on disk into the in-memory header. */
    method ReadHead(pid: nat) returns (ok: bool)
      requires Valid() && HoldersWithin({}) && pid != 0 && HeaderOk(cache.view[g.start])
      modifies this`n, block, cache`order, cache`released, cache`clock, cache.buf, cache.next, cache.prev
      ensures Valid()
      ensures ok ==> HoldersWithin({}) && Lh() == HeaderOf(cache.view[g.start])
      ensures old(HasSpare(cache.buf[..])) ==> ok
      ensures ok && old(Stock([])) ==> Stock([])
    {
      var r := Obtain(g.start, pid);
      if r.None? { return false; }
      TakeHeader(cache.buf[r.value].data);
      Release(r.value, g.start, pid, {r.value});
      return true;
    }

    // the first write_head of commit, as the commit point of the log machine
    method HeadRound(pid: nat, ghost s: State) returns (ok: bool)
      requires Represents(s) && HoldersWithin({}) && Shape(g, s) && Loggable(s.lh) && pid != 0
      requires AllDirty(cache.buf[..], s.lh) && g.start !in s.lh
      modifies cache, cache.buf, cache.next, cache.prev
      ensures !ok ==> cache.history == old(cache.history)
      ensures ok ==> HoldersWithin({})
      ensures ok ==> cache.history == old(cache.history) + [Headed(g, s, WithHeader(s.view[g.start], s.lh)).disk]
      ensures ok ==> Represents(Headed(g, s, WithHeader(s.view[g.start], s.lh)))
      ensures old(Stock(s.lh)) && |s.lh| < g.nbuf ==> ok && Able(cache.buf[..], s.lh, 0)
    {
      ghost var bs := cache.buf[..];
      SpareLeft(bs, s.lh, cache.disk, cache.view);
      ok := WriteHead(pid);
      if ok { AbleToInstall(bs, cache.buf[..], s.lh, g.start); }
    }

    method WriteHeadStep(pid: nat, ghost s: State, ghost trail: seq<State>, ghost hist: seq<Disk>)
      returns (ok: bool, ghost trail': seq<State>)
      requires Progress(s, trail, |s.lh|, true, hist) && s.lh != [] && pid != 0
      modifies cache, cache.buf, cache.next, cache.prev
      ensures ok ==> Progress(s, trail', 0, false, hist)
      ensures old(Stock(s.lh)) && |s.lh| < g.nbuf ==> ok && Able(cache.buf[..], s.lh, 0)
      ensures !ok ==> Trail(g, trail') && trail'[0] == s && cache.history == hist + Disks(trail')
    {
      ghost var p := trail[|trail| - 1];
      HeadReady(g, p);
      ghost var hb := WithHeader(p.view[g.start], p.lh);
      HeadedOn(g, s, trail, hb);
      ok := HeadRound(pid, p);
      trail' := if ok then trail + [Headed(g, p, hb)] else trail;
    }

    /** A commit or a recovery is complete: the log is empty in memory and on disk. */
    ghost predicate Completed(s: State, trail: seq<State>, hist: seq<Disk>)
      reads this, block, cache, cache.buf, cache.next, cache.prev
    {
      && Trail(g, trail) && trail[0] == s && cache.history == hist + Disks(trail)
      && Represents(trail[|trail| - 1]) && HoldersWithin({}) && MayFinish(g, trail[|trail| - 1])
      && trail[|trail| - 1].phase == (if Busy(s) then Finishing else s.phase)
    }

    // log.lh.n = 0; write_head()
    method ClearLog(pid: nat, ghost s: State, ghost trail: seq<State>, ghost hist: seq<Disk>)
      returns (ok: bool, ghost trail': seq<State>)
      requires Progress(s, trail, |s.lh|, false, hist) && pid != 0 && Busy(s)
      modifies this`n, cache, cache.buf, cache.next, cache.prev
      ensures ok ==> Completed(s, trail', hist)
      ensures old(Able(cache.buf[..], s.lh, |s.lh|)) ==> ok && Stock([])
      ensures !ok ==> Trail(g, trail') && trail'[0] == s && cache.history == hist + Disks(trail')
    {
      ghost var bs := cache.buf[..];
      trail' := trail;
      ghost var p := trail[|trail| - 1];
      n := 0;
      AblePair(bs, s.lh, |s.lh|, cache.disk, cache.view);
      ok := WriteHead(pid);
      if ok {
        AbleToClear(bs, cache.buf[..], s.lh, g.start);
        ghost var hb := WithHeader(p.view[g.start], []);
        ExtendCleared(g, trail, hb);
        trail' := trail + [Cleared(g, p, hb)];
      }
    }

    /**
     commit: the disk goes through the disks of a trail of the log machine, to the end of it
     unless a panic cuts it.  CommitCrash says what a crash after any of those writes leaves.
     */
    method Commit(pid: nat, ghost s: State, ghost hist: seq<Disk>) returns (ok: bool, ghost trail: seq<State>)
      requires Progress(s, [s], 0, true, hist) && pid != 0
      modifies this`n, cache, cache.buf, cache.next, cache.prev
      ensures Trail(g, trail) && trail[0] == s && cache.history == hist + Disks(trail)
      ensures ok ==> Completed(s, trail, hist)
      ensures s.lh == [] ==> ok && trail == [s]
      ensures ok && s.lh != [] ==> |s.lh| < g.nbuf
      ensures old(Stock(s.lh)) ==> (|s.lh| < g.nbuf ==> ok) && (ok ==> Stock([]))
    {
      if n == 0 {
        return true, [s];
      }
      ok, trail := WriteLog(pid, s, hist);
      if !ok { return; }
      ok, trail := WriteHeadStep(pid, s, trail, hist);
      if !ok { return; }
      ok, trail := InstallTrans(pid, s, trail, hist);
      if !ok { return; }
      ok, trail := ClearLog(pid, s, trail, hist);
    }

    /** recover_from_log: the same for recovery; RecoverCrash and RecoveryCompletes apply. */
    method RecoverFromLog(pid: nat, ghost s: State) returns (ok: bool, ghost trail: seq<State>)
      requires Valid() && HoldersWithin({}) && pid != 0
      requires Boot(g, s) && cache.disk == cache.view == s.disk
      requires HeaderOk(s.disk[g.start]) && HeaderOf(s.disk[g.start]) == s.head
      modifies this`n, block, cache, cache.buf, cache.next, cache.prev
      ensures Trail(g, trail) && trail[0] == s && cache.history == old(cache.history) + Disks(trail)
      ensures ok ==> Completed(s, trail, old(cache.history))
      ensures old(Stock([])) && g.nbuf >= 2 ==> ok && Stock([])
    {
      ghost var hist := cache.history;
      trail := [s];
      assert Disks(trail) == [];
      AbleAtBoot(cache.buf[..], s.lh);
      ok := ReadHead(pid);
      if !ok { return; }
      AbleAtBoot(cache.buf[..], s.lh);
      ok, trail := InstallTrans(pid, s, trail, hist);
      if !ok { return; }
      ok, trail := ClearLog(pid, s, trail, hist);
    }

    // ---------------------------------------------------------------- the entry points

    /**
     The object between two calls, in machine state s.  Every call below is a step of the
     machine to another such state, so SmallCacheStep carries the log invariant along.
     */
    ghost predicate Live(s: State)
      reads this, block, cache, cache.buf, cache.next, cache.prev
    {
      && Represents(s) && Ready(g, s, who, cache.buf[..])
      && |s.ops| == outstanding && (committing <==> !s.phase.Idle?)
    }

    // process pid runs operation p
    ghost predicate Runs(p: nat, pid: nat)
      reads this
    {
      p < |who| && who[p] == pid
    }

    /** One round of begin_op's loop: enter if the log has room for this operation, else sleep. */
    method BeginOp(pid: nat, ghost s: State) returns (entered: bool, ghost s': State)
      requires Live(s) && pid != 0 && pid !in who
      modifies this`outstanding, this`who
      ensures entered <==> MayBegin(s)
      ensures entered ==> Next(g, s, LogMachine.BeginOp, s') && Runs(|s.ops|, pid)
      ensures !entered ==> s' == s
      ensures Live(s')
    {
      if committing || n + (outstanding + 1) * MAXOPBLOCKS > LOGSIZE {
        return false, s;
      }
      s' := BeginStep(g, s, who, cache.buf[..], pid);
      outstanding, who := outstanding + 1, who + [pid];
      return true, s';
    }

    /** bread by a process of its own or inside an operation: no change of the log's state. */
    method Read(bn: nat, pid: nat, ghost s: State) returns (r: Option<nat>)
      requires Live(s) && pid != 0
      requires forall i :: 0 <= i < cache.nbuf && BufferOf(cache.buf[i], bn) ==> cache.buf[i].holder == 0
      modifies cache.buf
      ensures r.Some? <==> bn < g.nblocks && old(Obtainable(cache.buf[..], bn))
      ensures r.Some? ==> Live(s) && Holds(r.value, bn, pid)
      ensures r.Some? ==> ReadInto(old(cache.buf[..]), cache.buf[..], r.value)
      ensures r.Some? && old(HoldersWithin({})) ==> HoldersWithin({r.value})
    {
      ghost var bs := cache.buf[..];
      assert forall i :: 0 <= i < |bs| ==> Bio.BufOk(bs[i], cache.disk, cache.view);
      r := Obtain(bn, pid);
      if r.Some? {
        PinsKept(s, who, bs, cache.buf[..]);
      }
    }

    /** A store into the buffer one holds, inside an operation: the machine's Modify. */
    method Change(b: nat, data: Block, pid: nat, ghost s: State, ghost p: nat) returns (ghost s': State)
      requires Live(s) && s.phase.Idle? && Runs(p, pid) && s.ops[p].passed.None?
      requires b < cache.nbuf && cache.buf[b].holder == pid && cache.buf[b].valid && !g.InLog(cache.buf[b].blockno)
      modifies cache.buf, cache`view
      ensures Next(g, s, Modify(p, old(cache.buf[b].blockno), data), s') && Live(s')
      ensures cache.buf[..] == old(cache.buf[..])[b := old(cache.buf[b]).(data := data)]
      ensures old(HoldersWithin({b})) ==> HoldersWithin({b})
    {
      s' := ChangeStep(g, s, who, cache.buf[..], p, b, data);
      cache.Store(b, pid, data);
    }

    /** The test at the beginning of log_write, without the lock; false is one of the two panics. */
    method TestRoom(b: nat, pid: nat, ghost s: State, ghost p: nat) returns (ok: bool, ghost s': State)
      requires Live(s) && s.phase.Idle? && b < cache.nbuf
      requires outstanding > 0 ==> Runs(p, pid) && s.ops[p].passed.None? && cache.buf[b].blockno in s.ops[p].pending
      ensures ok <==> GuardPasses(g, s) && s.ops != []
      ensures !ok ==> s' == s
      ensures ok ==> Next(g, s, Test(p, cache.buf[b].blockno), s')
      ensures Live(s')
    {
      if n >= LOGSIZE || n >= g.size - 1 || outstanding < 1 {
        return false, s;
      }
      s' := TestStep(g, s, who, cache.buf[..], p, cache.buf[b].blockno);
      return true, s';
    }

    // the entry of the block in the header, or n
    method FindEntry(bn: nat) returns (i: nat)
      requires n <= block.Length
      ensures i <= n && (i < n ==> block[i] == bn) && (i == n ==> bn !in Lh())
    {
      i := 0;
      while i < n && block[i] != bn
        invariant 0 <= i <= n && forall k :: 0 <= k < i ==> block[k] != bn
      {
        i := i + 1;
      }
    }

    // the search and the store in the header
    method Enter(bn: nat)
      requires Valid() && (bn in Lh() || n < block.Length)
      modifies this`n, block
      ensures Valid() && Lh() == if bn in old(Lh()) then old(Lh()) else old(Lh()) + [bn]
    {
      ghost var lh := Lh();
      var i := FindEntry(bn);
      block[i] := bn;
      if i == n {
        n := n + 1;
      } else {
        assert lh[i] == bn;
      }
    }

    /** The rest of log_write, under the lock: record the block once and pin its buffer. */
    method Record(b: nat, pid: nat, ghost s: State, ghost p: nat) returns (ghost s': State)
      requires Live(s) && s.phase.Idle? && Runs(p, pid)
      requires b < cache.nbuf && cache.buf[b].holder == pid && cache.buf[b].valid
      requires s.ops[p].passed == Some(cache.buf[b].blockno)
      modifies this`n, block, cache.buf
      ensures Next(g, s, LogMachine.Record(p, old(cache.buf[b].blockno)), s') && Live(s')
      ensures cache.buf[..] == old(cache.buf[..])[b := old(cache.buf[b]).(dirty := true)]
    {
      assert who[p] in who && Bio.BufOk(cache.buf[..][b], cache.disk, cache.view);
      s' := RecordStep(g, s, who, cache.buf[..], p, b);
      Enter(cache.buf[b].blockno);
      cache.Pin(b, pid);
    }

    /** log_write without interruption: both parts in a row. */
    method LogWrite(b: nat, pid: nat, ghost s: State, ghost p: nat)
      returns (ok: bool, ghost mid: State, ghost s': State)
      requires Live(s) && s.phase.Idle? && b < cache.nbuf
      requires cache.buf[b].holder == pid && cache.buf[b].valid
      requires outstanding > 0 ==> Runs(p, pid) && s.ops[p].passed.None? && cache.buf[b].blockno in s.ops[p].pending
      modifies this`n, block, cache.buf
      ensures ok <==> GuardPasses(g, s) && s.ops != []
      ensures !ok ==> s' == s
      ensures ok ==> Next(g, s, Test(p, old(cache.buf[b].blockno)), mid)
      ensures ok ==> Next(g, mid, LogMachine.Record(p, old(cache.buf[b].blockno)), s')
      ensures ok ==> cache.buf[..] == old(cache.buf[..])[b := old(cache.buf[b]).(dirty := true)]
      ensures old(HoldersWithin({b})) ==> HoldersWithin({b})
      ensures Live(s')
    {
      ok, mid := TestRoom(b, pid, s, p);
      s' := s;
      if ok {
        s' := Record(b, pid, mid, p);
      }
    }

    /**
     brelse of a buffer whose block is not waiting to be logged: no change of the log's state.
     Pins.MayDrop says that the log invariant implies the last precondition.
     */
    method Drop(b: nat, pid: nat, ghost s: State)
      requires Live(s) && b < cache.nbuf && pid != 0 && cache.buf[b].holder == pid && cache.buf[b].valid
      requires forall p :: 0 <= p < |s.ops| && who[p] == pid ==> cache.buf[b].blockno !in s.ops[p].pending
      requires cache.buf[b].blockno < g.nblocks ==>
                 cache.buf[b].dirty || cache.buf[b].data == cache.disk[cache.buf[b].blockno]
      modifies cache`order, cache`released, cache`clock, cache.buf, cache.next, cache.prev
      ensures Live(s)
      ensures old(cache.buf[b].refcnt) > 0 && cache.buf[..] == Dropped(old(cache.buf[..]), b)
      ensures old(HoldersWithin({b})) ==> HoldersWithin({})
    {
      ghost var bs := cache.buf[..];
      assert Bio.BufOk(bs[b], cache.disk, cache.view);
      forall q: nat | q < |s.ops| ensures bs[b].blockno !in s.ops[q].pending {
        if who[q] != pid { NotPending(s, who, bs, s.disk, s.view, b, q); }
      }
      var done := cache.Brelse(b, pid);
      PinsDrop(s, who, bs, cache.buf[..], b);
    }

    // the locked part of end_op
    method Leave(pid: nat, ghost s: State, ghost p: nat) returns (ghost left: State)
      requires Live(s) && s.phase.Idle? && Runs(p, pid) && s.ops[p].pending == {}
      modifies this`outstanding, this`who
      ensures Next(g, s, LogMachine.EndOp(p), left)
      ensures Represents(left) && Ready(g, left, who, cache.buf[..])
      ensures outstanding == old(outstanding) - 1 && |left.ops| == outstanding
      ensures left.phase == if outstanding == 0 then Copying(0) else Idle
    {
      left := EndStep(g, s, who, cache.buf[..], p);
      outstanding, who := outstanding - 1, who[..p] + who[p + 1..];
    }

    /** The last operation left in state left, and its commit went along trail, to s' if it is ok. */
    ghost predicate Committed(ok: bool, left: State, trail: seq<State>, s': State, hist: seq<Disk>)
      reads cache, cache.buf
    {
      && Trail(g, trail) && trail[0] == left && cache.history == hist + Disks(trail)
      && (ok ==> Next(g, trail[|trail| - 1], Finish, s') && s'.lh == [] && HoldersWithin({}))
    }

    // commit, as end_op calls it
    method CommitFrom(pid: nat, ghost left: State, ghost hist: seq<Disk>) returns (ok: bool, ghost trail: seq<State>)
      requires Represents(left) && Inv(g, left) && left.phase == Copying(0) && AllDirty(cache.buf[..], left.lh)
      requires HoldersWithin({}) && pid != 0 && cache.history == hist
      modifies this`n, cache, cache.buf, cache.next, cache.prev
      ensures Trail(g, trail) && trail[0] == left && cache.history == hist + Disks(trail)
      ensures ok ==> Completed(left, trail, hist)
      ensures (ok && left.lh != [] ==> |left.lh| < g.nbuf) && (left.lh == [] ==> ok)
      ensures old(Stock(left.lh)) ==> (|left.lh| < g.nbuf ==> ok) && (ok ==> Stock([]))
    {
      TrailStarts(g, left);
      ok, trail := Commit(pid, left, hist);
    }

    // the last one out commits, and the log is idle again
    method CommitLast(pid: nat, ghost left: State, ghost hist: seq<Disk>)
      returns (ok: bool, ghost trail: seq<State>, ghost s': State)
      requires Represents(left) && Ready(g, left, who, cache.buf[..]) && Inv(g, left) && left.phase == Copying(0)
      requires HoldersWithin({}) && pid != 0 && outstanding == 0 && |left.ops| == 0 && cache.history == hist
      modifies this`n, this`committing, cache, cache.buf, cache.next, cache.prev
      ensures Committed(ok, left, trail, s', hist) && (ok ==> Live(s'))
      ensures (ok && left.lh != [] ==> |left.lh| < g.nbuf) && (left.lh == [] ==> ok)
      ensures old(Stock(left.lh)) ==> (|left.lh| < g.nbuf ==> ok) && (ok ==> Stock([]))
    {
      committing := true;
      ok, trail := CommitFrom(pid, left, hist);
      s' := left;
      if ok {
        committing := false;
        s' := FinishStep(g, trail[|trail| - 1], cache.buf[..]);
      }
    }

    /**
     end_op: leave; the last operation out commits.  The result is the machine state after
     leaving and, for the committer, the trail of its commit and the idle state after it.
     */
    method EndOp(pid: nat, ghost s: State, ghost p: nat)
      returns (ok: bool, ghost left: State, ghost trail: seq<State>, ghost s': State)
      requires Live(s) && Inv(g, s) && s.phase.Idle? && Runs(p, pid) && s.ops[p].pending == {} && pid != 0
      requires outstanding == 1 ==> HoldersWithin({})
      modifies this`n, this`outstanding, this`committing, this`who, cache, cache.buf, cache.next, cache.prev
      ensures Next(g, s, LogMachine.EndOp(p), left)
      ensures old(outstanding) > 1 ==> ok && s' == left
      ensures old(outstanding) == 1 ==> Committed(ok, left, trail, s', old(cache.history))
      ensures ok ==> Live(s')
      ensures old(outstanding) == 1 ==> (ok && s.lh != [] ==> |s.lh| < g.nbuf) && (s.lh == [] ==> ok)
      ensures old(outstanding) == 1 && old(Stock(s.lh)) ==> (|s.lh| < g.nbuf ==> ok) && (ok ==> Stock([]))
    {
      left := Leave(pid, s, p);
      if outstanding > 0 {
        return true, left, [left], left;
      }
      SmallCacheStep(g, s, LogMachine.EndOp(p), left);
      ok, trail, s' := CommitLast(pid, left, cache.history);
    }

    // ---------------------------------------------------------------- a whole operation

    /** The log is idle and empty, and nobody holds a buffer. */
    ghost predicate Calm(s: State)
      reads this, block, cache, cache.buf, cache.next, cache.prev
    {
      Live(s) && Inv(g, s) && Quiescent(s) && s.phase.Idle? && HoldersWithin({})
    }

    /** initlog: after recovery the log is idle over the blocks that recovery restores. */
    method Init(pid: nat, ghost s: State, ghost img: Disk) returns (ok: bool, ghost trail: seq<State>, ghost s': State)
      requires Valid() && HoldersWithin({}) && pid != 0 && outstanding == 0 && !committing && who == []
      requires Boot(g, s) && cache.disk == cache.view == s.disk && Restores(g, s.head, s.disk, img)
      requires HeaderOk(s.disk[g.start]) && HeaderOf(s.disk[g.start]) == s.head
      modifies this`n, block, cache, cache.buf, cache.next, cache.prev
      ensures Trail(g, trail) && trail[0] == s && cache.history == old(cache.history) + Disks(trail)
      ensures ok ==> Calm(s') && SameHome(g, s'.disk, img) && SameHome(g, s'.view, img)
      ensures old(Stock([])) && g.nbuf >= 2 ==> ok && Stock([])
    {
      s' := s;
      ok, trail := RecoverFromLog(pid, s);
      if ok {
        Recovered(g, trail, img);
        s' := FinishStep(g, trail[|trail| - 1], cache.buf[..]);
      }
    }

    // process pid alone is between begin_op and end_op, in machine state s, with nothing held
    ghost predicate Alone(pid: nat, s: State)
      reads this, block, cache, cache.buf, cache.next, cache.prev
    {
      Live(s) && who == [pid] && HoldersWithin({}) && CalmOp(s)
    }

    // process pid holds buffer i of block bn, and that is the only buffer held
    ghost predicate OnlyHolds(i: nat, bn: nat, pid: nat)
      reads cache, cache.buf
    {
      i < cache.buf.Length && HoldersWithin({i}) && cache.buf[i].holder == pid && cache.buf[i].valid
      && cache.buf[i].blockno == bn
    }

    // bread and the store
    method ReadAndChange(bn: nat, data: Block, pid: nat, ghost s: State) returns (r: Option<nat>, ghost a: State)
      requires Alone(pid, s) && pid != 0 && g.Home(bn)
      modifies cache`view, cache.buf
      ensures r.Some? ==> Live(a) && OnlyHolds(r.value, bn, pid) && Next(g, s, Modify(0, bn, data), a)
      ensures old(Stock(s.lh)) && (|s.lh| < g.nbuf || bn in s.lh) ==> r.Some?
      ensures r.Some? ==> ReadInto(old(cache.buf[..]), cache.buf[..], r.value)
    {
      a := s;
      ghost var bs := cache.buf[..];
      MayObtain(g, s, who, cache.buf[..], bn);
      r := Read(bn, pid, s);
      if r.Some? {
        ReadChanged(bs, cache.buf[..], r.value, data);
        a := Change(r.value, data, pid, s, 0);
      }
    }

    // log_write and brelse
    method LogAndDrop(i: nat, bn: nat, pid: nat, ghost a: State) returns (ok: bool, ghost b: State, ghost s': State)
      requires Live(a) && a.phase.Idle? && who == [pid] && a.ops[0].pending == {bn} && a.ops[0].passed.None?
      requires pid != 0 && OnlyHolds(i, bn, pid)
      modifies this`n, block, cache`order, cache`released, cache`clock, cache.buf, cache.next, cache.prev
      ensures ok ==> Live(s') && HoldersWithin({}) && Next(g, a, Test(0, bn), b)
                     && Next(g, b, LogMachine.Record(0, bn), s')
      ensures ok <==> GuardPasses(g, a)
      ensures ok ==> LetGo(old(cache.buf[..]), cache.buf[..], i)
    {
      ghost var bs := cache.buf[..];
      ok, b, s' := LogWrite(i, pid, a, 0);
      if ok {
        ghost var bs1 := cache.buf[..];
        assert s'.ops[0].pending == {};
        Drop(i, pid, s');
        LoggedAndDropped(bs, bs1, i);
      }
    }

    // both
    method UpdateSteps(bn: nat, data: Block, pid: nat, ghost s: State)
      returns (ok: bool, ghost a: State, ghost b: State, ghost s': State)
      requires Alone(pid, s) && pid != 0 && g.Home(bn)
      modifies this`n, block, cache`view, cache`order, cache`released, cache`clock, cache.buf, cache.next, cache.prev
      ensures ok ==> Live(s') && HoldersWithin({}) && UpdatesVia(g, s, a, b, bn, data, s')
      ensures old(Stock(s.lh)) && (|s.lh| < g.nbuf || bn in s.lh) && GuardPasses(g, s) ==> ok
      ensures ok && old(Stock(s.lh)) ==> Stock(if bn in s.lh then s.lh else s.lh + [bn])
    {
      b, s' := s, s;
      ghost var bs := cache.buf[..];
      var r;
      r, a := ReadAndChange(bn, data, pid, s);
      if r.None? { return false, s, s, s; }
      UpdateBegun(g, s, bn, data, a);
      ghost var bs1 := cache.buf[..];
      assert bs1[r.value].blockno == bn;
      ok, b, s' := LogAndDrop(r.value, bn, pid, a);
      if ok {
        StockedLogged(bs, bs1, cache.buf[..], s.lh, r.value, bn);
      }
    }

    method UpdateBlock(bn: nat, data: Block, pid: nat, ghost s: State) returns (ok: bool, ghost s': State)
      requires Alone(pid, s) && pid != 0 && g.Home(bn)
      modifies this`n, block, cache`view, cache`order, cache`released, cache`clock, cache.buf, cache.next, cache.prev
      ensures ok ==> Alone(pid, s') && Updates(g, s, bn, data, s')
      ensures old(Stock(s.lh)) && (|s.lh| < g.nbuf || bn in s.lh) && GuardPasses(g, s) ==> ok
      ensures ok && old(Stock(s.lh)) ==> Stock(s'.lh)
    {
      ghost var a, b;
      ok, a, b, s' := UpdateSteps(bn, data, pid, s);
      if ok {
        UpdateDone(g, s, a, b, bn, data, s');
      }
    }

    // begin_op
    method Open(pid: nat, ghost s: State) returns (ghost t: State)
      requires Live(s) && Quiescent(s) && s.phase.Idle? && HoldersWithin({}) && pid != 0
      modifies this`outstanding, this`who
      ensures Alone(pid, t) && Next(g, s, LogMachine.BeginOp, t)
    {
      var entered;
      entered, t := BeginOp(pid, s);
    }

    // process pid has made the first stores of an operation, through the states
    ghost predicate Midway(pid: nat, s: State, bns: seq<nat>, data: seq<Block>, states: seq<State>)
      reads this, block, cache, cache.buf, cache.next, cache.prev
    {
      && UpdatesAll(g, s, bns, data, states) && Alone(pid, states[|states| - 1])
      && Holding(states[|states| - 1].lh, bns[..|states| - 1])
    }

    method StoreNext(bns: seq<nat>, data: seq<Block>, i: nat, pid: nat, ghost s: State, ghost states: seq<State>)
      returns (ok: bool, ghost states': seq<State>)
      requires Midway(pid, s, bns, data, states) && i < |bns| && |states| == i + 1 && pid != 0 && g.Home(bns[i])
      modifies this`n, block, cache`view, cache`order, cache`released, cache`clock, cache.buf, cache.next, cache.prev
      ensures ok ==> Midway(pid, s, bns, data, states') && |states'| == i + 2
      ensures old(Stock(states[i].lh)) && Feasible(g, bns) ==> ok
      ensures ok && old(Stock(states[i].lh)) ==> Stock(states'[i + 1].lh)
    {
      FeasibleAt(g, states[i], bns, i);
      ghost var t;
      ok, t := UpdateBlock(bns[i], data[i], pid, states[i]);
      states' := states + [t];
      if ok {
        HoldingNext(g, states[i], bns, i, data[i], t);
        UpdatesMore(g, s, bns, data, states, t);
      }
    }

    // begin_op, and the stores
    method StoreAll(bns: seq<nat>, data: seq<Block>, pid: nat, ghost s: State)
      returns (ok: bool, ghost states: seq<State>)
      requires Live(s) && Quiescent(s) && s.phase.Idle? && HoldersWithin({}) && pid != 0
      requires |bns| == |data| && forall i :: 0 <= i < |bns| ==> g.Home(bns[i])
      modifies this`n, this`outstanding, this`who, block, cache`view, cache`order, cache`released, cache`clock,
               cache.buf, cache.next, cache.prev
      ensures ok ==> UpdatesAll(g, s, bns, data, states) && |states| == |bns| + 1 && Alone(pid, states[|bns|])
      ensures old(Stock([])) && Feasible(g, bns) ==> ok
      ensures ok && old(Stock([])) ==> Stock(states[|bns|].lh)
    {
      ghost var t := Open(pid, s);
      OpenCalm(g, s, t);
      states := [t];
      var i := 0;
      assert Elements([]) == {};
      while i < |bns|
        invariant 0 <= i <= |bns| && |states| == i + 1 && Midway(pid, s, bns, data, states)
        invariant old(Stock([])) ==> Stock(states[i].lh)
      {
        ok, states := StoreNext(bns, data, i, pid, s, states);
        if !ok { return; }
        i := i + 1;
      }
      ok := true;
    }

    method Gather(bns: seq<nat>, data: seq<Block>, pid: nat, ghost s: State) returns (ok: bool, ghost t: State)
      requires Calm(s) && pid != 0
      requires |bns| == |data| && forall i :: 0 <= i < |bns| ==> g.Home(bns[i])
      modifies this`n, this`outstanding, this`who, block, cache`view, cache`order, cache`released, cache`clock,
               cache.buf, cache.next, cache.prev
      ensures ok ==> Alone(pid, t) && Gathered(g, s, bns, data, t)
      ensures old(Stock([])) && Feasible(g, bns) ==> ok
      ensures ok && old(Stock([])) ==> Stock(t.lh)
    {
      t := s;
      ghost var states;
      ok, states := StoreAll(bns, data, pid, s);
      if ok {
        AllGathered(g, s, bns, data, states);
        t := states[|bns|];
      }
    }

    // end_op of the only operation
    method Close(pid: nat, ghost s: State) returns (ok: bool, ghost trail: seq<State>, ghost t: State)
      requires Alone(pid, s) && Inv(g, s) && pid != 0
      modifies this`n, this`outstanding, this`committing, this`who, cache, cache.buf, cache.next, cache.prev
      ensures Trail(g, trail) && trail[0] == s.(ops := [], phase := Copying(0))
      ensures cache.history == old(cache.history) + Disks(trail)
      ensures ok ==> Next(g, trail[|trail| - 1], Finish, t) && t.lh == [] && Live(t) && HoldersWithin({})
      ensures (ok && s.lh != [] ==> |s.lh| < g.nbuf) && (s.lh == [] ==> ok)
      ensures old(Stock(s.lh)) ==> (|s.lh| < g.nbuf ==> ok) && (ok ==> Stock([]))
    {
      ghost var left;
      ok, left, trail, t := EndOp(pid, s, 0);
    }

    /**
     An operation that stores data[i] in block bns[i] for every i, from begin_op to end_op: a
     crash after any of its disk writes, however many recoveries follow (RecoveryIsIdempotent),
     leaves all of its stores or none.  If nobody else refers to a buffer it gets through exactly
     when its blocks fit the log and leave one.
     */
    method Operation(bns: seq<nat>, data: seq<Block>, pid: nat, ghost s: State)
      returns (ok: bool, ghost trail: seq<State>, ghost s': State)
      requires Calm(s) && pid != 0
      requires |bns| == |data| && forall i :: 0 <= i < |bns| ==> g.Home(bns[i])
      modifies this, block, cache, cache.buf, cache.next, cache.prev
      ensures Trail(g, trail) && cache.history == old(cache.history) + Disks(trail)
      ensures forall k :: 0 <= k < |trail| ==>
                Restores(g, trail[k].head, trail[k].disk,
                         if k <= |trail[0].lh| then s.view else AllStored(s.view, bns, data, |bns|))
      ensures ok ==> Calm(s') && SameHome(g, s'.disk, AllStored(s.view, bns, data, |bns|))
                     && SameHome(g, s'.view, s'.disk)
      ensures old(Stock([])) ==> (ok <==> Feasible(g, bns)) && (ok ==> Stock([]))
    {
      trail, s' := [s], s;
      assert Disks(trail) == [];
      QuiescentRestores(g, s);
      ghost var t;
      ok, t := Gather(bns, data, pid, s);
      if !ok { return; }
      ok, trail, s' := Close(pid, t);
      CutAnywhere(g, trail, s.view);
      if ok { Concluded(g, trail, s', s.view); }
    }
  }
}
