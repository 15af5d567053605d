/**
 Which buffers the log keeps in the cache: a logged block has a dirty buffer, a block that an
 operation has changed and not logged has a buffer that this operation's process holds.  So
 the pinned blocks of the log machine fit into the cache.
 */
module Pins {
  import opened Blocks
  import opened Wrappers
  import opened LogMachine
  import opened Bio

  ghost predicate BufferOf(x: Buf, bn: nat) {
    x.dev == ROOTDEV && x.blockno == bn
  }

  ghost predicate DirtyIn(bs: seq<Buf>, bn: nat) {
    exists i :: 0 <= i < |bs| && BufferOf(bs[i], bn) && bs[i].dirty
  }

  ghost predicate HeldIn(bs: seq<Buf>, bn: nat, pid: nat) {
    exists i :: 0 <= i < |bs| && BufferOf(bs[i], bn) && bs[i].holder == pid
  }

  /** The buffers that state s needs are there; who[p] is the process that runs operation p. */
  ghost predicate PinsOk(s: State, who: seq<nat>, bs: seq<Buf>) {
    && |who| == |s.ops| && Distinct(who) && 0 !in who
    && AllDirty(bs, s.lh)
    && (forall p, b :: 0 <= p < |s.ops| && b in s.ops[p].pending ==> HeldIn(bs, b, who[p]))
  }

  ghost function BlockNos(bs: seq<Buf>): (r: set<nat>)
    ensures forall i :: 0 <= i < |bs| ==> bs[i].blockno in r
    ensures |r| <= |bs|
  {
    if bs == [] then {} else BlockNos(bs[..|bs| - 1]) + {bs[|bs| - 1].blockno}
  }

  lemma DirtyFit(bs: seq<Buf>, lh: seq<nat>, extra: set<nat>)
    requires Distinct(lh) && AllDirty(bs, lh)
    requires extra <= BlockNos(bs) && forall b :: b in extra ==> b !in lh
    ensures |lh| + |extra| <= |bs|
  {
    DistinctSize(lh);
    assert Elements(lh) !! extra;
    SubsetSize(Elements(lh) + extra, BlockNos(bs));
  }

  /** The pinned blocks, and one block more that has a buffer, are no more than the buffers. */
  lemma PinsFit(s: State, who: seq<nat>, bs: seq<Buf>, i: nat)
    requires PinsOk(s, who, bs) && i < |bs|
    ensures |Pinned(s) + {bs[i].blockno}| <= |bs|
  {
    SubsetSize(Pinned(s) + {bs[i].blockno}, BlockNos(bs));
  }

  // a buffer before and after block dst has been written out, and another perhaps read: as many
  // references, clean if it shows dst, and dirty otherwise if it was
  ghost predicate RewroteAt(x: Buf, y: Buf, dst: nat) {
    && y.refcnt == x.refcnt
    && (x.dirty && x.blockno != dst ==> y.dirty && SameBlock(x, y))
    && (y.dirty ==> x.dirty && SameBlock(x, y) && y.blockno != dst)
  }

  ghost predicate Rewrote(bs: seq<Buf>, bs': seq<Buf>, dst: nat) {
    |bs| == |bs'| && forall i {:trigger bs'[i]} {:trigger bs[i]} :: 0 <= i < |bs| ==> RewroteAt(bs[i], bs'[i], dst)
  }

  ghost predicate AllDirty(bs: seq<Buf>, lh: seq<nat>) {
    forall b :: b in lh ==> DirtyIn(bs, b)
  }

  // writing block dst cleans no other block
  lemma DirtyStays(bs: seq<Buf>, bs': seq<Buf>, lh: seq<nat>, dst: nat)
    requires AllDirty(bs, lh) && dst !in lh && Rewrote(bs, bs', dst)
    ensures AllDirty(bs', lh)
  {
    forall b | b in lh ensures DirtyIn(bs', b) {
      var i :| 0 <= i < |bs| && BufferOf(bs[i], b) && bs[i].dirty;
      assert RewroteAt(bs[i], bs'[i], dst);
    }
  }

  // a buffer before and after two blocks have been read, into it if it is one of the two
  ghost predicate Reread(x: Buf, y: Buf, got: bool) {
    && y.refcnt == x.refcnt + (if got then 1 else 0)
    && (x.dirty ==> y.dirty && SameBlock(x, y)) && (y.dirty ==> x.dirty && SameBlock(x, y))
  }

  // and before and after it has been written out or only released
  ghost predicate Moved(x: Buf, y: Buf, written: bool, got: bool) {
    SameBlock(x, y) && y.refcnt + (if got then 1 else 0) == x.refcnt && y.dirty == (x.dirty && !written)
  }

  // both together: buffer to, of block dst, is written out
  lemma PairRewrote(bs: seq<Buf>, bs1: seq<Buf>, bs2: seq<Buf>, disk: Disk, view: Disk, a: nat, b: nat, to: nat)
    requires |bs| == |bs1| == |bs2| && to < |bs| && (to == a || to == b) && CacheOk(bs2, disk, view)
    requires bs2[to].dev == ROOTDEV
    requires forall i :: 0 <= i < |bs| ==> Reread(bs[i], bs1[i], i == a || i == b)
    requires forall i :: 0 <= i < |bs| ==> Moved(bs1[i], bs2[i], i == to, i == a || i == b)
    ensures Rewrote(bs, bs2, bs2[to].blockno)
  {
    forall i | 0 <= i < |bs| ensures RewroteAt(bs[i], bs2[i], bs2[to].blockno) {
      assert Reread(bs[i], bs1[i], i == a || i == b) && Moved(bs1[i], bs2[i], i == to, i == a || i == b);
      assert BufOk(bs2[i], disk, view);
      if i != to && bs2[i].dirty { assert !SameBlock(bs2[i], bs2[to]) && !SameBlock(bs2[to], bs2[i]); }
    }
  }

  // ---------------------------------------------------------------- whether there are buffers enough

  // a buffer that bget may recycle
  ghost predicate Spare(x: Buf) {
    x.refcnt == 0 && !x.dirty
  }

  ghost predicate HasSpare(bs: seq<Buf>) {
    exists i :: 0 <= i < |bs| && Spare(bs[i])
  }

  /** Nobody refers to a buffer but those in held, and only blocks of lh have dirty buffers. */
  ghost predicate Stocked(bs: seq<Buf>, lh: seq<nat>, held: set<nat>) {
    && (forall i :: 0 <= i < |bs| && i !in held ==> bs[i].refcnt == 0)
    && (forall i :: 0 <= i < |bs| && bs[i].dirty ==> bs[i].blockno in lh)
  }

  // the block has a buffer, or can get one
  ghost predicate Obtainable(bs: seq<Buf>, bn: nat) {
    HasSpare(bs) || exists i :: 0 <= i < |bs| && BufferOf(bs[i], bn)
  }

  // a log block and a home block can be read one after the other
  ghost predicate PairObtainable(bs: seq<Buf>, home: nat) {
    && HasSpare(bs)
    && (DirtyIn(bs, home) || exists i, j :: 0 <= i < j < |bs| && Spare(bs[i]) && Spare(bs[j]))
  }

  // after the log block has been read into buffer a, the home block can be
  lemma PairGoesOn(bs: seq<Buf>, bs': seq<Buf>, home: nat, a: nat)
    requires |bs| == |bs'| && a < |bs| && forall i :: 0 <= i < |bs| && i != a ==> bs'[i] == bs[i]
    requires bs[a].dirty ==> bs'[a].dirty && SameBlock(bs[a], bs'[a])
    ensures PairObtainable(bs, home) ==> Obtainable(bs', home)
  {
    if PairObtainable(bs, home) {
      if DirtyIn(bs, home) {
        var i :| 0 <= i < |bs| && BufferOf(bs[i], home) && bs[i].dirty;
        assert BufferOf(bs'[i], home);
      } else {
        var i, j :| 0 <= i < j < |bs| && Spare(bs[i]) && Spare(bs[j]);
        assert Spare(bs'[if i == a then j else i]);
      }
    }
  }

  /** With more buffers than logged blocks one is spare. */
  lemma SpareLeft(bs: seq<Buf>, lh: seq<nat>, disk: Disk, view: Disk)
    requires CacheOk(bs, disk, view)
    ensures Stocked(bs, lh, {}) && |lh| < |bs| ==> HasSpare(bs)
  {
    if Stocked(bs, lh, {}) && !HasSpare(bs) {
      var nos := seq(|bs|, i requires 0 <= i < |bs| => bs[i].blockno);
      forall i | 0 <= i < |bs| ensures bs[i].dirty && bs[i].dev == ROOTDEV && nos[i] in lh {
        assert !Spare(bs[i]) && BufOk(bs[i], disk, view);
      }
      forall i, j | 0 <= i < j < |bs| ensures nos[i] != nos[j] {
        assert !SameBlock(bs[i], bs[j]);
      }
      DistinctSize(nos);
      SubsetSize(Elements(nos), Elements(lh));
      ElementsAtMost(lh);
    }
  }

  // so a logged block and its log block can be read
  lemma PairLeft(bs: seq<Buf>, lh: seq<nat>, k: nat, disk: Disk, view: Disk)
    requires CacheOk(bs, disk, view) && AllDirty(bs, lh) && k < |lh|
    ensures Stocked(bs, lh, {}) && |lh| < |bs| ==> PairObtainable(bs, lh[k])
  {
    SpareLeft(bs, lh, disk, view);
    assert lh[k] in lh;
  }

  // a commit or a recovery that has installed k blocks has the buffers for the rest: they are
  // in the cache, or nothing is dirty and there are two
  ghost predicate Able(bs: seq<Buf>, lh: seq<nat>, k: nat) {
    && k <= |lh| && Stocked(bs, lh[k..], {})
    && ((|lh| < |bs| && AllDirty(bs, lh[k..])) || (2 <= |bs| && Stocked(bs, [], {})))
  }

  lemma AblePair(bs: seq<Buf>, lh: seq<nat>, k: nat, disk: Disk, view: Disk)
    requires CacheOk(bs, disk, view) && k <= |lh|
    ensures Able(bs, lh, k) ==> HasSpare(bs) && (k < |lh| ==> PairObtainable(bs, lh[k]))
  {
    if Able(bs, lh, k) && |lh| < |bs| && AllDirty(bs, lh[k..]) {
      SpareLeft(bs, lh[k..], disk, view);
      if k < |lh| { assert lh[k..][0] in lh[k..]; }
    } else if Able(bs, lh, k) {
      assert Spare(bs[0]) && Spare(bs[1]);
    }
  }

  lemma AbleNext(bs: seq<Buf>, bs': seq<Buf>, lh: seq<nat>, k: nat)
    requires k < |lh| && Distinct(lh) && Rewrote(bs, bs', lh[k])
    ensures Able(bs, lh, k) ==> Able(bs', lh, k + 1)
  {
    assert lh[k..] == [lh[k]] + lh[k + 1..];
    if Able(bs, lh, k) && |lh| < |bs| && AllDirty(bs, lh[k..]) {
      assert AllDirty(bs, lh[k + 1..]);
      DirtyStays(bs, bs', lh[k + 1..], lh[k]);
    }
  }

  // the header has been written: what is logged is in the cache still
  lemma AbleToInstall(bs: seq<Buf>, bs': seq<Buf>, lh: seq<nat>, dst: nat)
    requires AllDirty(bs, lh) && dst !in lh && Rewrote(bs, bs', dst)
    ensures Stocked(bs, lh, {}) && |lh| < |bs| ==> Able(bs', lh, 0)
  {
    assert lh[0..] == lh;
    DirtyStays(bs, bs', lh, dst);
  }

  lemma AbleAtBoot(bs: seq<Buf>, lh: seq<nat>)
    ensures Stocked(bs, [], {}) && 2 <= |bs| ==> HasSpare(bs) && Able(bs, lh, 0)
  {
    if Stocked(bs, [], {}) && 2 <= |bs| { assert Spare(bs[0]); }
  }

  // one buffer has been read, written out and released
  lemma OneRewrote(bs: seq<Buf>, bs': seq<Buf>, disk: Disk, view: Disk, to: nat)
    requires |bs| == |bs'| && to < |bs| && CacheOk(bs', disk, view) && bs'[to].dev == ROOTDEV
    requires forall i :: 0 <= i < |bs| && i != to ==> bs'[i] == bs[i]
    requires !bs'[to].dirty && bs'[to].refcnt == bs[to].refcnt && (bs[to].dirty ==> SameBlock(bs[to], bs'[to]))
    ensures Rewrote(bs, bs', bs'[to].blockno)
  {
    forall i | 0 <= i < |bs| ensures RewroteAt(bs[i], bs'[i], bs'[to].blockno) {
      assert BufOk(bs'[i], disk, view);
      if i != to && bs'[i].dirty { assert !SameBlock(bs'[i], bs'[to]) && !SameBlock(bs'[to], bs'[i]); }
    }
  }

  lemma StockedStays(bs: seq<Buf>, bs': seq<Buf>, lh: seq<nat>, dst: nat)
    requires Rewrote(bs, bs', dst)
    ensures Stocked(bs, lh, {}) ==> Stocked(bs', lh, {})
  {
  }

  lemma AbleToClear(bs: seq<Buf>, bs': seq<Buf>, lh: seq<nat>, dst: nat)
    requires Rewrote(bs, bs', dst)
    ensures Able(bs, lh, |lh|) ==> Stocked(bs', [], {})
  {
    assert lh[|lh|..] == [];
    StockedStays(bs, bs', [], dst);
  }

  // buffer i has been read into
  ghost predicate ReadInto(bs: seq<Buf>, bs': seq<Buf>, i: nat) {
    i < |bs| == |bs'| && bs' == bs[i := bs'[i]] && Reread(bs[i], bs'[i], true)
  }

  lemma ReadChanged(bs: seq<Buf>, bs': seq<Buf>, i: nat, data: Block)
    requires ReadInto(bs, bs', i)
    ensures ReadInto(bs, bs'[i := bs'[i].(data := data)], i)
  {
  }

  ghost function Dropped(bs: seq<Buf>, i: nat): seq<Buf>
    requires i < |bs| && bs[i].refcnt > 0
  {
    bs[i := bs[i].(holder := 0, refcnt := bs[i].refcnt - 1)]
  }

  // and released, with or without having been logged
  ghost predicate LetGo(bs: seq<Buf>, bs': seq<Buf>, i: nat) {
    i < |bs| == |bs'| && bs' == bs[i := bs'[i]] && SameBlock(bs[i], bs'[i]) && bs'[i].refcnt + 1 == bs[i].refcnt
  }

  lemma LoggedAndDropped(bs: seq<Buf>, bs1: seq<Buf>, i: nat)
    requires i < |bs| && bs[i].refcnt > 0 && bs1 == bs[i := bs[i].(dirty := true)]
    ensures LetGo(bs, Dropped(bs1, i), i)
  {
  }

  /** A block has been read, logged and released. */
  lemma StockedLogged(bs: seq<Buf>, bs1: seq<Buf>, bs2: seq<Buf>, lh: seq<nat>, i: nat, bn: nat)
    requires ReadInto(bs, bs1, i) && LetGo(bs1, bs2, i) && bs1[i].blockno == bn
    ensures Stocked(bs, lh, {}) ==> Stocked(bs2, if bn in lh then lh else lh + [bn], {})
  {
  }

  // buffer i as a later state of the cache may have it: what was pinned is pinned
  ghost predicate KeptAt(bs: seq<Buf>, bs': seq<Buf>, i: nat)
    requires i < |bs| == |bs'|
  {
    && (bs[i].dirty ==> bs'[i].dirty && SameBlock(bs[i], bs'[i]))
    && (bs[i].holder != 0 ==> bs'[i].holder == bs[i].holder && SameBlock(bs[i], bs'[i]))
  }

  lemma PinsKept(s: State, who: seq<nat>, bs: seq<Buf>, bs': seq<Buf>)
    requires PinsOk(s, who, bs) && |bs'| == |bs|
    requires forall i: nat :: i < |bs| ==> KeptAt(bs, bs', i)
    ensures PinsOk(s, who, bs')
  {
    forall b | b in s.lh ensures DirtyIn(bs', b) {
      var i :| 0 <= i < |bs| && BufferOf(bs[i], b) && bs[i].dirty;
      assert KeptAt(bs, bs', i);
    }
    forall p, b | 0 <= p < |s.ops| && b in s.ops[p].pending ensures HeldIn(bs', b, who[p]) {
      var i :| 0 <= i < |bs| && BufferOf(bs[i], b) && bs[i].holder == who[p];
      assert who[p] in who && KeptAt(bs, bs', i);
    }
  }

  // a block has one buffer, so the one in hand is the pinned one
  lemma OneBuffer(bs: seq<Buf>, disk: Disk, view: Disk, i: nat, j: nat)
    requires CacheOk(bs, disk, view) && i < |bs| && j < |bs|
    requires bs[i].dev == ROOTDEV && SameBlock(bs[i], bs[j])
    ensures i == j
  {
  }

  /** A held buffer whose block nobody else's operation has pending. */
  lemma NotPending(s: State, who: seq<nat>, bs: seq<Buf>, disk: Disk, view: Disk, i: nat, q: nat)
    requires PinsOk(s, who, bs) && CacheOk(bs, disk, view) && i < |bs| && bs[i].dev == ROOTDEV
    requires q < |s.ops| && who[q] != bs[i].holder
    ensures bs[i].blockno !in s.ops[q].pending
  {
    if bs[i].blockno in s.ops[q].pending {
      var j :| 0 <= j < |bs| && BufferOf(bs[j], bs[i].blockno) && bs[j].holder == who[q];
      OneBuffer(bs, disk, view, i, j);
    }
  }

  /** What brelse needs to know: a block that is not pending is dirty in the cache or clean. */
  lemma MayDrop(g: Geometry, s: State, who: seq<nat>, bs: seq<Buf>, i: nat)
    requires Inv(g, s) && PinsOk(s, who, bs) && CacheOk(bs, s.disk, s.view) && i < |bs| && bs[i].valid
    requires forall q :: 0 <= q < |s.ops| ==> bs[i].blockno !in s.ops[q].pending
    ensures bs[i].blockno < |s.disk| && (bs[i].dirty || bs[i].data == s.disk[bs[i].blockno])
  {
    var bn := bs[i].blockno;
    assert BufOk(bs[i], s.disk, s.view);
    if bn in s.lh {
      var j :| 0 <= j < |bs| && BufferOf(bs[j], bn) && bs[j].dirty;
      OneBuffer(bs, s.disk, s.view, i, j);
    } else {
      assert !PendingSomewhere(s, bn);
    }
  }

  /** The buffer is given back: its block is not pending, everything else is as before. */
  lemma PinsDrop(s: State, who: seq<nat>, bs: seq<Buf>, bs': seq<Buf>, i: nat)
    requires PinsOk(s, who, bs) && i < |bs| == |bs'|
    requires forall q :: 0 <= q < |s.ops| ==> bs[i].blockno !in s.ops[q].pending
    requires bs' == bs[i := bs'[i]] && SameBlock(bs[i], bs'[i]) && bs'[i].dirty == bs[i].dirty
    ensures PinsOk(s, who, bs')
  {
    forall b | b in s.lh ensures DirtyIn(bs', b) {
      var j :| 0 <= j < |bs| && BufferOf(bs[j], b) && bs[j].dirty;
      assert BufferOf(bs'[j], b) && bs'[j].dirty;
    }
    forall p, b | 0 <= p < |s.ops| && b in s.ops[p].pending ensures HeldIn(bs', b, who[p]) {
      var j :| 0 <= j < |bs| && BufferOf(bs[j], b) && bs[j].holder == who[p];
      assert BufferOf(bs'[j], b) && bs'[j].holder == who[p];
    }
  }

  /** Operation p has changed the buffer i that its process holds. */
  lemma PinsChange(s: State, s': State, who: seq<nat>, bs: seq<Buf>, bs': seq<Buf>, p: nat, i: nat)
    requires PinsOk(s, who, bs) && p < |s.ops| && i < |bs| == |bs'| && bs[i].dev == ROOTDEV && bs[i].holder == who[p]
    requires s'.lh == s.lh && |s'.ops| == |s.ops| && s'.ops == s.ops[p := s'.ops[p]]
    requires s'.ops[p].pending == s.ops[p].pending + {bs[i].blockno}
    requires forall j: nat :: j < |bs| ==> KeptAt(bs, bs', j)
    ensures PinsOk(s', who, bs')
  {
    PinsKept(s, who, bs, bs');
    assert who[p] in who && KeptAt(bs, bs', i);
    assert BufferOf(bs'[i], bs[i].blockno);
  }

  /** Operation p has recorded the block of buffer i, which is dirty from now on. */
  lemma PinsRecord(s: State, s': State, who: seq<nat>, bs: seq<Buf>, bs': seq<Buf>, p: nat, i: nat)
    requires PinsOk(s, who, bs) && p < |s.ops| && i < |bs| && bs[i].dev == ROOTDEV
    requires bs' == bs[i := bs[i].(dirty := true)]
    requires s'.lh == (if bs[i].blockno in s.lh then s.lh else s.lh + [bs[i].blockno])
    requires |s'.ops| == |s.ops| && s'.ops == s.ops[p := s'.ops[p]] && s'.ops[p].pending <= s.ops[p].pending
    ensures PinsOk(s', who, bs')
  {
    PinsKept(s, who, bs, bs');
    assert BufferOf(bs'[i], bs[i].blockno) && bs'[i].dirty;
  }

  /** Operation p is over. */
  lemma PinsEnd(s: State, s': State, who: seq<nat>, bs: seq<Buf>, p: nat)
    requires PinsOk(s, who, bs) && p < |s.ops|
    requires s'.lh == s.lh && s'.ops == s.ops[..p] + s.ops[p + 1..]
    ensures PinsOk(s', who[..p] + who[p + 1..], bs)
  {
    var who' := who[..p] + who[p + 1..];
    assert forall q :: 0 <= q < |who'| ==> who'[q] == who[if q < p then q else q + 1];
    assert forall q :: 0 <= q < |who'| ==> s'.ops[q] == s.ops[if q < p then q else q + 1];
  }

  // ---------------------------------------------------------------- the steps of one operation

  // what the code relies on between two calls
  ghost predicate Ready(g: Geometry, s: State, who: seq<nat>, bs: seq<Buf>) {
    Shape(g, s) && Distinct(s.lh) && PinsOk(s, who, bs)
  }

  lemma BeginStep(g: Geometry, s: State, who: seq<nat>, bs: seq<Buf>, pid: nat) returns (s': State)
    requires Ready(g, s, who, bs) && MayBegin(s) && pid != 0 && pid !in who
    ensures Next(g, s, BeginOp, s') && Ready(g, s', who + [pid], bs)
    ensures s' == s.(ops := s'.ops) && |s'.ops| == |s.ops| + 1
  {
    s' := s.(ops := s.ops + [NewOp]);
  }

  lemma MayChange(g: Geometry, s: State, who: seq<nat>, bs: seq<Buf>, p: nat, i: nat, data: Block)
    requires Ready(g, s, who, bs) && CacheOk(bs, s.disk, s.view) && |bs| == g.nbuf
    requires s.phase.Idle? && p < |s.ops| && s.ops[p].passed.None?
    requires i < |bs| && bs[i].holder == who[p] && bs[i].valid && !g.InLog(bs[i].blockno)
    ensures bs[i].dev == ROOTDEV && Enabled(g, s, Modify(p, bs[i].blockno, data))
  {
    assert BufOk(bs[i], s.disk, s.view);
    forall q | 0 <= q < |s.ops| && q != p ensures bs[i].blockno !in s.ops[q].pending {
      assert who[q] != who[p] by { assert if q < p then who[q] != who[p] else who[p] != who[q]; }
      NotPending(s, who, bs, s.disk, s.view, i, q);
    }
    PinsFit(s, who, bs, i);
  }

  lemma ChangeStep(g: Geometry, s: State, who: seq<nat>, bs: seq<Buf>, p: nat, i: nat, data: Block) returns (s': State)
    requires Ready(g, s, who, bs) && CacheOk(bs, s.disk, s.view) && |bs| == g.nbuf
    requires s.phase.Idle? && p < |s.ops| && s.ops[p].passed.None?
    requires i < |bs| && bs[i].holder == who[p] && bs[i].valid && !g.InLog(bs[i].blockno)
    ensures bs[i].blockno < |s.view| && s' == s.(view := s.view[bs[i].blockno := data], ops := s'.ops)
    ensures |s'.ops| == |s.ops| && Next(g, s, Modify(p, bs[i].blockno, data), s')
    ensures Ready(g, s', who, bs[i := bs[i].(data := data)])
  {
    var bn := bs[i].blockno;
    MayChange(g, s, who, bs, p, i, data);
    s' := s.(view := s.view[bn := data], ops := s.ops[p := s.ops[p].(pending := s.ops[p].pending + {bn})]);
    PinsChange(s, s', who, bs, bs[i := bs[i].(data := data)], p, i);
  }

  lemma TestStep(g: Geometry, s: State, who: seq<nat>, bs: seq<Buf>, p: nat, bn: nat) returns (s': State)
    requires Ready(g, s, who, bs) && GuardPasses(g, s)
    requires s.phase.Idle? && p < |s.ops| && s.ops[p].passed.None? && bn in s.ops[p].pending
    ensures Next(g, s, Test(p, bn), s') && Ready(g, s', who, bs)
    ensures s' == s.(ops := s'.ops) && |s'.ops| == |s.ops| && s'.ops[p].passed == Some(bn)
  {
    s' := s.(ops := s.ops[p := s.ops[p].(passed := Some(bn))]);
  }

  /** A new entry fits into the header, as the cache has no more buffers than that. */
  lemma RecordStep(g: Geometry, s: State, who: seq<nat>, bs: seq<Buf>, p: nat, i: nat) returns (s': State)
    requires Ready(g, s, who, bs) && SmallCache(g) && |bs| == g.nbuf
    requires s.phase.Idle? && p < |s.ops| && i < |bs| && bs[i].dev == ROOTDEV && bs[i].blockno < g.nblocks
    requires s.ops[p].passed == Some(bs[i].blockno)
    ensures var bn := bs[i].blockno;
            && s' == s.(lh := if bn in s.lh then s.lh else s.lh + [bn], ops := s'.ops)
            && |s'.ops| == |s.ops| && |s'.lh| <= LOGSIZE && Next(g, s, Record(p, bn), s')
    ensures Ready(g, s', who, bs[i := bs[i].(dirty := true)])
  {
    var bn := bs[i].blockno;
    s' := s.(lh := if bn in s.lh then s.lh else s.lh + [bn],
             ops := s.ops[p := Op(s.ops[p].logged + {bn}, s.ops[p].pending - {bn}, None)]);
    DirtyFit(bs, s.lh, if bn in s.lh then {} else {bn});
    PinsRecord(s, s', who, bs, bs[i := bs[i].(dirty := true)], p, i);
  }

  lemma EndStep(g: Geometry, s: State, who: seq<nat>, bs: seq<Buf>, p: nat) returns (s': State)
    requires Ready(g, s, who, bs) && s.phase.Idle? && p < |s.ops| && s.ops[p].pending == {}
    ensures Next(g, s, EndOp(p), s') && Ready(g, s', who[..p] + who[p + 1..], bs)
    ensures |s'.ops| == |s.ops| - 1
    ensures s' == s.(ops := s'.ops, phase := if s'.ops == [] then Copying(0) else Idle)
  {
    s' := s.(ops := s.ops[..p] + s.ops[p + 1..]);
    s' := s'.(phase := if s'.ops == [] then Copying(0) else Idle);
    PinsEnd(s, s', who, bs, p);
  }

  // a commit is over
  ghost predicate MayFinish(g: Geometry, s: State) {
    Shape(g, s) && s.lh == [] && s.ops == [] && (s.phase.Finishing? || s.phase == Copying(0))
  }

  // and the log is idle again
  lemma FinishStep(g: Geometry, s: State, bs: seq<Buf>) returns (s': State)
    requires MayFinish(g, s)
    ensures Next(g, s, Finish, s') && s' == s.(phase := Idle) && s'.lh == [] && s'.ops == []
    ensures Ready(g, s', [], bs)
  {
    s' := s.(phase := Idle);
  }

  /** A copy to the log has found a buffer for its log block beside those of the logged blocks. */
  lemma BufferLeft(g: Geometry, lh: seq<nat>, bs: seq<Buf>, bs': seq<Buf>, inLog: nat)
    requires HomeList(g, lh) && g.InLog(inLog) && |bs| == |bs'| == g.nbuf && inLog in BlockNos(bs')
    requires AllDirty(bs, lh) && Rewrote(bs, bs', inLog)
    ensures |lh| < g.nbuf && AllDirty(bs', lh)
    ensures Stocked(bs, lh, {}) ==> Stocked(bs', lh, {})
  {
    assert inLog !in lh;
    DirtyStays(bs, bs', lh, inLog);
    DirtyFit(bs', lh, {inLog});
    StockedStays(bs, bs', lh, inLog);
  }

  /** Between two stores of an operation the next block can be read, if it is logged or a buffer is left. */
  lemma MayObtain(g: Geometry, s: State, who: seq<nat>, bs: seq<Buf>, bn: nat)
    requires Ready(g, s, who, bs) && CacheOk(bs, s.disk, s.view)
    ensures Stocked(bs, s.lh, {}) && (|s.lh| < |bs| || bn in s.lh) ==> Obtainable(bs, bn)
  {
    if bn in s.lh {
      assert DirtyIn(bs, bn);
    } else {
      SpareLeft(bs, s.lh, s.disk, s.view);
    }
  }
}
