/**
 The buffer cache (bio.c) over the in-memory disk of memide.c.

 Buffers live in one array and point at each other by index, the list head being the last
 slot.  A ghost `view` holds the latest contents stored for every block; the invariant says
 which buffers and which disk blocks must agree with it.
 */
module Bio {
  import opened Blocks
  import opened Wrappers

  const ROOTDEV: nat := 1

  // holder is the pid inside the buffer's sleep lock, 0 when the lock is free
  datatype Buf = Buf(dev: nat, blockno: nat, valid: bool, dirty: bool, refcnt: nat, holder: nat, data: Block)

  const BlankBuf: Buf := Buf(0, 0, false, false, 0, 0, ZeroBlock)

  // ---------------------------------------------------------------- the circular list

  ghost function After(ring: seq<nat>, k: nat): nat
    requires k < |ring|
  {
    if k + 1 == |ring| then ring[0] else ring[k + 1]
  }

  ghost function Before(ring: seq<nat>, k: nat): nat
    requires k < |ring|
  {
    if k == 0 then ring[|ring| - 1] else ring[k - 1]
  }

  ghost predicate LinkedAt(next: seq<nat>, prev: seq<nat>, ring: seq<nat>, k: nat)
    requires k < |ring|
  {
    && ring[k] < |next| && ring[k] < |prev|
    && next[ring[k]] == After(ring, k) && prev[ring[k]] == Before(ring, k)
  }

  /** ring[0] is the list head; next runs along ring and around, prev runs back. */
  ghost predicate Ring(next: seq<nat>, prev: seq<nat>, ring: seq<nat>) {
    && |next| == |prev|
    && ring != [] && Distinct(ring)
    && forall k: nat {:trigger LinkedAt(next, prev, ring, k)} :: k < |ring| ==> LinkedAt(next, prev, ring, k)
  }

  ghost function Upd(s: seq<nat>, i: nat, x: nat): seq<nat> {
    if i < |s| then s[i := x] else s
  }

  // linking b in right behind the head: four stores
  lemma InsertRing(next: seq<nat>, prev: seq<nat>, ring: seq<nat>, b: nat)
    requires Ring(next, prev, ring) && b < |next| && b !in ring && ring[0] < |next|
    ensures var h := ring[0];
            Ring(next[b := next[h]][h := b], Upd(prev[b := h], next[h], b), [h, b] + ring[1..])
  {
    var h, r := ring[0], [ring[0], b] + ring[1..];
    var next', prev' := next[b := next[h]][h := b], Upd(prev[b := h], next[h], b);
    assert forall k :: 2 <= k < |r| ==> r[k] == ring[k - 1];
    assert LinkedAt(next, prev, ring, 0);
    assert 1 < |ring| ==> LinkedAt(next, prev, ring, 1);
    forall k: nat | k < |r| ensures LinkedAt(next', prev', r, k) {
      if k >= 2 {
        assert LinkedAt(next, prev, ring, k - 1);
      }
    }
  }

  // taking b out: its neighbours point at each other
  lemma UnlinkRing(next: seq<nat>, prev: seq<nat>, ring: seq<nat>, p: nat)
    requires Ring(next, prev, ring) && 1 <= p < |ring| && ring[p] < |next|
    ensures var b := ring[p];
            && Ring(Upd(next, prev[b], next[b]), Upd(prev, next[b], prev[b]), ring[..p] + ring[p + 1..])
            && b !in ring[..p] + ring[p + 1..]
  {
    var b, r := ring[p], ring[..p] + ring[p + 1..];
    var next', prev' := Upd(next, prev[b], next[b]), Upd(prev, next[b], prev[b]);
    assert LinkedAt(next, prev, ring, p) && LinkedAt(next, prev, ring, p - 1);
    assert LinkedAt(next, prev, ring, if p + 1 == |ring| then 0 else p + 1);
    forall k: nat | k < |r| ensures LinkedAt(next', prev', r, k) {
      assert LinkedAt(next, prev, ring, if k < p then k else k + 1);
    }
  }

  // the list without its first occurrence of b
  ghost function RemoveFirst(s: seq<nat>, b: nat): seq<nat> {
    if s == [] then [] else if s[0] == b then s[1..] else [s[0]] + RemoveFirst(s[1..], b)
  }

  lemma {:induction false} RemoveFirstAt(s: seq<nat>, k: nat)
    requires Distinct(s) && k < |s|
    ensures RemoveFirst(s, s[k]) == s[..k] + s[k + 1..]
  {
    if k > 0 {
      RemoveFirstAt(s[1..], k - 1);
      assert s[1..][..k - 1] == s[1..k];
    }
  }

  // the order lists every buffer, the most recently released first
  ghost predicate ByAge(order: seq<nat>, released: seq<nat>, clock: nat) {
    && |order| == |released|
    && (forall k :: 0 <= k < |order| ==> order[k] < |order|)
    && (forall i :: 0 <= i < |order| ==> i in order)
    && (forall i :: 0 <= i < |order| ==> released[i] < clock)
    && (forall j, k :: 0 <= j < k < |order| ==> released[order[j]] > released[order[k]])
  }

  lemma FrontAged(order: seq<nat>, released: seq<nat>, clock: nat, k: nat)
    requires ByAge(order, released, clock) && k < |order|
    ensures ByAge([order[k]] + (order[..k] + order[k + 1..]), released[order[k] := clock], clock + 1)
  {
    var order' := [order[k]] + (order[..k] + order[k + 1..]);
    assert forall j :: 1 <= j < |order| ==> order'[j] == order[if j <= k then j - 1 else j];
    forall i | 0 <= i < |order| ensures i in order' {
      assert i in order;
      var m :| 0 <= m < |order| && order[m] == i;
      assert order'[if m == k then 0 else if m < k then m + 1 else m] == i;
    }
  }

  lemma RingOrderDistinct(h: nat, order: seq<nat>)
    requires Distinct([h] + order)
    ensures Distinct(order)
  {
    assert forall i :: 0 <= i < |order| ==> order[i] == ([h] + order)[i + 1];
  }

  // how the ring behind head h looks without order[k], and with it back in front
  lemma FrontRing(h: nat, order: seq<nat>, k: nat, rest: seq<nat>)
    requires k < |order| && rest == order[..k] + order[k + 1..]
    ensures ([h] + order)[..k + 1] + ([h] + order)[k + 2..] == [h] + rest
    ensures [h, order[k]] + ([h] + rest)[1..] == [h] + ([order[k]] + rest)
  {
  }

  // ---------------------------------------------------------------- buffers, view and disk

  /** One buffer against the disk and the latest contents stored. */
  ghost predicate BufOk(b: Buf, disk: seq<Block>, view: seq<Block>) {
    && (b.valid ==>
          && b.dev == ROOTDEV && b.blockno < |disk| && b.blockno < |view|
          && b.data == view[b.blockno]
          && (!b.dirty && b.holder == 0 ==> b.data == disk[b.blockno]))
    && (b.dirty ==> b.valid)
    && (b.holder != 0 ==> b.refcnt > 0)
  }

  ghost predicate SameBlock(a: Buf, b: Buf) {
    a.dev == b.dev && a.blockno == b.blockno
  }

  ghost predicate Cached(bs: seq<Buf>, bn: nat) {
    exists i :: 0 <= i < |bs| && bs[i].valid && bs[i].blockno == bn
  }

  /**
   The cache agrees with the disk: every buffer does, a block has at most one buffer (device 0
   is what zeroed buffers carry and is not a disk), and a block without a valid buffer has its
   latest contents on disk.
   */
  ghost predicate CacheOk(bs: seq<Buf>, disk: seq<Block>, view: seq<Block>) {
    && |disk| == |view|
    && (forall i :: 0 <= i < |bs| ==> BufOk(bs[i], disk, view))
    && (forall i, j :: 0 <= i < j < |bs| && SameBlock(bs[i], bs[j]) ==> bs[i].dev == 0)
    && (forall bn: nat :: bn < |disk| && !Cached(bs, bn) ==> view[bn] == disk[bn])
  }

  // counts, locks and flags may change as long as the buffer stays right
  lemma RetagKeeps(bs: seq<Buf>, disk: seq<Block>, view: seq<Block>, i: nat, b: Buf)
    requires CacheOk(bs, disk, view) && i < |bs|
    requires BufOk(b, disk, view) && SameBlock(b, bs[i]) && b.valid == bs[i].valid
    ensures CacheOk(bs[i := b], disk, view)
  {
    var bs' := bs[i := b];
    forall bn: nat | Cached(bs, bn) ensures Cached(bs', bn) {
      var j :| 0 <= j < |bs| && bs[j].valid && bs[j].blockno == bn;
      assert bs'[j].valid && bs'[j].blockno == bn;
    }
  }

  // recycling an unreferenced clean buffer loses nothing
  lemma RecycleKeeps(bs: seq<Buf>, disk: seq<Block>, view: seq<Block>, i: nat, dev: nat, blockno: nat)
    requires CacheOk(bs, disk, view) && i < |bs|
    requires bs[i].refcnt == 0 && !bs[i].dirty
    requires forall j :: 0 <= j < |bs| ==> !(bs[j].dev == dev && bs[j].blockno == blockno)
    ensures CacheOk(bs[i := bs[i].(dev := dev, blockno := blockno, valid := false, refcnt := 1)], disk, view)
  {
    var bs' := bs[i := bs[i].(dev := dev, blockno := blockno, valid := false, refcnt := 1)];
    forall bn: nat | bn < |disk| && view[bn] != disk[bn] ensures Cached(bs', bn) {
      assert Cached(bs, bn);
      var j :| 0 <= j < |bs| && bs[j].valid && bs[j].blockno == bn;
      assert BufOk(bs[j], disk, view);
      assert bs'[j].valid && bs'[j].blockno == bn;
    }
  }

  // an invalid buffer's block is in no other buffer, so the disk holds its latest contents
  lemma InvalidMeansOnDisk(bs: seq<Buf>, disk: seq<Block>, view: seq<Block>, i: nat)
    requires CacheOk(bs, disk, view) && i < |bs|
    requires !bs[i].valid && bs[i].dev == ROOTDEV && bs[i].blockno < |disk|
    ensures view[bs[i].blockno] == disk[bs[i].blockno]
  {
    forall j | 0 <= j < |bs| ensures !(bs[j].valid && bs[j].blockno == bs[i].blockno) {
      assert j != i && bs[j].dev == ROOTDEV ==> SameBlock(bs[i], bs[j]) == (bs[j].blockno == bs[i].blockno);
    }
  }

  lemma FillKeeps(bs: seq<Buf>, disk: seq<Block>, view: seq<Block>, i: nat, b: Buf)
    requires CacheOk(bs, disk, view) && i < |bs| && SameBlock(b, bs[i])
    requires BufOk(b, disk, view) && b.valid
    ensures CacheOk(bs[i := b], disk, view)
  {
    var bs' := bs[i := b];
    forall bn: nat | Cached(bs, bn) ensures Cached(bs', bn) {
      var j :| 0 <= j < |bs| && bs[j].valid && bs[j].blockno == bn;
      assert bs'[j].valid && bs'[j].blockno == bn;
    }
  }

  // storing into a locked buffer moves the view with it
  lemma StoreKeeps(bs: seq<Buf>, disk: seq<Block>, view: seq<Block>, i: nat, data: Block)
    requires CacheOk(bs, disk, view) && i < |bs| && bs[i].valid && bs[i].holder != 0
    ensures CacheOk(bs[i := bs[i].(data := data)], disk, view[bs[i].blockno := data])
  {
    var bs', view' := bs[i := bs[i].(data := data)], view[bs[i].blockno := data];
    forall j | 0 <= j < |bs'| ensures BufOk(bs'[j], disk, view') {
      assert BufOk(bs[j], disk, view) && BufOk(bs[i], disk, view);
      if j != i && bs[j].valid { assert !SameBlock(bs[i], bs[j]) && !SameBlock(bs[j], bs[i]); }
    }
    forall bn: nat | Cached(bs, bn) ensures Cached(bs', bn) {
      var j :| 0 <= j < |bs| && bs[j].valid && bs[j].blockno == bn;
      assert bs'[j].valid && bs'[j].blockno == bn;
    }
    assert bs'[i].valid && bs'[i].blockno == bs[i].blockno;
  }

  // writing a valid buffer out makes disk and view agree on its block
  lemma WriteKeeps(bs: seq<Buf>, disk: seq<Block>, view: seq<Block>, i: nat)
    requires CacheOk(bs, disk, view) && i < |bs| && bs[i].valid
    ensures CacheOk(bs[i := bs[i].(dirty := false)], disk[bs[i].blockno := bs[i].data], view)
  {
    var bs', disk' := bs[i := bs[i].(dirty := false)], disk[bs[i].blockno := bs[i].data];
    forall j | 0 <= j < |bs'| ensures BufOk(bs'[j], disk', view) {
      assert BufOk(bs[j], disk, view) && BufOk(bs[i], disk, view);
      if j != i && bs[j].valid { assert !SameBlock(bs[i], bs[j]) && !SameBlock(bs[j], bs[i]); }
    }
    forall bn: nat | Cached(bs, bn) ensures Cached(bs', bn) {
      var j :| 0 <= j < |bs| && bs[j].valid && bs[j].blockno == bn;
      assert bs'[j].valid && bs'[j].blockno == bn;
    }
  }

  // ---------------------------------------------------------------- the cache object

  class BufferCache {
    const nbuf: nat
    const buf: array<Buf>
    const next: array<nat>  // slot nbuf is the list head
    const prev: array<nat>
    var disk: seq<Block>

    ghost var history: seq<seq<Block>>  // the disk after every write, oldest first
    ghost var view: seq<Block>          // the latest contents stored for every block
    ghost var order: seq<nat>           // the list from head.next on
    ghost var released: seq<nat>        // when each buffer last came to the front
    ghost var clock: nat

    ghost predicate Listed()
      reads this, next, prev
    {
      && next.Length == prev.Length == nbuf + 1
      && |order| == nbuf && Ring(next[..], prev[..], [nbuf] + order)
    }

    // the list runs from the most recently released buffer to the least recently released
    ghost predicate Aged()
      reads this
    {
      |released| == nbuf && ByAge(order, released, clock)
    }

    ghost predicate Valid()
      reads this, buf, next, prev
    {
      && buf.Length == nbuf && next != prev
      && Listed() && Aged()
      && CacheOk(buf[..], disk, view)
      && history != [] && history[|history| - 1] == disk
    }

    // binit: link every buffer in behind the head
    constructor (nbuf: nat, disk: seq<Block>)
      ensures Valid()
      ensures this.nbuf == nbuf && this.disk == this.view == disk && history == [disk]
      ensures buf[..] == seq(nbuf, i => BlankBuf)
      ensures fresh(buf) && fresh(next) && fresh(prev)
    {
      this.nbuf, this.disk, this.view, this.history := nbuf, disk, disk, [disk];
      buf := new Buf[nbuf](i => BlankBuf);
      next := new nat[nbuf + 1](i => nbuf);
      prev := new nat[nbuf + 1](i => nbuf);
      order, released, clock := [], [], nbuf;
      new;
      var b: nat := 0;
      while b < nbuf
        invariant 0 <= b <= nbuf && |order| == |released| == b
        invariant this.disk == this.view == disk && history == [disk] && clock == nbuf
        invariant buf[..] == seq(nbuf, i => BlankBuf)
        invariant Ring(next[..], prev[..], [nbuf] + order)
        invariant forall i :: 0 <= i < b ==> order[i] == b - 1 - i
        invariant forall i :: 0 <= i < b ==> released[i] == i
      {
        assert b !in [nbuf] + order;
        ghost var ring: seq<nat> := [nbuf] + order;
        InsertBuf(b, ring);
        order, released := [b] + order, released + [b];
        assert [nbuf] + order == [nbuf, b] + ring[1..];
        b := b + 1;
      }
      forall i | 0 <= i < nbuf ensures i in order {
        assert order[nbuf - 1 - i] == i;
      }
    }

    ghost predicate Matches(i: int, dev: nat, blockno: nat)
      reads this, buf
      requires buf.Length == nbuf
    {
      0 <= i < nbuf && buf[i].dev == dev && buf[i].blockno == blockno
    }

    // walk the list from the front for a buffer of the block
    method Lookup(dev: nat, blockno: nat) returns (r: Option<nat>)
      requires Valid()
      ensures r.Some? ==> Matches(r.value, dev, blockno)
      ensures r.None? ==> forall i :: 0 <= i < nbuf ==> !Matches(i, dev, blockno)
    {
      ghost var ring := [nbuf] + order;
      assert LinkedAt(next[..], prev[..], ring, 0);
      var b := next[nbuf];
      ghost var k := 0;
      while b != nbuf
        invariant 0 <= k <= nbuf && b == (if k == nbuf then nbuf else order[k])
        invariant forall m :: 0 <= m < k ==> !Matches(order[m], dev, blockno)
        decreases nbuf - k
      {
        if buf[b].dev == dev && buf[b].blockno == blockno {
          return Some(b);
        }
        assert LinkedAt(next[..], prev[..], ring, k + 1);
        b := next[b];
        k := k + 1;
      }
      forall i | 0 <= i < nbuf ensures !Matches(i, dev, blockno) {
        assert i in order;
        var m :| 0 <= m < nbuf && order[m] == i;
      }
      return None;
    }

    // walk it from the back for a buffer that nobody references and the log has not pinned
    method FindVictim() returns (r: Option<nat>)
      requires Valid()
      ensures r.Some? ==> r.value < nbuf && buf[r.value].refcnt == 0 && !buf[r.value].dirty
      ensures r.Some? ==> forall i :: 0 <= i < nbuf && buf[i].refcnt == 0 && !buf[i].dirty
                                      ==> released[r.value] <= released[i]
      ensures r.None? ==> forall i :: 0 <= i < nbuf ==> buf[i].refcnt > 0 || buf[i].dirty
    {
      ghost var ring := [nbuf] + order;
      assert LinkedAt(next[..], prev[..], ring, 0);
      var b := prev[nbuf];
      ghost var k := nbuf;
      while b != nbuf
        invariant 0 <= k <= nbuf && b == (if k == 0 then nbuf else order[k - 1])
        invariant forall m :: k <= m < nbuf ==> buf[order[m]].refcnt > 0 || buf[order[m]].dirty
        decreases k
      {
        if buf[b].refcnt == 0 && !buf[b].dirty {
          forall i | 0 <= i < nbuf && buf[i].refcnt == 0 && !buf[i].dirty ensures released[b] <= released[i] {
            assert i in order;
            var m :| 0 <= m < nbuf && order[m] == i;
          }
          return Some(b);
        }
        assert LinkedAt(next[..], prev[..], ring, k);
        b := prev[b];
        k := k - 1;
      }
      forall i | 0 <= i < nbuf ensures buf[i].refcnt > 0 || buf[i].dirty {
        assert i in order;
        var m :| 0 <= m < nbuf && order[m] == i;
      }
      return None;
    }

    /** The critical section of bget: reference the block's buffer, or recycle one for it. */
    method Bget(dev: nat, blockno: nat) returns (r: Option<nat>)
      requires Valid()
      modifies buf
      ensures Valid()
      ensures r.None? ==>
                && buf[..] == old(buf[..])
                && (forall i :: 0 <= i < nbuf ==> !Matches(i, dev, blockno))
                && (forall i :: 0 <= i < nbuf ==> buf[i].refcnt > 0 || buf[i].dirty)
      ensures r.Some? ==> Matches(r.value, dev, blockno)
      ensures r.Some? && old(Matches(r.value, dev, blockno)) ==>
                buf[..] == old(buf[..])[r.value := old(buf[r.value]).(refcnt := old(buf[r.value].refcnt) + 1)]
      ensures r.Some? && !old(Matches(r.value, dev, blockno)) ==>
                && (forall i :: 0 <= i < nbuf ==> !old(Matches(i, dev, blockno)))
                && old(buf[r.value].refcnt) == 0 && !old(buf[r.value].dirty)
                && (forall i :: 0 <= i < nbuf && old(buf[i].refcnt) == 0 && !old(buf[i].dirty)
                                ==> released[r.value] <= released[i])
                && buf[..] == old(buf[..])[r.value := old(buf[r.value])
                              .(dev := dev, blockno := blockno, valid := false, refcnt := 1)]
    {
      r := Lookup(dev, blockno);
      ghost var bs := buf[..];
      if r.Some? {
        var b := r.value;
        buf[b] := buf[b].(refcnt := buf[b].refcnt + 1);
        RetagKeeps(bs, disk, view, b, buf[b]);
        assert buf[..] == bs[b := buf[b]];
        return;
      }
      assert forall j :: 0 <= j < nbuf ==> Matches(j, dev, blockno) == (bs[j].dev == dev && bs[j].blockno == blockno);
      r := FindVictim();
      if r.Some? {
        var b := r.value;
        buf[b] := buf[b].(dev := dev, blockno := blockno, valid := false, dirty := false, refcnt := 1);
        RecycleKeeps(bs, disk, view, b, dev, blockno);
        assert buf[..] == bs[b := buf[b]];
      }
    }

    /** The rest of bread: take the buffer's lock (free when we get it) and read it in if needed. */
    method Fill(b: nat, pid: nat) returns (ok: bool)
      requires Valid() && b < nbuf && pid != 0
      requires buf[b].refcnt > 0 && buf[b].holder == 0
      modifies buf
      ensures Valid()
      ensures ok <==> old(buf[b].dev) == ROOTDEV && old(buf[b].blockno) < |disk|
      ensures ok ==> buf[b].blockno < |disk| && (buf[b].dirty || buf[b].data == disk[buf[b].blockno])
      ensures ok ==> old(buf[b].blockno) < |view| &&
                     buf[..] == old(buf[..])[b := old(buf[b])
                                .(holder := pid, valid := true, data := view[old(buf[b].blockno)])]
    {
      ghost var bs := buf[..];
      assert BufOk(bs[b], disk, view);
      buf[b] := buf[b].(holder := pid);
      RetagKeeps(bs, disk, view, b, buf[b]);
      assert buf[..] == bs[b := buf[b]];
      if buf[b].valid {
        return true;
      }
      if buf[b].dev != ROOTDEV || buf[b].blockno >= |disk| {
        return false;
      }
      InvalidMeansOnDisk(bs, disk, view, b);
      bs := buf[..];
      buf[b] := buf[b].(data := disk[buf[b].blockno], valid := true);
      FillKeeps(bs, disk, view, b, buf[b]);
      assert buf[..] == bs[b := buf[b]];
      return true;
    }

    // bget's panic: the block has no buffer and none can be recycled
    ghost predicate NoBuffer(dev: nat, blockno: nat)
      reads this, buf
      requires buf.Length == nbuf
    {
      && (forall i :: 0 <= i < nbuf ==> !Matches(i, dev, blockno))
      && (forall i :: 0 <= i < nbuf ==> buf[i].refcnt > 0 || buf[i].dirty)
    }

    /** bread: on success the caller holds the only buffer of the block, with its latest contents. */
    method Bread(dev: nat, blockno: nat, pid: nat) returns (r: Option<nat>)
      requires Valid() && pid != 0
      requires forall i :: 0 <= i < nbuf && Matches(i, dev, blockno) ==> buf[i].holder == 0
      modifies buf
      ensures Valid()
      ensures r.Some? ==>
                && dev == ROOTDEV && blockno < |disk| && Matches(r.value, dev, blockno)
                && buf[r.value].holder == pid && buf[r.value].valid
                && buf[r.value].refcnt > 0 && buf[r.value].data == view[blockno]
                && (buf[r.value].dirty || buf[r.value].data == disk[blockno])
      ensures r.None? <==> dev != ROOTDEV || blockno >= |disk| || old(NoBuffer(dev, blockno))
      ensures r.Some? ==> buf[r.value].refcnt == old(buf[r.value].refcnt) + 1
      ensures r.Some? && old(Matches(r.value, dev, blockno)) ==> buf[r.value].dirty == old(buf[r.value].dirty)
      ensures r.Some? && !old(Matches(r.value, dev, blockno)) ==>
                !buf[r.value].dirty && old(buf[r.value].refcnt) == 0 && !old(buf[r.value].dirty)
      ensures r.Some? ==> forall i :: 0 <= i < nbuf && i != r.value ==> buf[i] == old(buf[i])
    {
      r := Bget(dev, blockno);
      if r.Some? {
        assert old(Matches(r.value, dev, blockno)) || (old(buf[r.value].refcnt) == 0 && !old(buf[r.value].dirty));
        assert !old(NoBuffer(dev, blockno));
        assert buf[r.value].dev == dev && buf[r.value].blockno == blockno;
        assert BufOk(old(buf[..])[r.value], disk, view);
        assert buf[r.value] == buf[..][r.value];
        var ok := Fill(r.value, pid);
        if !ok {
          r := None;
        }
      } else {
        assert forall i :: 0 <= i < nbuf ==> buf[i] == buf[..][i] && old(buf[i]) == old(buf[..])[i];
        assert forall i :: 0 <= i < nbuf ==> Matches(i, dev, blockno) == old(Matches(i, dev, blockno));
        assert old(NoBuffer(dev, blockno));
      }
    }

    /** Change the contents of a buffer one holds; the new contents are then the latest ones. */
    method Store(b: nat, pid: nat, data: Block)
      requires Valid() && b < nbuf && pid != 0 && buf[b].holder == pid && buf[b].valid
      modifies buf, this`view
      ensures Valid()
      ensures buf[b].blockno < |old(view)| && view == old(view)[buf[b].blockno := data]
      ensures buf[..] == old(buf[..])[b := old(buf[b]).(data := data)]
    {
      ghost var bs := buf[..];
      assert BufOk(bs[b], disk, view);
      StoreKeeps(bs, disk, view, b, data);
      buf[b] := buf[b].(data := data);
      view := view[buf[b].blockno := data];
      assert buf[..] == bs[b := buf[b]];
    }

    /** log_write's pin: a dirty buffer is not recycled even when nobody references it. */
    method Pin(b: nat, pid: nat)
      requires Valid() && b < nbuf && pid != 0 && buf[b].holder == pid && buf[b].valid
      modifies buf
      ensures Valid()
      ensures buf[..] == old(buf[..])[b := old(buf[b]).(dirty := true)]
    {
      ghost var bs := buf[..];
      assert BufOk(bs[b], disk, view);
      buf[b] := buf[b].(dirty := true);
      RetagKeeps(bs, disk, view, b, buf[b]);
      assert buf[..] == bs[b := buf[b]];
    }

    /** bwrite: the buffer's contents reach the disk and the buffer is clean; panics without the lock. */
    method Bwrite(b: nat, pid: nat) returns (ok: bool)
      requires Valid() && b < nbuf && pid != 0 && buf[b].valid
      modifies buf, this`disk, this`history
      ensures Valid()
      ensures ok <==> old(buf[b].holder) == pid
      ensures !ok ==> disk == old(disk) && history == old(history) && buf[..] == old(buf[..])
      ensures ok ==>
                && buf[b].blockno < |old(disk)| && disk == old(disk)[buf[b].blockno := buf[b].data]
                && history == old(history) + [disk]
                && buf[..] == old(buf[..])[b := old(buf[b]).(dirty := false)]
    {
      if buf[b].holder != pid {
        return false;
      }
      ghost var bs := buf[..];
      assert BufOk(bs[b], disk, view);
      WriteKeeps(bs, disk, view, b);
      buf[b] := buf[b].(dirty := false);
      disk := disk[buf[b].blockno := buf[b].data];
      history := history + [disk];
      assert buf[..] == bs[b := buf[b]];
      return true;
    }

    // drop a reference; the last one moves the buffer to the front of the list
    method Put(b: nat)
      requires Valid() && b < nbuf && buf[b].refcnt > 0
      requires buf[b].holder != 0 ==> buf[b].refcnt > 1
      modifies this`order, this`released, this`clock, buf, next, prev
      ensures Valid()
      ensures buf[..] == old(buf[..])[b := old(buf[b]).(refcnt := old(buf[b].refcnt) - 1)]
      ensures buf[b].refcnt > 0 ==> order == old(order) && released == old(released)
      ensures buf[b].refcnt == 0 ==>
                && order == [b] + RemoveFirst(old(order), b)
                && b < |old(released)| && released == old(released)[b := old(clock)]
    {
      ghost var bs := buf[..];
      assert BufOk(bs[b], disk, view);
      buf[b] := buf[b].(refcnt := buf[b].refcnt - 1);
      RetagKeeps(bs, disk, view, b, buf[b]);
      assert buf[..] == bs[b := buf[b]];
      if buf[b].refcnt == 0 {
        MoveToFront(b);
      }
    }

    // take b out of the list
    method UnlinkBuf(b: nat, ghost ring: seq<nat>, ghost p: nat)
      requires next.Length == prev.Length && next != prev
      requires Ring(next[..], prev[..], ring) && 1 <= p < |ring| && ring[p] == b
      modifies next, prev
      ensures Ring(next[..], prev[..], ring[..p] + ring[p + 1..]) && b !in ring[..p] + ring[p + 1..]
    {
      ghost var n0: seq<nat>, p0: seq<nat> := next[..], prev[..];
      assert LinkedAt(n0, p0, ring, p) && LinkedAt(n0, p0, ring, p - 1);
      assert LinkedAt(n0, p0, ring, if p + 1 == |ring| then 0 else p + 1);
      UnlinkRing(n0, p0, ring, p);
      prev[next[b]] := prev[b];
      next[prev[b]] := next[b];
      assert next[..] == Upd(n0, p0[b], n0[b]) && prev[..] == Upd(p0, n0[b], p0[b]);
    }

    // link b in right behind the head
    method InsertBuf(b: nat, ghost ring: seq<nat>)
      requires next.Length == prev.Length && next != prev && b < next.Length && nbuf < next.Length
      requires Ring(next[..], prev[..], ring) && ring[0] == nbuf && b !in ring
      modifies next, prev
      ensures Ring(next[..], prev[..], [nbuf, b] + ring[1..])
    {
      ghost var n0: seq<nat>, p0: seq<nat> := next[..], prev[..];
      assert LinkedAt(n0, p0, ring, 0) && (1 < |ring| ==> LinkedAt(n0, p0, ring, 1));
      InsertRing(n0, p0, ring, b);
      next[b] := next[nbuf];
      prev[b] := nbuf;
      prev[next[nbuf]] := b;
      next[nbuf] := b;
      assert next[..] == n0[b := n0[nbuf]][nbuf := b] && prev[..] == Upd(p0[b := nbuf], n0[nbuf], b);
    }

    method MoveToFront(b: nat)
      requires Listed() && Aged() && b < nbuf && next != prev
      modifies this`order, this`released, this`clock, next, prev
      ensures Listed() && Aged()
      ensures order == [b] + RemoveFirst(old(order), b)
      ensures b < |old(released)| && released == old(released)[b := old(clock)]
    {
      assert b in order;
      ghost var k :| 0 <= k < nbuf && order[k] == b;
      ghost var rest: seq<nat> := RemoveFirst(order, b);
      RingOrderDistinct(nbuf, order);
      RemoveFirstAt(order, k);
      FrontRing(nbuf, order, k, rest);
      FrontAged(order, released, clock, k);
      UnlinkBuf(b, [nbuf] + order, k + 1);
      InsertBuf(b, [nbuf] + rest);
      order, released, clock := [b] + rest, released[b := clock], clock + 1;
    }

    /** brelse: panics without the lock; a changed buffer must have been written or pinned. */
    method Brelse(b: nat, pid: nat) returns (ok: bool)
      requires Valid() && b < nbuf && pid != 0
      requires buf[b].holder == pid && buf[b].valid && buf[b].blockno < |disk|
               ==> buf[b].dirty || buf[b].data == disk[buf[b].blockno]
      modifies this`order, this`released, this`clock, buf, next, prev
      ensures Valid()
      ensures ok <==> old(buf[b].holder) == pid
      ensures !ok ==> buf[..] == old(buf[..]) && order == old(order)
      ensures ok ==> old(buf[b].refcnt) > 0 &&
                     buf[..] == old(buf[..])[b := old(buf[b]).(holder := 0, refcnt := old(buf[b].refcnt) - 1)]
      ensures ok && old(buf[b].refcnt) == 1 ==>
                && order == [b] + RemoveFirst(old(order), b)
                && b < |old(released)| && released == old(released)[b := old(clock)]
    {
      if buf[b].holder != pid {
        return false;
      }
      ghost var bs := buf[..];
      assert BufOk(bs[b], disk, view);
      buf[b] := buf[b].(holder := 0);
      RetagKeeps(bs, disk, view, b, buf[b]);
      assert buf[..] == bs[b := buf[b]];
      Put(b);
      return true;
    }
  }
}
