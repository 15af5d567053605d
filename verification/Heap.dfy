/**
 The user-level allocator (umalloc.c; section 8.7 of Kernighan and Ritchie).

 Addresses count Header units.  `ring` is the free list from the static header base on, in
 address order; `blocks` maps the start of every block, free or allocated, to its size;
 `heap` is every unit obtained from sbrk.
 */
module Heap {
  import opened Wrappers

  datatype Header = Header(ptr: nat, size: nat)

  // ---------------------------------------------------------------- the free list

  ghost function After(ring: seq<nat>, k: nat): nat
    requires k < |ring|
  {
    if k + 1 == |ring| then ring[0] else ring[k + 1]
  }

  // one member of the list: where its header points, and that it ends short of the next
  ghost predicate LinkedAt(hdr: map<nat, Header>, ring: seq<nat>, k: nat)
    requires k < |ring|
  {
    && ring[k] in hdr && hdr[ring[k]].ptr == After(ring, k)
    && (if k == 0 then hdr[ring[0]].size == 0 else hdr[ring[k]].size > 0)
    && (k + 1 < |ring| ==> ring[k] + hdr[ring[k]].size < ring[k + 1])
  }

  ghost predicate Sorted(ring: seq<nat>) {
    forall i, j :: 0 <= i < j < |ring| ==> ring[i] < ring[j]
  }

  /** Circular, in address order with one wrap at its end, no two members touching. */
  ghost predicate FreeList(hdr: map<nat, Header>, ring: seq<nat>) {
    && ring != [] && Sorted(ring)
    && forall k: nat {:trigger LinkedAt(hdr, ring, k)} :: k < |ring| ==> LinkedAt(hdr, ring, k)
  }

  // ---------------------------------------------------------------- the partition of memory

  ghost predicate Covers(blocks: map<nat, nat>, b: nat, u: nat) {
    b in blocks && b <= u < b + blocks[b]
  }

  ghost predicate Covered(blocks: map<nat, nat>, u: nat) {
    exists b :: Covers(blocks, b, u)
  }

  ghost predicate ApartAt(blocks: map<nat, nat>, b: nat, c: nat) {
    b in blocks && c in blocks && b < c ==> b + blocks[b] <= c
  }

  /** The blocks are disjoint and make up exactly the heap. */
  ghost predicate Tiles(blocks: map<nat, nat>, heap: set<nat>) {
    && (forall b: nat, c: nat {:trigger ApartAt(blocks, b, c)} :: ApartAt(blocks, b, c))
    && (forall u: nat {:trigger Covered(blocks, u)} :: u in heap <==> Covered(blocks, u))
  }

  // two blocks that touch become one
  ghost function Merge(blocks: map<nat, nat>, b: nat, c: nat): map<nat, nat>
    requires b in blocks && c in blocks
  {
    (blocks - {c})[b := blocks[b] + blocks[c]]
  }

  lemma MergeTiles(blocks: map<nat, nat>, heap: set<nat>, b: nat, c: nat)
    requires Tiles(blocks, heap) && b in blocks && c in blocks && b + blocks[b] == c && blocks[b] > 0
    ensures Tiles(Merge(blocks, b, c), heap)
  {
    var m := Merge(blocks, b, c);
    forall x: nat, y: nat ensures ApartAt(m, x, y) {
      assert ApartAt(blocks, x, y) && ApartAt(blocks, c, y);
    }
    forall u: nat ensures u in heap <==> Covered(m, u) {
      assert u in heap <==> Covered(blocks, u);
      if Covered(blocks, u) {
        var d :| Covers(blocks, d, u);
        assert Covers(m, if d == c then b else d, u);
      }
      if Covered(m, u) {
        var d :| Covers(m, d, u);
        assert Covers(blocks, if d == b && u >= c then c else d, u);
      }
    }
  }

  // the last n units of a block become a block of their own
  function TailAt(b: nat, size: nat, n: nat): nat
    requires n <= size
  {
    b + size - n
  }

  ghost function Split(blocks: map<nat, nat>, b: nat, n: nat): map<nat, nat>
    requires b in blocks && n < blocks[b]
  {
    blocks[b := blocks[b] - n][TailAt(b, blocks[b], n) := n]
  }

  lemma SplitTiles(blocks: map<nat, nat>, heap: set<nat>, b: nat, n: nat)
    requires Tiles(blocks, heap) && b in blocks && 0 < n < blocks[b]
    ensures Tiles(Split(blocks, b, n), heap) && TailAt(b, blocks[b], n) !in blocks
  {
    var m, c := Split(blocks, b, n), TailAt(b, blocks[b], n);
    assert ApartAt(blocks, b, c);
    forall x: nat, y: nat ensures ApartAt(m, x, y) {
      var x0, y0 := if x == c then b else x, if y == c then b else y;
      assert ApartAt(blocks, x0, y0) && ApartAt(blocks, y0, x0);
    }
    forall u: nat ensures u in heap <==> Covered(m, u) {
      assert u in heap <==> Covered(blocks, u);
      SplitCovers(blocks, b, n, u);
    }
  }

  lemma SplitCovers(blocks: map<nat, nat>, b: nat, n: nat, u: nat)
    requires b in blocks && 0 < n < blocks[b] && TailAt(b, blocks[b], n) !in blocks
    ensures Covered(Split(blocks, b, n), u) <==> Covered(blocks, u)
  {
    var m, c := Split(blocks, b, n), TailAt(b, blocks[b], n);
    if Covered(blocks, u) {
      var d :| Covers(blocks, d, u);
      assert Covers(m, if d == b && u >= c then c else d, u);
    }
    if Covered(m, u) {
      var d :| Covers(m, d, u);
      assert Covers(blocks, if d == c then b else d, u);
    }
  }

  ghost function Units(s: nat, n: nat): (r: set<nat>)
    ensures forall u :: u in r <==> s <= u < s + n
  {
    if n == 0 then {} else Units(s, n - 1) + {s + n - 1}
  }

  // fresh memory above every block
  lemma AddTiles(blocks: map<nat, nat>, heap: set<nat>, s: nat, n: nat)
    requires Tiles(blocks, heap) && n > 0 && s !in blocks
    requires forall b: nat {:trigger ApartAt(blocks, b, s)} :: b in blocks ==> b + blocks[b] <= s
    ensures Tiles(blocks[s := n], heap + Units(s, n))
  {
    var m := blocks[s := n];
    forall x: nat, y: nat ensures ApartAt(m, x, y) {
      assert ApartAt(blocks, x, y) && ApartAt(blocks, x, s) && ApartAt(blocks, y, s);
    }
    forall u: nat ensures u in heap + Units(s, n) <==> Covered(m, u) {
      assert u in heap <==> Covered(blocks, u);
      if Covered(blocks, u) {
        var d :| Covers(blocks, d, u);
        assert Covers(m, d, u);
      }
      if s <= u < s + n {
        assert Covers(m, s, u);
      }
      if Covered(m, u) {
        var d :| Covers(m, d, u);
        assert d != s ==> Covers(blocks, d, u);
      }
    }
  }

  // ---------------------------------------------------------------- the whole allocator state

  datatype State = State(base: nat, hdr: map<nat, Header>, ring: seq<nat>, blocks: map<nat, nat>, alloc: set<nat>,
                         heap: set<nat>, top: nat)

  // what holds of the block at b, if there is one
  ghost predicate BlockOk(s: State, b: nat) {
    b in s.blocks ==>
      && b in s.hdr && s.hdr[b].size == s.blocks[b] > 0 && s.base < b && b + s.blocks[b] <= s.top
      && (b in s.alloc <==> b !in s.ring)
  }

  // free and allocated blocks are blocks
  ghost predicate KnownAt(s: State, b: nat) {
    b in s.alloc || (b in s.ring && b != s.base) ==> b in s.blocks
  }

  /** The free list is in order, the blocks tile the heap, and each is either free or allocated. */
  ghost predicate HeapOk(s: State) {
    && FreeList(s.hdr, s.ring) && s.ring[0] == s.base && 0 < s.base < s.top
    && Tiles(s.blocks, s.heap)
    && (forall b: nat {:trigger BlockOk(s, b)} :: BlockOk(s, b))
    && (forall b: nat {:trigger KnownAt(s, b)} :: KnownAt(s, b))
  }

  /** Every unit from sbrk lies in exactly one block, which is either free or allocated; no other unit lies in any. */
  lemma Partition(s: State, u: nat)
    requires HeapOk(s)
    ensures u in s.heap <==> Covered(s.blocks, u)
    ensures forall b, c :: Covers(s.blocks, b, u) && Covers(s.blocks, c, u) ==> b == c
    ensures forall b :: Covers(s.blocks, b, u) ==> (b in s.alloc <==> b !in s.ring)
  {
    forall b, c | Covers(s.blocks, b, u) && Covers(s.blocks, c, u) ensures b == c {
      assert ApartAt(s.blocks, b, c) && ApartAt(s.blocks, c, b);
    }
    forall b | Covers(s.blocks, b, u) ensures b in s.alloc <==> b !in s.ring {
      assert BlockOk(s, b);
    }
  }

  // a member of the list other than the static header
  lemma MemberBlock(s: State, k: nat)
    requires HeapOk(s) && 1 <= k < |s.ring|
    ensures s.ring[k] in s.blocks && s.ring[k] in s.hdr && s.hdr[s.ring[k]].size == s.blocks[s.ring[k]] > 0
    ensures s.ring[k] !in s.alloc && s.ring[k] > s.base && s.ring[k] + s.blocks[s.ring[k]] <= s.top
  {
    assert s.ring[0] < s.ring[k];
    assert KnownAt(s, s.ring[k]) && BlockOk(s, s.ring[k]);
  }

  // ---------------------------------------------------------------- freeing

  // bp lies between member k of the list and the next one, or the end
  ghost predicate Between(ring: seq<nat>, k: nat, bp: nat) {
    k < |ring| && ring[k] < bp && (k + 1 < |ring| ==> bp < ring[k + 1])
  }

  // an allocated block and its place in the list
  ghost predicate Freeable(s: State, k: nat, bp: nat) {
    HeapOk(s) && bp in s.alloc && Between(s.ring, k, bp)
  }

  ghost predicate TouchesNext(s: State, k: nat, bp: nat) {
    k + 1 < |s.ring| && bp in s.blocks && bp + s.blocks[bp] == s.ring[k + 1]
  }

  ghost predicate TouchesPrev(s: State, k: nat, bp: nat) {
    1 <= k < |s.ring| && s.ring[k] in s.blocks && s.ring[k] + s.blocks[s.ring[k]] == bp
  }

  // the list with bp put in after member k and joined with its neighbours
  ghost function Inserted(ring: seq<nat>, k: nat, bp: nat, joinNext: bool, joinPrev: bool): seq<nat>
    requires k < |ring| && (joinNext ==> k + 1 < |ring|)
  {
    ring[..k + 1] + (if joinPrev then [] else [bp]) + (if joinNext then ring[k + 2..] else ring[k + 1..])
  }

  // the headers that free leaves
  ghost function Freed(hdr: map<nat, Header>, p: nat, bp: nat, joinNext: bool, joinPrev: bool): map<nat, Header> {
    if p !in hdr || bp !in hdr || (joinNext && hdr[p].ptr !in hdr) then hdr
    else
      var q := if joinNext then Header(hdr[hdr[p].ptr].ptr, hdr[bp].size + hdr[hdr[p].ptr].size)
               else Header(hdr[p].ptr, hdr[bp].size);
      hdr[bp := q][p := if joinPrev then Header(q.ptr, hdr[p].size + q.size) else Header(bp, hdr[p].size)]
  }

  ghost function FreedBlocks(s: State, k: nat, bp: nat): map<nat, nat> {
    var m := if TouchesNext(s, k, bp) && s.ring[k + 1] in s.blocks
             then Merge(s.blocks, bp, s.ring[k + 1]) else s.blocks;
    if TouchesPrev(s, k, bp) && s.ring[k] in m && bp in m then Merge(m, s.ring[k], bp) else m
  }

  /** The state that free leaves. */
  ghost function FreedState(s: State, k: nat, bp: nat): State
    requires k < |s.ring|
  {
    var joinNext, joinPrev := TouchesNext(s, k, bp), TouchesPrev(s, k, bp);
    s.(hdr := Freed(s.hdr, s.ring[k], bp, joinNext, joinPrev),
       ring := Inserted(s.ring, k, bp, joinNext, joinPrev),
       blocks := FreedBlocks(s, k, bp),
       alloc := s.alloc - {bp})
  }

  // what free relies on: bp and its neighbours
  lemma Neighbours(s: State, k: nat, bp: nat)
    requires Freeable(s, k, bp)
    ensures bp in s.blocks && bp in s.hdr && s.hdr[bp].size == s.blocks[bp] > 0 && bp !in s.ring
    ensures s.base < bp && bp + s.blocks[bp] <= s.top
    ensures s.ring[k] in s.hdr && s.hdr[s.ring[k]].ptr == After(s.ring, k)
    ensures k == 0 ==> s.hdr[s.ring[0]].size == 0
    ensures k >= 1 ==>
              && s.ring[k] in s.blocks && s.hdr[s.ring[k]].size == s.blocks[s.ring[k]] > 0
              && s.ring[k] + s.blocks[s.ring[k]] <= bp
    ensures k + 1 < |s.ring| ==>
              && s.ring[k + 1] in s.blocks && s.ring[k + 1] in s.hdr && s.hdr[s.ring[k + 1]].ptr == After(s.ring, k + 1)
              && s.hdr[s.ring[k + 1]].size == s.blocks[s.ring[k + 1]] > 0
              && bp + s.blocks[bp] <= s.ring[k + 1] && s.ring[k] != s.ring[k + 1]
              && s.ring[k + 1] + s.blocks[s.ring[k + 1]] <= s.top
              && (k + 2 < |s.ring| ==> s.ring[k + 1] + s.hdr[s.ring[k + 1]].size < s.ring[k + 2])
  {
    assert KnownAt(s, bp) && BlockOk(s, bp);
    assert LinkedAt(s.hdr, s.ring, k);
    if k >= 1 {
      MemberBlock(s, k);
      assert ApartAt(s.blocks, s.ring[k], bp);
    }
    if k + 1 < |s.ring| {
      MemberBlock(s, k + 1);
      assert LinkedAt(s.hdr, s.ring, k + 1) && ApartAt(s.blocks, bp, s.ring[k + 1]);
    }
  }

  lemma InsertedSorted(ring: seq<nat>, k: nat, bp: nat, joinNext: bool, joinPrev: bool)
    requires Sorted(ring) && Between(ring, k, bp) && (joinNext ==> k + 1 < |ring|)
    ensures Sorted(Inserted(ring, k, bp, joinNext, joinPrev))
  {
  }

  // a member before k or after k + 1, at its new index j
  lemma InsertedElsewhere(s: State, k: nat, bp: nat, j: nat)
    requires Freeable(s, k, bp) && j < |FreedState(s, k, bp).ring|
    requires j < k || j > k + if TouchesPrev(s, k, bp) then 0 else 1
    ensures LinkedAt(FreedState(s, k, bp).hdr, FreedState(s, k, bp).ring, j)
  {
    Neighbours(s, k, bp);
    var s', joinNext, joinPrev := FreedState(s, k, bp), TouchesNext(s, k, bp), TouchesPrev(s, k, bp);
    var i := if j < k then j else j - (if joinPrev then 0 else 1) + (if joinNext then 1 else 0);
    assert s'.ring[j] == s.ring[i];
    assert LinkedAt(s.hdr, s.ring, i);
  }

  // member k itself, and bp if it stays a member
  lemma InsertedHere(s: State, k: nat, bp: nat, j: nat)
    requires Freeable(s, k, bp) && k <= j <= k + if TouchesPrev(s, k, bp) then 0 else 1
    ensures j < |FreedState(s, k, bp).ring| && LinkedAt(FreedState(s, k, bp).hdr, FreedState(s, k, bp).ring, j)
  {
    Neighbours(s, k, bp);
    assert LinkedAt(s.hdr, s.ring, k);
  }

  /** free's list surgery: the list stays circular, sorted and free of touching members. */
  lemma InsertedList(s: State, k: nat, bp: nat)
    requires Freeable(s, k, bp)
    ensures FreeList(FreedState(s, k, bp).hdr, FreedState(s, k, bp).ring)
  {
    InsertedSorted(s.ring, k, bp, TouchesNext(s, k, bp), TouchesPrev(s, k, bp));
    var hdr', ring' := FreedState(s, k, bp).hdr, FreedState(s, k, bp).ring;
    forall j: nat | j < |ring'| ensures LinkedAt(hdr', ring', j) {
      if k <= j <= k + (if TouchesPrev(s, k, bp) then 0 else 1) {
        InsertedHere(s, k, bp, j);
      } else {
        InsertedElsewhere(s, k, bp, j);
      }
    }
  }

  lemma InsertedMembers(ring: seq<nat>, k: nat, bp: nat, joinNext: bool, joinPrev: bool, x: nat)
    requires Sorted(ring) && k < |ring| && (joinNext ==> k + 1 < |ring|)
    ensures x in Inserted(ring, k, bp, joinNext, joinPrev) <==>
            (x in ring && !(joinNext && x == ring[k + 1])) || (!joinPrev && x == bp)
  {
    var r := Inserted(ring, k, bp, joinNext, joinPrev);
    assert forall j :: 0 <= j <= k ==> r[j] == ring[j];
    if x in ring && !(joinNext && x == ring[k + 1]) {
      var i :| 0 <= i < |ring| && ring[i] == x;
      var j := if i <= k then i else i + (if joinPrev then 0 else 1) - (if joinNext then 1 else 0);
      assert r[j] == x;
    }
    if !joinPrev {
      assert r[k + 1] == bp;
    }
    assert x in r ==> x in ring[..k + 1] || (!joinPrev && x == bp) || x in ring[if joinNext then k + 2 else k + 1..];
  }

  lemma FreedTiles(s: State, k: nat, bp: nat)
    requires Freeable(s, k, bp)
    ensures Tiles(FreedBlocks(s, k, bp), s.heap)
  {
    Neighbours(s, k, bp);
    var m := s.blocks;
    if TouchesNext(s, k, bp) {
      MergeTiles(s.blocks, s.heap, bp, s.ring[k + 1]);
      m := Merge(s.blocks, bp, s.ring[k + 1]);
    }
    if TouchesPrev(s, k, bp) {
      MergeTiles(m, s.heap, s.ring[k], bp);
    }
  }

  // which blocks there are after a free, and how large
  lemma FreedBlockAt(s: State, k: nat, bp: nat, b: nat)
    requires Freeable(s, k, bp)
    ensures var s' := FreedState(s, k, bp);
            && (b in s'.blocks <==> b in s.blocks && !(TouchesNext(s, k, bp) && b == s.ring[k + 1])
                                    && !(TouchesPrev(s, k, bp) && b == bp))
            && (b in s'.blocks ==> b in s'.hdr && s'.hdr[b].size == s'.blocks[b] > 0 && s.base < b
                                   && b + s'.blocks[b] <= s.top)
            && (b in s'.alloc && b in s.blocks ==> b in s'.blocks && s'.blocks[b] == s.blocks[b])
  {
    Neighbours(s, k, bp);
    assert BlockOk(s, b) && BlockOk(s, s.ring[k]);
    if k >= 1 { MemberBlock(s, k); }
    if k + 1 < |s.ring| { MemberBlock(s, k + 1); }
  }

  lemma FreedAt(s: State, k: nat, bp: nat, b: nat)
    requires Freeable(s, k, bp)
    ensures BlockOk(FreedState(s, k, bp), b) && KnownAt(FreedState(s, k, bp), b)
  {
    FreedBlockAt(s, k, bp, b);
    InsertedMembers(s.ring, k, bp, TouchesNext(s, k, bp), TouchesPrev(s, k, bp), b);
    assert BlockOk(s, b) && KnownAt(s, b) && KnownAt(s, bp) && BlockOk(s, bp);
    if k + 1 < |s.ring| { MemberBlock(s, k + 1); }
  }

  /** free: the state it leaves is that of an allocator without the block; the heap is the same. */
  lemma FreedOk(s: State, k: nat, bp: nat)
    requires Freeable(s, k, bp)
    ensures HeapOk(FreedState(s, k, bp)) && s.ring[k] in FreedState(s, k, bp).ring
    ensures Kept(s, FreedState(s, k, bp), s.alloc - {bp})
    ensures bp in s.blocks && LargeEnough(FreedState(s, k, bp), s.blocks[bp])
  {
    var s' := FreedState(s, k, bp);
    Neighbours(s, k, bp);
    InsertedList(s, k, bp);
    FreedTiles(s, k, bp);
    assert s'.ring[k] == s.ring[k] && s'.ring[0] == s.base;
    forall b: nat ensures BlockOk(s', b) && KnownAt(s', b) {
      FreedAt(s, k, bp, b);
    }
    forall a | a in s'.alloc ensures a in s.blocks && a in s'.blocks && s'.blocks[a] == s.blocks[a] {
      assert KnownAt(s, a);
      FreedBlockAt(s, k, bp, a);
    }
    assert !TouchesPrev(s, k, bp) ==> s'.ring[k + 1] == bp;
    assert HasUnits(s', if TouchesPrev(s, k, bp) then k else k + 1, s.blocks[bp]);
  }

  /** The allocated blocks in alloc keep their sizes. */
  ghost predicate Kept(s: State, s': State, alloc: set<nat>) {
    forall a :: a in alloc ==> a in s.blocks && a in s'.blocks && s'.blocks[a] == s.blocks[a]
  }

  ghost predicate HasUnits(s: State, j: nat, n: nat) {
    j < |s.ring| && s.ring[j] in s.hdr && s.hdr[s.ring[j]].size >= n
  }

  /** Some member of the list has n units or more. */
  ghost predicate LargeEnough(s: State, n: nat) {
    exists j: nat :: HasUnits(s, j, n)
  }

  // ---------------------------------------------------------------- growing and taking

  /** Memory from sbrk, first as an allocated block. */
  ghost function Granted(s: State, at: nat, n: nat): State {
    s.(hdr := s.hdr[at := Header(0, n)], blocks := s.blocks[at := n], alloc := s.alloc + {at},
       heap := s.heap + Units(at, n), top := at + n)
  }

  lemma GrantOk(s: State, at: nat, n: nat)
    requires HeapOk(s) && at >= s.top && n > 0
    ensures HeapOk(Granted(s, at, n)) && at !in s.alloc
    ensures Kept(s, Granted(s, at, n), s.alloc)
  {
    var s' := Granted(s, at, n);
    forall k: nat | k < |s.ring| ensures s.ring[k] < at && LinkedAt(s'.hdr, s.ring, k) {
      assert LinkedAt(s.hdr, s.ring, k);
      if k >= 1 { MemberBlock(s, k); }
    }
    assert BlockOk(s, at) && KnownAt(s, at);
    forall b: nat | b in s.blocks ensures b + s.blocks[b] <= at {
      assert BlockOk(s, b);
    }
    AddTiles(s.blocks, s.heap, at, n);
    forall b: nat ensures BlockOk(s', b) && KnownAt(s', b) {
      assert BlockOk(s, b) && KnownAt(s, b);
    }
    forall a | a in s.alloc ensures a in s.blocks && a != at {
      assert KnownAt(s, a) && BlockOk(s, a);
    }
  }

  lemma RemovedMembers(ring: seq<nat>, i: nat, x: nat)
    requires Sorted(ring) && i < |ring|
    ensures x in ring[..i] + ring[i + 1..] <==> x in ring && x != ring[i]
  {
    var r := ring[..i] + ring[i + 1..];
    if x in ring && x != ring[i] {
      var j :| 0 <= j < |ring| && ring[j] == x;
      assert r[if j < i then j else j - 1] == x;
    }
  }

  /** A member that fits exactly leaves the list. */
  ghost function Taken(s: State, i: nat): State
    requires 1 <= i < |s.ring| && s.ring[i] in s.hdr && s.ring[i - 1] in s.hdr
  {
    s.(hdr := s.hdr[s.ring[i - 1] := Header(s.hdr[s.ring[i]].ptr, s.hdr[s.ring[i - 1]].size)],
       ring := s.ring[..i] + s.ring[i + 1..], alloc := s.alloc + {s.ring[i]})
  }

  // where a member other than i was
  ghost function Was(i: nat, j: nat): nat {
    if j < i then j else j + 1
  }

  lemma RemovedAt(ring: seq<nat>, i: nat)
    requires Sorted(ring) && i < |ring|
    ensures Sorted(ring[..i] + ring[i + 1..])
    ensures forall j: nat {:trigger Was(i, j)} :: j < |ring| - 1 ==> (ring[..i] + ring[i + 1..])[j] == ring[Was(i, j)]
  {
  }

  lemma TakenAt(s: State, i: nat, j: nat)
    requires FreeList(s.hdr, s.ring) && 1 <= i < |s.ring| && j < |s.ring| - 1
    ensures s.ring[i] in s.hdr && s.ring[i - 1] in s.hdr && LinkedAt(Taken(s, i).hdr, Taken(s, i).ring, j)
  {
    assert LinkedAt(s.hdr, s.ring, i) && LinkedAt(s.hdr, s.ring, i - 1) && LinkedAt(s.hdr, s.ring, Was(i, j));
    RemovedAt(s.ring, i);
    assert Was(i, j + 1) <= |s.ring| && Was(i, 0) == 0;
  }

  lemma TakenList(s: State, i: nat)
    requires FreeList(s.hdr, s.ring) && 1 <= i < |s.ring|
    ensures s.ring[i] in s.hdr && s.ring[i - 1] in s.hdr && FreeList(Taken(s, i).hdr, Taken(s, i).ring)
  {
    assert LinkedAt(s.hdr, s.ring, i) && LinkedAt(s.hdr, s.ring, i - 1);
    RemovedAt(s.ring, i);
    var hdr', ring' := Taken(s, i).hdr, Taken(s, i).ring;
    forall j: nat | j < |ring'| ensures LinkedAt(hdr', ring', j) {
      TakenAt(s, i, j);
    }
  }

  lemma TakeOk(s: State, i: nat)
    requires HeapOk(s) && 1 <= i < |s.ring|
    ensures s.ring[i] in s.hdr && s.ring[i - 1] in s.hdr && s.ring[i] !in s.alloc
    ensures HeapOk(Taken(s, i)) && s.ring[i - 1] in Taken(s, i).ring
  {
    TakenList(s, i);
    MemberBlock(s, i);
    var s' := Taken(s, i);
    assert s'.ring[i - 1] == s.ring[i - 1] && s'.ring[0] == s.base;
    forall b: nat ensures BlockOk(s', b) && KnownAt(s', b) {
      RemovedMembers(s.ring, i, b);
      assert BlockOk(s, b) && KnownAt(s, b);
    }
  }

  /** A larger one keeps its front and gives its tail away; x is what the tail's first word held. */
  ghost function Tailed(s: State, i: nat, n: nat, x: nat): State
    requires i < |s.ring| && s.ring[i] in s.hdr && s.ring[i] in s.blocks
    requires s.hdr[s.ring[i]].size == s.blocks[s.ring[i]] > n
  {
    var p, q := s.ring[i], TailAt(s.ring[i], s.blocks[s.ring[i]], n);
    s.(hdr := s.hdr[p := Header(s.hdr[p].ptr, s.hdr[p].size - n)][q := Header(x, n)],
       blocks := Split(s.blocks, p, n), alloc := s.alloc + {q})
  }

  lemma TailOk(s: State, i: nat, n: nat, x: nat)
    requires HeapOk(s) && 1 <= i < |s.ring| && s.ring[i] in s.blocks && 0 < n < s.blocks[s.ring[i]]
    ensures s.ring[i] in s.hdr && s.hdr[s.ring[i]].size == s.blocks[s.ring[i]]
    ensures HeapOk(Tailed(s, i, n, x)) && TailAt(s.ring[i], s.blocks[s.ring[i]], n) !in s.alloc
    ensures Kept(s, Tailed(s, i, n, x), s.alloc)
  {
    MemberBlock(s, i);
    var s', p, q := Tailed(s, i, n, x), s.ring[i], TailAt(s.ring[i], s.blocks[s.ring[i]], n);
    SplitTiles(s.blocks, s.heap, p, n);
    assert KnownAt(s, q) && q > s.base;
    forall k: nat | k < |s.ring| ensures LinkedAt(s'.hdr, s.ring, k) {
      assert LinkedAt(s.hdr, s.ring, k) && s.ring[k] != q;
    }
    forall b: nat ensures BlockOk(s', b) && KnownAt(s', b) {
      assert BlockOk(s, b) && KnownAt(s, b);
    }
    forall a | a in s.alloc ensures a in s.blocks && a != p {
      assert KnownAt(s, a) && BlockOk(s, a);
    }
  }

  // ---------------------------------------------------------------- searching

  lemma {:induction false} FindBetween(ring: seq<nat>, bp: nat, n: nat) returns (k: nat)
    requires Sorted(ring) && 1 <= n <= |ring| && ring[0] < bp && bp !in ring
    requires n < |ring| ==> bp < ring[n]
    ensures Between(ring, k, bp)
  {
    if ring[n - 1] < bp {
      k := n - 1;
    } else {
      assert n > 1;
      k := FindBetween(ring, bp, n - 1);
    }
  }

  // the index t steps round a ring of n from index f
  ghost function Round(n: nat, f: nat, t: nat): nat
    requires f < n && t <= n
    ensures Round(n, f, t) < n
  {
    if f + t < n then f + t else f + t - n
  }

  // the member t steps round from f is too small
  ghost predicate SmallAt(s: State, f: nat, t: nat, n: nat)
    requires f < |s.ring| && t <= |s.ring|
  {
    !HasUnits(s, Round(|s.ring|, f, t), n)
  }

  ghost predicate SmallUpTo(s: State, f: nat, t: nat, n: nat)
    requires f < |s.ring| && t <= |s.ring|
  {
    forall u: nat {:trigger SmallAt(s, f, u, n)} :: 1 <= u <= t ==> SmallAt(s, f, u, n)
  }

  // a full lap has seen every member
  lemma LapSeesAll(s: State, f: nat, n: nat)
    requires f < |s.ring| && SmallUpTo(s, f, |s.ring|, n)
    ensures !LargeEnough(s, n)
  {
    forall j: nat | j < |s.ring| ensures !HasUnits(s, j, n) {
      var u := if j > f then j - f else j + |s.ring| - f;
      assert SmallAt(s, f, u, n) && Round(|s.ring|, f, u) == j;
    }
  }

  const NALLOC: nat := 4096

  /** The units that malloc asks for: one for the header and enough for nbytes. */
  function UnitsFor(nbytes: nat): (n: nat)
    ensures n >= 1 && 8 * (n - 1) >= nbytes && 8 * (n - 1) < nbytes + 8
  {
    (nbytes + 8 - 1) / 8 + 1
  }

  /** What morecore adds to the heap. */
  ghost function Grant(at: nat, nunits: nat): set<nat> {
    Units(at, if nunits < NALLOC then NALLOC else nunits)
  }

  class Allocator {
    const base: nat                // address of the static header
    var hdr: map<nat, Header>
    var freep: nat                 // 0 until the first malloc
    ghost var ring: seq<nat>
    ghost var blocks: map<nat, nat>
    ghost var alloc: set<nat>      // the headers of the allocated blocks
    ghost var heap: set<nat>
    ghost var top: nat             // everything from sbrk lies below

    ghost function S(): State
      reads this
    {
      State(base, hdr, ring, blocks, alloc, heap, top)
    }

    ghost predicate Valid()
      reads this
    {
      if freep == 0 then 0 < base < top && blocks == map[] && alloc == {} && heap == {}
      else HeapOk(S()) && freep in ring
    }

    constructor (base: nat, top: nat)
      requires 0 < base < top
      ensures Valid() && alloc == {} && heap == {} && this.base == base && this.top == top
    {
      this.base, this.top := base, top;
      hdr, freep, ring, blocks, alloc, heap := map[], 0, [], map[], {}, {};
    }

    /** The search of free: round the ring from freep to the member that bp comes after. */
    method FindSpot(bp: nat) returns (p: nat, ghost k: nat)
      requires Valid() && freep != 0 && bp in alloc
      ensures k < |ring| && ring[k] == p && Between(ring, k, bp)
    {
      ghost var n := |ring|;
      assert KnownAt(S(), bp) && BlockOk(S(), bp);
      ghost var t := FindBetween(ring, bp, n);
      p := freep;
      ghost var i: nat :| i < n && ring[i] == p;
      while true
        invariant i < n && ring[i] == p
        decreases if i <= t then t - i else t + n - i
      {
        assert LinkedAt(hdr, ring, i);
        var next := hdr[p].ptr;
        if bp > p && bp < next {
          break;
        }
        if p >= next && (bp > p || bp < next) {
          break;
        }
        p := next;
        i := if i + 1 == n then 0 else i + 1;
      }
      k := i;
    }

    // the headers that free rewrites
    method Splice(p: nat, bp: nat, ghost k: nat)
      requires Freeable(S(), k, bp) && p == ring[k]
      modifies this`hdr, this`freep
      ensures hdr == FreedState(old(S()), k, bp).hdr && freep == p
    {
      Neighbours(S(), k, bp);
      var next := hdr[p].ptr;
      if bp + hdr[bp].size == next {
        hdr := hdr[bp := Header(hdr[next].ptr, hdr[bp].size + hdr[next].size)];
      } else {
        hdr := hdr[bp := Header(next, hdr[bp].size)];
      }
      if p + hdr[p].size == bp {
        hdr := hdr[p := Header(hdr[bp].ptr, hdr[p].size + hdr[bp].size)];
      } else {
        hdr := hdr[p := Header(bp, hdr[p].size)];
      }
      freep := p;
    }

    /** free: the block joins the free list, merged with the free blocks it touches. */
    method Free(ap: nat)
      requires Valid() && freep != 0 && ap >= 1 && ap - 1 in alloc
      modifies this
      ensures Valid() && freep != 0 && alloc == old(alloc) - {ap - 1} && heap == old(heap) && top == old(top)
      ensures Kept(old(S()), S(), alloc)
      ensures ap - 1 in old(blocks) && LargeEnough(S(), old(blocks)[ap - 1])
    {
      var bp := ap - 1;
      var p;
      ghost var k;
      p, k := FindSpot(bp);
      ghost var s := S();
      ghost var s' := FreedState(s, k, bp);
      FreedOk(s, k, bp);
      Splice(p, bp, k);
      ring, blocks, alloc := s'.ring, s'.blocks, s'.alloc;
      assert S() == s';
      assert LinkedAt(s'.hdr, s'.ring, 0);
    }

    /** morecore: at least NALLOC units from sbrk, put on the free list; grant is sbrk's answer. */
    method Morecore(nunits: nat, grant: Option<nat>) returns (r: Option<nat>)
      requires Valid() && freep != 0 && (grant.Some? ==> grant.value >= top)
      modifies this
      ensures Valid() && freep != 0 && alloc == old(alloc) && Kept(old(S()), S(), alloc)
      ensures r.None? <==> grant.None?
      ensures r.None? ==> S() == old(S())
      ensures r.Some? ==> r.value == freep && LargeEnough(S(), nunits) && heap == old(heap) + Grant(grant.value, nunits)
    {
      KeptNow(S(), S());
      if grant.None? {
        return None;
      }
      var nu, hp := if nunits < NALLOC then NALLOC else nunits, grant.value;
      ghost var s := S();
      GrantOk(s, hp, nu);
      hdr := hdr[hp := Header(0, nu)];
      blocks, alloc, heap, top := blocks[hp := nu], alloc + {hp}, heap + Units(hp, nu), hp + nu;
      assert S() == Granted(s, hp, nu);
      Free(hp + 1);
      assert s.alloc + {hp} - {hp} == s.alloc;
      MoreIsEnough(S(), nunits, nu);
      return Some(freep);
    }

    // a member of the list that fits exactly is unlinked
    method TakeWhole(prevp: nat, p: nat, ghost i: nat)
      requires Valid() && freep != 0 && 1 <= i < |ring| && ring[i] == p && ring[i - 1] == prevp
      modifies this`hdr, this`freep, this`ring, this`alloc
      ensures Valid() && freep == prevp != 0 && p !in old(alloc) && alloc == old(alloc) + {p}
    {
      ghost var s := S();
      TakeOk(s, i);
      assert LinkedAt(hdr, ring, 0) && (i - 1 > 0 ==> ring[0] < ring[i - 1]);
      hdr := hdr[prevp := Header(hdr[p].ptr, hdr[prevp].size)];
      freep := prevp;
      ring, alloc := ring[..i] + ring[i + 1..], alloc + {p};
      assert S() == Taken(s, i);
    }

    // a larger one keeps its front
    method TakeTail(prevp: nat, p: nat, n: nat, ghost i: nat) returns (q: nat)
      requires Valid() && freep != 0 && 1 <= i < |ring| && ring[i] == p && prevp in ring && prevp != 0
      requires p in blocks && p in hdr && hdr[p].size == blocks[p] && 0 < n < blocks[p]
      modifies this`hdr, this`freep, this`blocks, this`alloc
      ensures Valid() && freep == prevp && q !in old(alloc) && alloc == old(alloc) + {q}
      ensures q in blocks && blocks[q] == n && Kept(old(S()), S(), old(alloc))
    {
      ghost var s := S();
      q := TailAt(p, hdr[p].size, n);
      var x := if q in hdr then hdr[q].ptr else 0;
      TailOk(s, i, n, x);
      hdr := hdr[p := Header(hdr[p].ptr, hdr[p].size - n)][q := Header(x, n)];
      freep := prevp;
      blocks, alloc := Split(blocks, p, n), alloc + {q};
      assert S() == Tailed(s, i, n, x);
    }

    // take n units from member i of the list, whose predecessor is prevp
    method Take(prevp: nat, p: nat, n: nat, ghost i: nat) returns (q: nat)
      requires Valid() && freep != 0 && 1 <= i < |ring| && ring[i] == p && ring[i - 1] == prevp && n > 0
      requires HasUnits(S(), i, n)
      modifies this
      ensures Valid() && freep != 0 && heap == old(heap) && top == old(top)
      ensures q !in old(alloc) && alloc == old(alloc) + {q} && q in blocks && blocks[q] == n
      ensures Kept(old(S()), S(), old(alloc))
    {
      MemberBlock(S(), i);
      assert prevp != 0 && prevp in ring by {
        if i > 1 { MemberBlock(S(), i - 1); }
      }
      if hdr[p].size == n {
        ghost var s := S();
        TakeWhole(prevp, p, i);
        q := p;
        forall a | a in s.alloc ensures a in blocks { assert KnownAt(s, a); }
      } else {
        q := TakeTail(prevp, p, n, i);
      }
    }

    // the first malloc makes the static header a list of one
    method Init()
      requires Valid() && freep == 0
      modifies this`hdr, this`freep, this`ring
      ensures Valid() && freep == base && ring == [base]
    {
      hdr := hdr[base := Header(base, 0)];
      freep := base;
      ring := [base];
      assert LinkedAt(hdr, ring, 0);
      assert forall u: nat :: !Covered(blocks, u);
    }

    /** malloc's search has found the members 1 .. t - 1 steps round from freep too small and looks at p. */
    ghost predicate Searching(n: nat, prevp: nat, p: nat, f: nat, t: nat)
      reads this
    {
      && Valid() && freep != 0 && f < |ring| && ring[f] == freep && 1 <= t <= |ring|
      && p == ring[Round(|ring|, f, t)] && prevp == ring[Round(|ring|, f, t - 1)] && p in hdr
      && SmallUpTo(S(), f, t - 1, n)
    }

    // begin a lap at freep
    method StartLap(n: nat) returns (prevp: nat, p: nat, ghost f: nat)
      requires Valid() && freep != 0
      ensures Searching(n, prevp, p, f, 1)
    {
      prevp := freep;
      f :| f < |ring| && ring[f] == freep;
      assert LinkedAt(hdr, ring, f);
      p := hdr[prevp].ptr;
      assert LinkedAt(hdr, ring, Round(|ring|, f, 1));
    }

    // on to the next member
    method NextMember(n: nat, prevp: nat, p: nat, ghost f: nat, ghost t: nat) returns (next: nat)
      requires Searching(n, prevp, p, f, t) && hdr[p].size < n && p != freep
      ensures t < |ring| && Searching(n, p, next, f, t + 1)
    {
      assert LinkedAt(hdr, ring, Round(|ring|, f, t));
      next := hdr[p].ptr;
      assert SmallAt(S(), f, t, n);
      assert LinkedAt(hdr, ring, Round(|ring|, f, t + 1));
    }

    // the lap is over
    lemma LapOver(n: nat, prevp: nat, p: nat, f: nat, t: nat)
      requires Searching(n, prevp, p, f, t) && hdr[p].size < n && p == freep
      ensures !LargeEnough(S(), n)
    {
      assert t == |ring|;
      assert SmallAt(S(), f, t, n);
      LapSeesAll(S(), f, n);
    }

    // the member that the search looks at is not the static header if it is large enough
    lemma LookingAt(n: nat, prevp: nat, p: nat, f: nat, t: nat)
      requires Searching(n, prevp, p, f, t) && n > 0 && hdr[p].size >= n
      ensures var i := Round(|ring|, f, t); 1 <= i && ring[i - 1] == prevp && HasUnits(S(), i, n)
    {
      assert LinkedAt(hdr, ring, Round(|ring|, f, t));
    }

    /**
     malloc, with grant as sbrk's answer should it be asked: a block of the size asked for,
     disjoint from every block handed out before, those unchanged; or nothing, when no free
     block was large enough and sbrk refused.  The search ends, also after morecore.
     */
    method Malloc(nbytes: nat, grant: Option<nat>) returns (r: Option<nat>)
      requires Valid() && (grant.Some? ==> grant.value >= top)
      modifies this
      ensures Valid() && Kept(old(S()), S(), old(alloc))
      ensures r.None? ==> grant.None? && alloc == old(alloc) && heap == old(heap)
      ensures r.None? ==> !LargeEnough(S(), UnitsFor(nbytes))
      ensures r.Some? ==>
                && r.value >= 1 && r.value - 1 !in old(alloc) && alloc == old(alloc) + {r.value - 1}
                && r.value - 1 in blocks && blocks[r.value - 1] == UnitsFor(nbytes)
      ensures r.Some? ==> heap == old(heap) || (grant.Some? && heap == old(heap) + Grant(grant.value, UnitsFor(nbytes)))
    {
      var nunits := UnitsFor(nbytes);
      ghost var s0 := S();
      if freep == 0 {
        Init();
      }
      KeptNow(S(), s0);
      ghost var f: nat, t: nat, grown := 0, 1, false;
      var prevp, p;
      prevp, p, f := StartLap(nunits);
      while true
        invariant Searching(nunits, prevp, p, f, t)
        invariant alloc == s0.alloc && Kept(s0, S(), alloc)
        invariant grown ==> LargeEnough(S(), nunits) && grant.Some? && heap == s0.heap + Grant(grant.value, nunits)
        invariant !grown ==> heap == s0.heap && (grant.Some? ==> grant.value >= top)
        decreases if grown then 0 else 1, |ring| - t
      {
        if hdr[p].size >= nunits {
          LookingAt(nunits, prevp, p, f, t);
          p := Take(prevp, p, nunits, Round(|ring|, f, t));
          return Some(p + 1);
        }
        if p == freep {
          LapOver(nunits, prevp, p, f, t);
          var m := Morecore(nunits, grant);
          if m.None? {
            return None;
          }
          grown := true;
          prevp, p, f := StartLap(nunits);
          t := 1;
        } else {
          var next := NextMember(nunits, prevp, p, f, t);
          prevp, p, t := p, next, t + 1;
        }
      }
    }
  }

  lemma MoreIsEnough(s: State, n: nat, m: nat)
    requires LargeEnough(s, m) && n <= m
    ensures LargeEnough(s, n)
  {
    var j: nat :| HasUnits(s, j, m);
    assert HasUnits(s, j, n);
  }

  lemma KeptNow(s: State, s0: State)
    requires HeapOk(s) && s0.blocks == s.blocks && s0.alloc == s.alloc
    ensures Kept(s0, s, s.alloc)
  {
    forall a | a in s.alloc ensures a in s.blocks { assert KnownAt(s, a); }
  }
}
