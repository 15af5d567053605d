/**
 Inodes and the blocks they refer to (fs.h, fs.c:383-455).

 An inode refers to blocks from NSLOTS places: twelve direct addresses, the entries of its
 indirect block, and the indirect block itself.  `owner` inverts that relation: it maps a
 block to the one place that refers to it.  The lemmas say how the relation and the bytes of
 every file move when a block is written, allocated or freed.
 */
module Inodes {
  import opened Blocks

  const NDIRECT: nat := 12
  const NINDIRECT: nat := 128
  const MAXFILE: nat := 140      // NDIRECT + NINDIRECT
  const MAXBYTES: nat := 71680   // MAXFILE * BSIZE
  const T_DIR: nat := 1
  const T_FILE: nat := 2
  const T_DEV: nat := 3
  const INDIRECT: nat := 140     // the place of the indirect block itself
  const NSLOTS: nat := 141

  datatype Dinode = Dinode(kind: nat, major: nat, minor: nat, nlink: nat, size: nat, addrs: seq<nat>)

  datatype Place = Place(inum: nat, slot: nat)

  ghost predicate Shaped(d: Dinode) {
    |d.addrs| == NDIRECT + 1
  }

  // equal but for the block addresses
  ghost predicate SameAttributes(d: Dinode, e: Dinode) {
    d.kind == e.kind && d.major == e.major && d.minor == e.minor && d.nlink == e.nlink && d.size == e.size
  }

  ghost function Entry(data: seq<Block>, a: nat, j: nat): nat
    requires j < NINDIRECT
  {
    if a == 0 || a >= |data| then 0 else GetWord(data[a], j)
  }

  /** The block in the k-th place of an inode; 0 is none. */
  ghost function Slot(d: Dinode, data: seq<Block>, k: nat): nat
    requires Shaped(d) && k < NSLOTS
  {
    if k < NDIRECT then d.addrs[k]
    else if k == INDIRECT then d.addrs[NDIRECT]
    else Entry(data, d.addrs[NDIRECT], k - NDIRECT)
  }

  /** Byte o of the blocks of an inode; a hole reads as zeros. */
  ghost function ByteAt(d: Dinode, data: seq<Block>, o: nat): Byte
    requires Shaped(d) && o < MAXBYTES
  {
    var a := Slot(d, data, o / BSIZE);
    if a == 0 || a >= |data| then 0 else data[a][o % BSIZE]
  }

  // ---------------------------------------------------------------- ownership

  ghost predicate PlaceOk(data: seq<Block>, table: seq<Dinode>, owner: map<nat, Place>, i: nat, k: nat)
    requires i < |table| && Shaped(table[i]) && k < NSLOTS
  {
    var b := Slot(table[i], data, k);
    b != 0 ==> b in owner && owner[b] == Place(i, k)
  }

  ghost predicate OwnerOk(lo: nat, data: seq<Block>, table: seq<Dinode>, owner: map<nat, Place>, b: nat)
    requires b in owner
  {
    var p := owner[b];
    && 0 < lo <= b < |data| && p.inum < |table| && p.slot < NSLOTS
    && Shaped(table[p.inum]) && Slot(table[p.inum], data, p.slot) == b
  }

  /** Every data block is referred to from at most one place of one inode, which owner names. */
  ghost predicate Owned(lo: nat, data: seq<Block>, table: seq<Dinode>, owner: map<nat, Place>) {
    && (forall i :: 0 <= i < |table| ==> Shaped(table[i]))
    && (forall i: nat, k: nat {:trigger PlaceOk(data, table, owner, i, k)} ::
          i < |table| && k < NSLOTS ==> PlaceOk(data, table, owner, i, k))
    && (forall b: nat {:trigger OwnerOk(lo, data, table, owner, b)} ::
          b in owner ==> OwnerOk(lo, data, table, owner, b))
  }

  /** No block is referred to twice, over all inodes and indirect blocks. */
  lemma NoSharing(lo: nat, data: seq<Block>, table: seq<Dinode>, owner: map<nat, Place>, p: Place, q: Place)
    requires Owned(lo, data, table, owner)
    requires p.inum < |table| && q.inum < |table| && p.slot < NSLOTS && q.slot < NSLOTS
    requires Slot(table[p.inum], data, p.slot) == Slot(table[q.inum], data, q.slot) != 0
    ensures p == q
  {
    assert PlaceOk(data, table, owner, p.inum, p.slot) && PlaceOk(data, table, owner, q.inum, q.slot);
  }

  lemma IndirectOwner(lo: nat, data: seq<Block>, table: seq<Dinode>, owner: map<nat, Place>, i: nat)
    requires Owned(lo, data, table, owner) && i < |table|
    ensures var a := table[i].addrs[NDIRECT]; a == 0
                                              || (a in owner && owner[a] == Place(i, INDIRECT) && lo <= a < |data|)
  {
    var a := table[i].addrs[NDIRECT];
    assert PlaceOk(data, table, owner, i, INDIRECT);
    assert a in owner ==> OwnerOk(lo, data, table, owner, a);
  }

  lemma SlotInRange(lo: nat, data: seq<Block>, table: seq<Dinode>, owner: map<nat, Place>, i: nat, k: nat)
    requires Owned(lo, data, table, owner) && i < |table| && k < NSLOTS
    ensures var b := Slot(table[i], data, k); b == 0 || (0 < lo <= b < |data| && b in owner && owner[b] == Place(i, k))
  {
    var b := Slot(table[i], data, k);
    assert PlaceOk(data, table, owner, i, k);
    assert b in owner ==> OwnerOk(lo, data, table, owner, b);
  }

  // ---------------------------------------------------------------- writing a block

  // a block that is not an inode's indirect block can change without moving any slot
  lemma SlotStable(lo: nat, data: seq<Block>, table: seq<Dinode>, owner: map<nat, Place>, b: nat, x: Block, i: nat,
                   k: nat)
    requires Owned(lo, data, table, owner) && b < |data| && i < |table| && k < NSLOTS
    requires b in owner ==> owner[b].slot != INDIRECT
    ensures Slot(table[i], data[b := x], k) == Slot(table[i], data, k)
  {
    IndirectOwner(lo, data, table, owner, i);
  }

  lemma DataWriteOwned(lo: nat, data: seq<Block>, table: seq<Dinode>, owner: map<nat, Place>, b: nat, x: Block)
    requires Owned(lo, data, table, owner) && b < |data|
    requires b in owner ==> owner[b].slot != INDIRECT
    ensures Owned(lo, data[b := x], table, owner)
  {
    var data' := data[b := x];
    forall i: nat, k: nat | i < |table| && k < NSLOTS ensures PlaceOk(data', table, owner, i, k) {
      assert PlaceOk(data, table, owner, i, k);
      SlotStable(lo, data, table, owner, b, x, i, k);
    }
    forall c | c in owner ensures OwnerOk(lo, data', table, owner, c) {
      assert OwnerOk(lo, data, table, owner, c);
      SlotStable(lo, data, table, owner, b, x, owner[c].inum, owner[c].slot);
    }
  }

  // and it shows in the bytes of its owner's file at its place, and nowhere else
  lemma DataWriteBytes(lo: nat, data: seq<Block>, table: seq<Dinode>, owner: map<nat, Place>, b: nat, x: Block, i: nat,
                       o: nat)
    requires Owned(lo, data, table, owner) && b < |data| && i < |table| && o < MAXBYTES
    requires b in owner ==> owner[b].slot != INDIRECT
    ensures ByteAt(table[i], data[b := x], o) ==
            if b in owner && owner[b] == Place(i, o / BSIZE) then x[o % BSIZE] else ByteAt(table[i], data, o)
  {
    var k := o / BSIZE;
    SlotStable(lo, data, table, owner, b, x, i, k);
    assert PlaceOk(data, table, owner, i, k);
    assert b in owner ==> OwnerOk(lo, data, table, owner, b);
  }

  // ---------------------------------------------------------------- filling an empty place

  // the inode table after block b, fresh and zeroed, has been put into place k of inode i
  ghost predicate Filled(lo: nat, data: seq<Block>, table: seq<Dinode>, owner: map<nat, Place>, i: nat, k: nat, b: nat,
                         data': seq<Block>, d: Dinode)
  {
    && Owned(lo, data, table, owner) && i < |table| && k < NSLOTS
    && Slot(table[i], data, k) == 0 && b !in owner && 0 < lo <= b < |data| == |data'| && data'[b] == ZeroBlock
    && Shaped(d) && SameAttributes(d, table[i])
    && if k < NDIRECT then data' == data && d.addrs == table[i].addrs[k := b]
       else if k == INDIRECT then data' == data && d.addrs == table[i].addrs[NDIRECT := b]
       else
         && 0 < table[i].addrs[NDIRECT] < |data| && d == table[i] && b < UINT_LIMIT
         && data' == data[table[i].addrs[NDIRECT] := SetWord(data[table[i].addrs[NDIRECT]], k - NDIRECT, b)]
  }

  lemma FilledSlot(lo: nat, data: seq<Block>, table: seq<Dinode>, owner: map<nat, Place>, i: nat, k: nat, b: nat,
                   data': seq<Block>, d: Dinode, j: nat, l: nat)
    requires Filled(lo, data, table, owner, i, k, b, data', d) && j < |table| && l < NSLOTS
    ensures Slot(table[i := d][j], data', l) == if j == i && l == k then b else Slot(table[j], data, l)
  {
    IndirectOwner(lo, data, table, owner, i);
    IndirectOwner(lo, data, table, owner, j);
    if k == INDIRECT && NDIRECT <= l < INDIRECT {
      ZeroWord(l - NDIRECT);
    }
  }

  lemma FilledOwned(lo: nat, data: seq<Block>, table: seq<Dinode>, owner: map<nat, Place>, i: nat, k: nat, b: nat,
                    data': seq<Block>, d: Dinode)
    requires Filled(lo, data, table, owner, i, k, b, data', d)
    ensures Owned(lo, data', table[i := d], owner[b := Place(i, k)])
  {
    var table', owner' := table[i := d], owner[b := Place(i, k)];
    forall j: nat, l: nat | j < |table'| && l < NSLOTS ensures PlaceOk(data', table', owner', j, l) {
      FilledSlot(lo, data, table, owner, i, k, b, data', d, j, l);
      assert PlaceOk(data, table, owner, j, l);
    }
    forall c | c in owner' ensures OwnerOk(lo, data', table', owner', c) {
      assert c != b ==> OwnerOk(lo, data, table, owner, c);
      FilledSlot(lo, data, table, owner, i, k, b, data', d, owner'[c].inum, owner'[c].slot);
    }
  }

  /** Allocation shows in no file: the place read as zeros before and does after. */
  lemma FilledBytes(lo: nat, data: seq<Block>, table: seq<Dinode>, owner: map<nat, Place>, i: nat, k: nat, b: nat,
                    data': seq<Block>, d: Dinode, j: nat, o: nat)
    requires Filled(lo, data, table, owner, i, k, b, data', d) && j < |table| && o < MAXBYTES
    ensures ByteAt(table[i := d][j], data', o) == ByteAt(table[j], data, o)
  {
    var l := o / BSIZE;
    FilledSlot(lo, data, table, owner, i, k, b, data', d, j, l);
    assert PlaceOk(data, table, owner, j, l);
    IndirectOwner(lo, data, table, owner, i);
  }

  // ---------------------------------------------------------------- files as byte sequences

  ghost predicate SameByte(data: seq<Block>, table: seq<Dinode>, data': seq<Block>, table': seq<Dinode>, j: nat, o: nat)
    requires j < |table| && j < |table'| && Shaped(table[j]) && Shaped(table'[j]) && o < MAXBYTES
  {
    ByteAt(table'[j], data', o) == ByteAt(table[j], data, o)
  }

  ghost predicate AllShaped(table: seq<Dinode>) {
    forall i :: 0 <= i < |table| ==> Shaped(table[i])
  }

  /** No file, not even beyond its size, has changed. */
  ghost predicate SameFiles(data: seq<Block>, table: seq<Dinode>, data': seq<Block>, table': seq<Dinode>) {
    && |table| == |table'| && AllShaped(table) && AllShaped(table')
    && forall j: nat, o: nat {:trigger SameByte(data, table, data', table', j, o)} ::
         j < |table| && o < MAXBYTES ==> SameByte(data, table, data', table', j, o)
  }

  ghost predicate SameSlot(data: seq<Block>, table: seq<Dinode>, data': seq<Block>, table': seq<Dinode>, j: nat, l: nat)
    requires j < |table| && j < |table'| && Shaped(table[j]) && Shaped(table'[j]) && l < NSLOTS
  {
    Slot(table'[j], data', l) == Slot(table[j], data, l)
  }

  /** No place but those in except refers to another block than before. */
  ghost predicate SlotsKept(data: seq<Block>, table: seq<Dinode>, data': seq<Block>, table': seq<Dinode>,
                            except: set<Place>) {
    && |table| == |table'| && AllShaped(table) && AllShaped(table')
    && forall j: nat, l: nat {:trigger SameSlot(data, table, data', table', j, l)} ::
         j < |table| && l < NSLOTS && Place(j, l) !in except ==> SameSlot(data, table, data', table', j, l)
  }

  lemma SlotsKeptTrans(d0: seq<Block>, t0: seq<Dinode>, d1: seq<Block>, t1: seq<Dinode>, d2: seq<Block>,
                       t2: seq<Dinode>, e: set<Place>, f: set<Place>)
    requires SlotsKept(d0, t0, d1, t1, e) && SlotsKept(d1, t1, d2, t2, f)
    ensures SlotsKept(d0, t0, d2, t2, e + f)
  {
    forall j: nat, l: nat | j < |t0| && l < NSLOTS && Place(j, l) !in e + f ensures SameSlot(d0, t0, d2, t2, j, l) {
      assert SameSlot(d0, t0, d1, t1, j, l) && SameSlot(d1, t1, d2, t2, j, l);
    }
  }

  lemma SameFilesTrans(d0: seq<Block>, t0: seq<Dinode>, d1: seq<Block>, t1: seq<Dinode>, d2: seq<Block>,
                       t2: seq<Dinode>)
    requires SameFiles(d0, t0, d1, t1) && SameFiles(d1, t1, d2, t2)
    ensures SameFiles(d0, t0, d2, t2)
  {
    forall j: nat, o: nat | j < |t0| && o < MAXBYTES ensures SameByte(d0, t0, d2, t2, j, o) {
      assert SameByte(d0, t0, d1, t1, j, o) && SameByte(d1, t1, d2, t2, j, o);
    }
  }

  lemma FilledSameFiles(lo: nat, data: seq<Block>, table: seq<Dinode>, owner: map<nat, Place>, i: nat, k: nat, b: nat,
                        data': seq<Block>, d: Dinode)
    requires Filled(lo, data, table, owner, i, k, b, data', d)
    ensures SameFiles(data, table, data', table[i := d])
  {
    var table' := table[i := d];
    forall j: nat, o: nat | j < |table| && o < MAXBYTES
      ensures SameByte(data, table, data', table', j, o)
    {
      FilledBytes(lo, data, table, owner, i, k, b, data', d, j, o);
    }
  }

  lemma FilledSlotsKept(lo: nat, data: seq<Block>, table: seq<Dinode>, owner: map<nat, Place>, i: nat, k: nat, b: nat,
                        data': seq<Block>, d: Dinode)
    requires Filled(lo, data, table, owner, i, k, b, data', d)
    ensures SlotsKept(data, table, data', table[i := d], {Place(i, k)})
    ensures Slot(d, data', k) == b
  {
    var table' := table[i := d];
    FilledSlot(lo, data, table, owner, i, k, b, data', d, i, k);
    forall j: nat, l: nat | j < |table| && l < NSLOTS && Place(j, l) !in {Place(i, k)}
      ensures SameSlot(data, table, data', table', j, l)
    {
      FilledSlot(lo, data, table, owner, i, k, b, data', d, j, l);
    }
  }

  // zeroing a block that nobody owns
  lemma ZeroUnowned(lo: nat, data: seq<Block>, table: seq<Dinode>, owner: map<nat, Place>, b: nat)
    requires Owned(lo, data, table, owner) && b < |data| && b !in owner
    ensures Owned(lo, data[b := ZeroBlock], table, owner)
    ensures SameFiles(data, table, data[b := ZeroBlock], table)
    ensures SlotsKept(data, table, data[b := ZeroBlock], table, {})
  {
    var data' := data[b := ZeroBlock];
    DataWriteOwned(lo, data, table, owner, b, ZeroBlock);
    forall j: nat, o: nat | j < |table| && o < MAXBYTES
      ensures SameByte(data, table, data', table, j, o)
    {
      DataWriteBytes(lo, data, table, owner, b, ZeroBlock, j, o);
    }
    forall i: nat, k: nat | i < |table| && k < NSLOTS ensures SameSlot(data, table, data', table, i, k) {
      SlotStable(lo, data, table, owner, b, ZeroBlock, i, k);
    }
  }

  // what putting block b into place k does to the inode, and to the blocks
  function FillInode(d: Dinode, k: nat, b: nat): Dinode
    requires |d.addrs| == NDIRECT + 1 && k < NSLOTS
  {
    if k < NDIRECT then d.(addrs := d.addrs[k := b])
    else if k == INDIRECT then d.(addrs := d.addrs[NDIRECT := b])
    else d
  }

  function FillData(d: Dinode, data: seq<Block>, k: nat, b: nat): seq<Block>
    requires |d.addrs| == NDIRECT + 1 && k < NSLOTS && b < UINT_LIMIT
    requires NDIRECT <= k < INDIRECT ==> d.addrs[NDIRECT] < |data|
  {
    if NDIRECT <= k < INDIRECT then
      data[d.addrs[NDIRECT] := SetWord(data[d.addrs[NDIRECT]], k - NDIRECT, b)]
    else data
  }

  // an empty place of inode i, and a free block for it
  ghost predicate Fillable(lo: nat, data: seq<Block>, table: seq<Dinode>, owner: map<nat, Place>, i: nat, k: nat,
                           b: nat) {
    && Owned(lo, data, table, owner) && i < |table| && k < NSLOTS && Slot(table[i], data, k) == 0
    && 0 < lo <= b < |data| && b < UINT_LIMIT && b !in owner
    && (NDIRECT <= k < INDIRECT ==> 0 < table[i].addrs[NDIRECT] < |data|)
  }

  lemma FillableFills(lo: nat, data: seq<Block>, table: seq<Dinode>, owner: map<nat, Place>, i: nat, k: nat, b: nat)
    requires Fillable(lo, data, table, owner, i, k, b)
    ensures var d1 := data[b := ZeroBlock];
            Filled(lo, d1, table, owner, i, k, b, FillData(table[i], d1, k, b), FillInode(table[i], k, b))
  {
    ZeroUnowned(lo, data, table, owner, b);
    SlotStable(lo, data, table, owner, b, ZeroBlock, i, k);
    IndirectOwner(lo, data, table, owner, i);
  }

  /**
   From blocks, inodes and owners to primed ones, the empty place k of inode i has been filled
   with the free block b: ownership holds, nothing else moved, and no file changed.
   */
  ghost predicate Grew(lo: nat, data: seq<Block>, table: seq<Dinode>, owner: map<nat, Place>,
                       data': seq<Block>, table': seq<Dinode>, owner': map<nat, Place>, i: nat, k: nat, b: nat)
  {
    && Owned(lo, data', table', owner') && b !in owner && owner' == owner[b := Place(i, k)]
    && SameFiles(data, table, data', table') && SlotsKept(data, table, data', table', {Place(i, k)})
    && i < |table| && k < NSLOTS && lo <= b < |data| == |data'|
    && Slot(table[i], data, k) == 0 && Slot(table'[i], data', k) == b
    && table' == table[i := table'[i]] && SameAttributes(table'[i], table[i])
  }

  lemma AllocFill(lo: nat, data: seq<Block>, table: seq<Dinode>, owner: map<nat, Place>, i: nat, k: nat, b: nat,
                  data': seq<Block>, table': seq<Dinode>)
    requires Fillable(lo, data, table, owner, i, k, b)
    requires data' == FillData(table[i], data[b := ZeroBlock], k, b)
    requires table' == table[i := FillInode(table[i], k, b)]
    ensures Grew(lo, data, table, owner, data', table', owner[b := Place(i, k)], i, k, b)
  {
    var d1, d := data[b := ZeroBlock], FillInode(table[i], k, b);
    ZeroUnowned(lo, data, table, owner, b);
    FillableFills(lo, data, table, owner, i, k, b);
    FilledOwned(lo, d1, table, owner, i, k, b, data', d);
    FilledSameFiles(lo, d1, table, owner, i, k, b, data', d);
    FilledSlotsKept(lo, d1, table, owner, i, k, b, data', d);
    SameFilesTrans(data, table, d1, table, data', table');
    SlotsKeptTrans(data, table, d1, table, data', table', {}, {Place(i, k)});
    assert {} + {Place(i, k)} == {Place(i, k)};
  }

  // a place keeps its block, or is one of the places in grown and was empty
  ghost predicate KeptOrFilled(d0: seq<Block>, t0: seq<Dinode>, d1: seq<Block>, t1: seq<Dinode>, grown: set<Place>,
                               j: nat, l: nat)
    requires j < |t0| && j < |t1| && Shaped(t0[j]) && Shaped(t1[j]) && l < NSLOTS
  {
    SameSlot(d0, t0, d1, t1, j, l) || (Place(j, l) in grown && Slot(t0[j], d0, l) == 0)
  }

  /** The files are those of before, and at most inode i gained blocks in empty places of grown. */
  ghost predicate Mapped(d0: seq<Block>, t0: seq<Dinode>, d1: seq<Block>, t1: seq<Dinode>, i: nat, grown: set<Place>) {
    && i < |t0| == |t1| && t1 == t0[i := t1[i]] && SameAttributes(t1[i], t0[i]) && |d0| == |d1|
    && SameFiles(d0, t0, d1, t1)
    && forall j: nat, l: nat {:trigger KeptOrFilled(d0, t0, d1, t1, grown, j, l)} ::
         j < |t0| && l < NSLOTS ==> KeptOrFilled(d0, t0, d1, t1, grown, j, l)
  }

  lemma NothingMapped(d0: seq<Block>, t0: seq<Dinode>, i: nat, grown: set<Place>)
    requires AllShaped(t0) && i < |t0|
    ensures Mapped(d0, t0, d0, t0, i, grown)
  {
    forall j: nat, o: nat | j < |t0| && o < MAXBYTES ensures SameByte(d0, t0, d0, t0, j, o) {}
    forall j: nat, l: nat | j < |t0| && l < NSLOTS ensures KeptOrFilled(d0, t0, d0, t0, grown, j, l) {
      assert SameSlot(d0, t0, d0, t0, j, l);
    }
  }

  lemma GrewMapped(lo: nat, d0: seq<Block>, t0: seq<Dinode>, o0: map<nat, Place>, d1: seq<Block>, t1: seq<Dinode>,
                   o1: map<nat, Place>, i: nat, k: nat, b: nat, grown: set<Place>)
    requires Grew(lo, d0, t0, o0, d1, t1, o1, i, k, b) && Place(i, k) in grown
    ensures Mapped(d0, t0, d1, t1, i, grown)
  {
    forall j: nat, l: nat | j < |t0| && l < NSLOTS ensures KeptOrFilled(d0, t0, d1, t1, grown, j, l) {
      if Place(j, l) !in {Place(i, k)} {
        assert SameSlot(d0, t0, d1, t1, j, l);
      }
    }
  }

  lemma MappedTrans(d0: seq<Block>, t0: seq<Dinode>, d1: seq<Block>, t1: seq<Dinode>, d2: seq<Block>, t2: seq<Dinode>,
                    i: nat, grown: set<Place>)
    requires Mapped(d0, t0, d1, t1, i, grown) && Mapped(d1, t1, d2, t2, i, grown)
    ensures Mapped(d0, t0, d2, t2, i, grown)
  {
    SameFilesTrans(d0, t0, d1, t1, d2, t2);
    forall j: nat, l: nat | j < |t0| && l < NSLOTS ensures KeptOrFilled(d0, t0, d2, t2, grown, j, l) {
      assert KeptOrFilled(d0, t0, d1, t1, grown, j, l) && KeptOrFilled(d1, t1, d2, t2, grown, j, l);
    }
  }

  /** The contents of a file. */
  ghost function Content(d: Dinode, data: seq<Block>): seq<Byte>
    requires Shaped(d) && d.size <= MAXBYTES
  {
    seq(d.size, o requires 0 <= o < d.size => ByteAt(d, data, o))
  }

  ghost function BlockCount(size: nat): nat {
    (size + BSIZE - 1) / BSIZE
  }

  /** Every block below the end of the file is allocated. */
  ghost predicate NoHoles(d: Dinode, data: seq<Block>)
    requires Shaped(d)
  {
    && d.size <= MAXBYTES
    && forall k: nat :: k < BlockCount(d.size) ==> Slot(d, data, k) != 0
  }

  ghost predicate AllNoHoles(data: seq<Block>, table: seq<Dinode>) {
    AllShaped(table) && forall i :: 0 <= i < |table| ==> NoHoles(table[i], data)
  }

  // an empty file has no holes
  lemma EmptiedHoles(data: seq<Block>, table: seq<Dinode>, i: nat, d: Dinode)
    requires AllNoHoles(data, table) && i < |table| && Shaped(d) && d.size == 0
    ensures AllNoHoles(data, table[i := d])
  {
  }

  // ---------------------------------------------------------------- giving blocks up

  ghost function WithoutInode(owner: map<nat, Place>, i: nat): map<nat, Place> {
    map b | b in owner && owner[b].inum != i :: owner[b]
  }

  ghost predicate NoAddrs(d: Dinode) {
    Shaped(d) && forall k :: 0 <= k <= NDIRECT ==> d.addrs[k] == 0
  }

  lemma TruncateOwned(lo: nat, data: seq<Block>, table: seq<Dinode>, owner: map<nat, Place>, i: nat, d: Dinode)
    requires Owned(lo, data, table, owner) && i < |table| && NoAddrs(d)
    ensures Owned(lo, data, table[i := d], WithoutInode(owner, i))
  {
    var table', owner' := table[i := d], WithoutInode(owner, i);
    forall j: nat, l: nat | j < |table'| && l < NSLOTS ensures PlaceOk(data, table', owner', j, l) {
      assert PlaceOk(data, table, owner, j, l);
    }
    forall c | c in owner' ensures OwnerOk(lo, data, table', owner', c) {
      assert OwnerOk(lo, data, table, owner, c);
    }
  }

  /** The blocks of inode i in its first k places. */
  ghost function BlocksUpTo(owner: map<nat, Place>, i: nat, k: nat): set<nat> {
    set b | b in owner && owner[b].inum == i && owner[b].slot < k
  }

  lemma BlocksStep(lo: nat, data: seq<Block>, table: seq<Dinode>, owner: map<nat, Place>, i: nat, k: nat)
    requires Owned(lo, data, table, owner) && i < |table| && k < NSLOTS
    ensures var b := Slot(table[i], data, k);
            && BlocksUpTo(owner, i, k + 1) == BlocksUpTo(owner, i, k) + (if b == 0 then {} else {b})
            && b !in BlocksUpTo(owner, i, k)
  {
    var b, more := Slot(table[i], data, k), BlocksUpTo(owner, i, k + 1);
    SlotInRange(lo, data, table, owner, i, k);
    assert 0 in owner ==> OwnerOk(lo, data, table, owner, 0);
    forall c: nat ensures c in more <==> c in BlocksUpTo(owner, i, k) || (b != 0 && c == b) {
      assert c in owner ==> OwnerOk(lo, data, table, owner, c);
    }
    assert more == BlocksUpTo(owner, i, k) + if b == 0 then {} else {b};
  }

  lemma BlocksAll(lo: nat, data: seq<Block>, table: seq<Dinode>, owner: map<nat, Place>, i: nat)
    requires Owned(lo, data, table, owner)
    ensures WithoutInode(owner, i).Keys == owner.Keys - BlocksUpTo(owner, i, NSLOTS)
    ensures forall b :: b in BlocksUpTo(owner, i, NSLOTS) ==> lo <= b < |data|
  {
    forall c | c in owner ensures owner[c].slot < NSLOTS && lo <= c < |data| {
      assert OwnerOk(lo, data, table, owner, c);
    }
  }

  // an inode without addresses owns nothing
  lemma NothingLeft(lo: nat, data: seq<Block>, table: seq<Dinode>, owner: map<nat, Place>, i: nat)
    requires Owned(lo, data, table, owner) && i < |table| && NoAddrs(table[i])
    ensures WithoutInode(owner, i) == owner
  {
    forall c | c in owner ensures owner[c].inum != i {
      assert OwnerOk(lo, data, table, owner, c);
    }
  }

  // the size of an inode has no part in ownership
  lemma ResizeOwned(lo: nat, data: seq<Block>, table: seq<Dinode>, owner: map<nat, Place>, i: nat, s: nat)
    requires Owned(lo, data, table, owner) && i < |table|
    ensures Owned(lo, data, table[i := table[i].(size := s)], owner)
  {
    var t := table[i := table[i].(size := s)];
    forall j: nat, l: nat | j < |t| && l < NSLOTS ensures PlaceOk(data, t, owner, j, l) {
      assert PlaceOk(data, table, owner, j, l);
    }
    forall b | b in owner ensures OwnerOk(lo, data, t, owner, b) {
      assert OwnerOk(lo, data, table, owner, b);
    }
  }

  // nor have its links and device numbers
  lemma RelabelOwned(lo: nat, data: seq<Block>, table: seq<Dinode>, owner: map<nat, Place>, i: nat, d: Dinode)
    requires Owned(lo, data, table, owner) && i < |table| && d.addrs == table[i].addrs
    ensures Owned(lo, data, table[i := d], owner)
  {
    var t := table[i := d];
    forall j: nat, l: nat | j < |t| && l < NSLOTS ensures PlaceOk(data, t, owner, j, l) {
      assert PlaceOk(data, table, owner, j, l);
    }
    forall b | b in owner ensures OwnerOk(lo, data, t, owner, b) {
      assert OwnerOk(lo, data, table, owner, b);
    }
  }

  lemma RelabelContent(d: Dinode, e: Dinode, data: seq<Block>)
    requires Shaped(d) && e.addrs == d.addrs && e.size == d.size
    ensures d.size <= MAXBYTES ==> Content(e, data) == Content(d, data)
    ensures NoHoles(d, data) ==> NoHoles(e, data)
  {
    assert forall k: nat :: k < NSLOTS ==> Slot(e, data, k) == Slot(d, data, k);
  }
}
