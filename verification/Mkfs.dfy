/**
 mkfs.c: the initial file-system image.  Blocks are handed out in order from the first data
 block and inodes from 1; the bit map is written last.
 */
module Mkfs {
  import opened Blocks
  import opened Inodes
  import opened Bitmap
  import opened FileBytes
  import opened Files
  import opened Dirs

  const ROOTINO: nat := 1

  datatype Input = Input(name: seq<Byte>, contents: seq<Byte>)

  // strncpy into a zeroed struct dirent
  function DirentBytes(inum: nat, name: seq<Byte>): (b: seq<Byte>)
    requires inum < 0x1_0000
    ensures |b| == ENTRY
  {
    Encode(Dirent(inum, Cut(name)))
  }

  /** What the root directory lists: itself twice, then the files in order. */
  function RootBytes(files: seq<Input>): (b: seq<Byte>)
    requires |files| < 65000
    ensures |b| == ENTRY * (|files| + 2)
  {
    if files == [] then DirentBytes(ROOTINO, [46]) + DirentBytes(ROOTINO, [46, 46])
    else RootBytes(files[..|files| - 1]) + DirentBytes(|files| + 1, files[|files| - 1].name)
  }

  lemma RootNext(files: seq<Input>, k: nat)
    requires k < |files| < 65000
    ensures |RootBytes(files[..k])| == ENTRY * (k + 2)
    ensures RootBytes(files[..k + 1]) == RootBytes(files[..k]) + DirentBytes(k + 2, files[k].name)
  {
    assert files[..k + 1][..k] == files[..k];
  }

  // the root directory or a file does not fit into an inode
  predicate TooLarge(files: seq<Input>) {
    ENTRY * (|files| + 2) > MAXBYTES || exists k :: 0 <= k < |files| && |files[k].contents| > MAXBYTES
  }

  function RootList(files: seq<Input>): (es: seq<Dirent>)
    ensures |es| == |files| + 2
  {
    if files == [] then [Dirent(ROOTINO, [46]), Dirent(ROOTINO, [46, 46])]
    else RootList(files[..|files| - 1]) + [Dirent(|files| + 1, Cut(files[|files| - 1].name))]
  }

  lemma AppendEntry(c: seq<Byte>, k: nat, e: Dirent)
    requires |c| == 16 * k && e.inum < 0x1_0000 && |e.name| <= DIRSIZ && 0 !in e.name
    ensures |c + Encode(e)| == 16 * (k + 1) && Entries(c + Encode(e)) == Entries(c) + [e]
  {
    WriteEntry(c, k, e);
    assert Splice(c, 16 * k, Encode(e)) == c + Encode(e);
  }

  /** The root directory that mkfs writes has an entry for each file, as dirlookup reads it. */
  lemma {:induction false} RootEntries(files: seq<Input>)
    requires |files| < 65000 && forall k :: 0 <= k < |files| ==> 0 !in files[k].name
    ensures |RootBytes(files)| % ENTRY == 0 && Entries(RootBytes(files)) == RootList(files)
  {
    if files == [] {
      AppendEntry([], 0, Dirent(ROOTINO, [46]));
      AppendEntry([] + Encode(Dirent(ROOTINO, [46])), 1, Dirent(ROOTINO, [46, 46]));
      assert Entries([]) == [] && [] + Encode(Dirent(ROOTINO, [46])) == DirentBytes(ROOTINO, [46]);
    } else {
      RootEntries(files[..|files| - 1]);
      AppendEntry(RootBytes(files[..|files| - 1]), |files| + 1, Dirent(|files| + 1, Cut(files[|files| - 1].name)));
    }
  }

  /** No block beyond the end is allocated, and no indirect block without need. */
  ghost predicate NoExtra(d: Dinode, data: seq<Block>, reach: nat)
    requires Shaped(d)
  {
    && (forall k: nat :: k < MAXFILE && k >= BlockCount(reach) ==> Slot(d, data, k) == 0)
    && (BlockCount(reach) <= NDIRECT ==> Slot(d, data, INDIRECT) == 0)
  }

  // ---------------------------------------------------------------- how many blocks it takes

  /** The blocks of a file of the given size, its indirect block included. */
  ghost function Cost(size: nat): nat {
    BlockCount(size) + if BlockCount(size) > NDIRECT then 1 else 0
  }

  lemma CostGrows(a: nat, b: nat)
    requires a <= b
    ensures Cost(a) <= Cost(b)
  {
  }

  /** n bytes more for a file of the given size, when the blocks from free on are free. */
  ghost predicate Fits(sb: Super, free: nat, size: nat, n: nat) {
    size + n <= MAXBYTES && free + Cost(size + n) <= sb.size + Cost(size)
  }

  // appended piece by piece: what does not fit in part does not fit
  lemma FitsInPart(sb: Super, free: nat, done: nat, m: nat, n: nat, free': nat)
    requires free' == free + Cost(done) && done + m <= n && Fits(sb, free, 0, n)
    ensures Fits(sb, free', done, m)
  {
    CostGrows(done + m, n);
  }

  // what the block that holds byte off costs, at the end of a file
  ghost function Need(off: nat): nat {
    (if off / BSIZE >= BlockCount(off) then 1 else 0)
    + (if off / BSIZE >= NDIRECT && BlockCount(off) <= NDIRECT then 1 else 0)
  }

  lemma CostStep(off: nat, m: nat)
    requires BlockCount(off + m) == off / BSIZE + 1
    ensures Cost(off + m) == Cost(off) + Need(off)
  {
  }

  ghost function FilesCost(files: seq<Input>): nat {
    if files == [] then 0 else FilesCost(files[..|files| - 1]) + Cost(|files[|files| - 1].contents|)
  }

  /** The first free block once the root directory and the files are in the image. */
  ghost function End(sb: Super, files: seq<Input>): nat {
    sb.datastart + Cost(ENTRY * (|files| + 2)) + FilesCost(files)
  }

  // and with the entry of file k, before its contents
  ghost function ListedEnd(sb: Super, files: seq<Input>, k: nat): nat
    requires k < |files|
  {
    sb.datastart + Cost(ENTRY * (k + 3)) + FilesCost(files[..k])
  }

  lemma EndNext(sb: Super, files: seq<Input>, k: nat)
    requires k < |files|
    ensures ListedEnd(sb, files, k) + Cost(ENTRY * (k + 2)) == End(sb, files[..k]) + Cost(ENTRY * (k + 3))
    ensures End(sb, files[..k]) <= ListedEnd(sb, files, k)
    ensures End(sb, files[..k + 1]) == ListedEnd(sb, files, k) + Cost(|files[k].contents|)
  {
    assert files[..k + 1][..k] == files[..k];
    CostGrows(ENTRY * (k + 2), ENTRY * (k + 3));
  }

  // what the entry of file k does to the root directory, in these terms
  lemma EntryFits(sb: Super, files: seq<Input>, k: nat, size: nat, free': nat)
    requires k < |files| && size == ENTRY * (k + 2)
    ensures Fits(sb, End(sb, files[..k]), size, ENTRY) <==>
              size + ENTRY <= MAXBYTES && ListedEnd(sb, files, k) <= sb.size
    ensures free' + Cost(size) == End(sb, files[..k]) + Cost(size + ENTRY) ==> free' == ListedEnd(sb, files, k)
  {
    assert size + ENTRY == ENTRY * (k + 3);
    EndNext(sb, files, k);
  }

  lemma {:induction false} EndGrows(sb: Super, files: seq<Input>, k: nat)
    requires k <= |files|
    ensures End(sb, files[..k]) <= End(sb, files)
    decreases |files| - k
  {
    if k == |files| {
      assert files[..k] == files;
    } else {
      EndNext(sb, files, k);
      EndGrows(sb, files, k + 1);
    }
  }

  /** An image under construction: blocks from free on are blank and nobody's, those before are owned. */
  ghost predicate Image(sb: Super, data: seq<Block>, table: seq<Dinode>, owner: map<nat, Place>, free: nat) {
    && sb.Valid() && |data| == sb.size && |table| == sb.ninodes && sb.datastart <= free <= sb.size
    && Owned(sb.datastart, data, table, owner)
    && (forall b: nat :: b in owner <==> sb.datastart <= b < free)
    && (forall b: nat :: free <= b < sb.size ==> data[b] == ZeroBlock)
  }

  ghost predicate IsBlank(d: Dinode) {
    d.kind == 0 && d.nlink == 0 && d.size == 0 && NoAddrs(d)
  }

  ghost predicate ExactFiles(data: seq<Block>, table: seq<Dinode>) {
    AllNoHoles(data, table) && forall i :: 0 <= i < |table| ==> NoExtra(table[i], data, table[i].size)
  }

  ghost predicate TailZero(data: seq<Block>, table: seq<Dinode>, i: nat, o: nat)
    requires i < |table| && Shaped(table[i]) && o < MAXBYTES
  {
    o >= table[i].size ==> ByteAt(table[i], data, o) == 0
  }

  /** Behind the end of a file there are zeros. */
  ghost predicate ZeroTails(data: seq<Block>, table: seq<Dinode>) {
    && AllShaped(table)
    && forall i: nat, o: nat {:trigger TailZero(data, table, i, o)} ::
         i < |table| && o < MAXBYTES ==> TailZero(data, table, i, o)
  }

  // an appended file has them, and so have the others
  lemma TailsKept(d0: seq<Block>, t0: seq<Dinode>, d: seq<Block>, t: seq<Dinode>, i: nat, src: seq<Byte>)
    requires ZeroTails(d0, t0) && i < |t0| && Written(d0, t0, d, t, i, t0[i].size, src, |src|)
    requires t[i].size == t0[i].size + |src| && forall j :: 0 <= j < |t| && j != i ==> t[j] == t0[j]
    ensures ZeroTails(d, t)
  {
    forall j: nat, o: nat | j < |t| && o < MAXBYTES ensures TailZero(d, t, j, o) {
      assert TailZero(d0, t0, j, o) && WrittenAt(d0, t0, d, t, i, t0[i].size, src, |src|, j, o);
    }
  }

  // a new inode has nothing behind its end
  lemma TailsNew(d: seq<Block>, t: seq<Dinode>, i: nat, x: Dinode)
    requires ZeroTails(d, t) && i < |t| && NoAddrs(x)
    ensures ZeroTails(d, t[i := x])
  {
    var t' := t[i := x];
    forall j: nat, o: nat | j < |t| && o < MAXBYTES ensures TailZero(d, t', j, o) {
      assert TailZero(d, t, j, o);
    }
  }

  lemma BlankZero(data: seq<Block>, b: nat)
    requires b < |data| && data[b] == ZeroBlock
    ensures data[b := ZeroBlock] == data
  {
  }

  // an empty place filled with the next free block
  lemma TakeNext(sb: Super, data: seq<Block>, table: seq<Dinode>, owner: map<nat, Place>, free: nat, i: nat, k: nat,
                 data': seq<Block>, d: Dinode)
    requires Image(sb, data, table, owner, free) && free < sb.size && i < |table| && k < NSLOTS
    requires Slot(table[i], data, k) == 0 && (NDIRECT <= k < INDIRECT ==> 0 < table[i].addrs[NDIRECT] < |data|)
    requires data' == FillData(table[i], data, k, free) && d == FillInode(table[i], k, free)
    ensures Grew(sb.datastart, data, table, owner, data', table[i := d], owner[free := Place(i, k)], i, k, free)
    ensures Image(sb, data', table[i := d], owner[free := Place(i, k)], free + 1)
  {
    BlankZero(data, free);
    AllocFill(sb.datastart, data, table, owner, i, k, free, data', table[i := d]);
    IndirectOwner(sb.datastart, data, table, owner, i);
  }

  // mapping block fbn of inode i, at the end of the file, keeps the allocation exact
  lemma MappedExact(d: seq<Block>, t: seq<Dinode>, d': seq<Block>, t': seq<Dinode>, i: nat, fbn: nat, reach: nat,
                    reach': nat)
    requires Mapped(d, t, d', t', i, {Place(i, INDIRECT), Place(i, fbn)}) && NoExtra(t[i], d, reach)
    requires reach <= reach' && BlockCount(reach') == fbn + 1
    requires fbn < NDIRECT ==> Slot(t'[i], d', INDIRECT) == Slot(t[i], d, INDIRECT)
    ensures NoExtra(t'[i], d', reach')
  {
    var grown := {Place(i, INDIRECT), Place(i, fbn)};
    forall k: nat | k < MAXFILE && k >= BlockCount(reach') ensures Slot(t'[i], d', k) == 0 {
      assert KeptOrFilled(d, t, d', t', grown, i, k);
    }
  }

  // whether the next block of a file, and its indirect block, are still missing
  lemma NextMissing(d: Dinode, data: seq<Block>, off: nat)
    requires Shaped(d) && Backed(d, data, off) && NoExtra(d, data, off) && off / BSIZE < MAXFILE
    ensures Missing1(d, data, off / BSIZE) == Need(off)
  {
    var fbn := off / BSIZE;
    if fbn < BlockCount(off) { assert Slot(d, data, fbn) != 0; }
    if BlockCount(off) > NDIRECT { assert Slot(d, data, NDIRECT) != 0; }
  }

  ghost function Missing1(d: Dinode, data: seq<Block>, fbn: nat): nat
    requires Shaped(d) && fbn < MAXFILE
  {
    (if Slot(d, data, fbn) == 0 then 1 else 0) + (if fbn >= NDIRECT && d.addrs[NDIRECT] == 0 then 1 else 0)
  }

  // ---------------------------------------------------------------- what the image holds

  // the kind and the contents of the file of an inode, which has one link
  ghost predicate Held(data: seq<Block>, t: seq<Dinode>, inum: nat, kind: nat, contents: seq<Byte>) {
    && inum < |t| && Shaped(t[inum]) && t[inum].size <= MAXBYTES
    && t[inum].kind == kind && t[inum].nlink == 1 && Content(t[inum], data) == contents
  }

  // the first k files are in inodes 2, 3, and so on
  ghost predicate FilesHeld(data: seq<Block>, t: seq<Dinode>, files: seq<Input>, k: nat) {
    k <= |files| && forall i: nat :: i < k ==> Held(data, t, i + 2, T_FILE, files[i].contents)
  }

  // a change of one file leaves the others
  lemma HeldKept(d0: seq<Block>, t0: seq<Dinode>, d: seq<Block>, t: seq<Dinode>, changed: nat, inum: nat, kind: nat,
                 c: seq<Byte>)
    requires OthersSame(d0, t0, d, t, changed) && inum != changed && Held(d0, t0, inum, kind, c)
    ensures Held(d, t, inum, kind, c)
  {
    assert SameAt(d0, t0, d, t, inum);
  }

  lemma FilesKept(d0: seq<Block>, t0: seq<Dinode>, d: seq<Block>, t: seq<Dinode>, changed: nat, files: seq<Input>,
                  k: nat)
    requires OthersSame(d0, t0, d, t, changed) && FilesHeld(d0, t0, files, k) && !(2 <= changed < k + 2)
    ensures FilesHeld(d, t, files, k)
  {
    forall i: nat | i < k ensures Held(d, t, i + 2, T_FILE, files[i].contents) {
      HeldKept(d0, t0, d, t, changed, i + 2, T_FILE, files[i].contents);
    }
  }

  // ---------------------------------------------------------------- appending

  /**
   iappend, begun on blocks d0 and inodes t0 with f0 the first free block, has appended tot
   bytes and has the blocks up to reach; din is its copy of the inode.
   */
  ghost predicate AppendOk(sb: Super, d0: seq<Block>, t0: seq<Dinode>, f0: nat, data: seq<Block>,
                           owner: map<nat, Place>, free: nat,
                           inum: nat, din: Dinode, src: seq<Byte>, tot: nat, reach: nat)
  {
    && inum < |t0| && AllShaped(t0) && Shaped(din) && SameAttributes(din, t0[inum])
    && Image(sb, data, t0[inum := din], owner, free)
    && Written(d0, t0, data, t0[inum := din], inum, din.size, src, tot)
    && Grows(d0, t0, data, t0[inum := din], inum)
    && Backed(din, data, reach) && NoExtra(din, data, reach)
    && free + Cost(din.size) == f0 + Cost(reach)
  }

  lemma AppendMapped(sb: Super, d0: seq<Block>, t0: seq<Dinode>, f0: nat, data: seq<Block>, owner: map<nat, Place>,
                     free: nat, inum: nat, din: Dinode, src: seq<Byte>, tot: nat,
                     data': seq<Block>, owner': map<nat, Place>, free': nat, din': Dinode)
    requires tot < |src| && AppendOk(sb, d0, t0, f0, data, owner, free, inum, din, src, tot, din.size + tot)
    requires Shaped(din') && Image(sb, data', t0[inum := din'], owner', free')
    requires var fbn := (din.size + tot) / BSIZE;
             && fbn < MAXFILE && Slot(din', data', fbn) != 0
             && Mapped(data, t0[inum := din], data', t0[inum := din'], inum, {Place(inum, INDIRECT), Place(inum, fbn)})
             && (fbn < NDIRECT ==> din'.addrs[NDIRECT] == din.addrs[NDIRECT])
             && free' == free + Missing1(din, data, fbn)
    ensures AppendOk(sb, d0, t0, f0, data', owner', free', inum, din', src, tot,
                     din.size + tot + ChunkSize(din.size, |src|, tot))
  {
    var off, m, t, t' := din.size + tot, ChunkSize(din.size, |src|, tot), t0[inum := din], t0[inum := din'];
    NextMissing(din, data, off);
    CostStep(off, m);
    GrowsMapped(d0, t0, data, t, inum, data', t', off / BSIZE);
    WrittenMapped(d0, t0, data, t, inum, din.size, src, tot, data', t');
    MappedBacked(data, t, data', t', inum, off / BSIZE, off, off + m);
    MappedExact(data, t, data', t', inum, off / BSIZE, off, off + m);
  }

  // the next block is not to be had, so the whole does not fit
  lemma AppendRefused(sb: Super, d0: seq<Block>, t0: seq<Dinode>, f0: nat, data: seq<Block>, owner: map<nat, Place>,
                      free: nat, inum: nat, din: Dinode, src: seq<Byte>, tot: nat)
    requires tot < |src| && AppendOk(sb, d0, t0, f0, data, owner, free, inum, din, src, tot, din.size + tot)
    requires var fbn := (din.size + tot) / BSIZE; fbn >= MAXFILE || free + Missing1(din, data, fbn) > sb.size
    ensures !Fits(sb, f0, din.size, |src|)
  {
    var off, m := din.size + tot, ChunkSize(din.size, |src|, tot);
    if off / BSIZE < MAXFILE {
      NextMissing(din, data, off);
      CostStep(off, m);
      CostGrows(off + m, din.size + |src|);
    }
  }

  // a block of a file is written: the image is one as before
  lemma ImageWritten(sb: Super, data: seq<Block>, t: seq<Dinode>, owner: map<nat, Place>, free: nat, i: nat, k: nat,
                     data': seq<Block>)
    requires Image(sb, data, t, owner, free) && i < |t| && k < MAXFILE
    requires var x := Slot(t[i], data, k); 0 < x < |data| == |data'| && data' == data[x := data'[x]]
    requires Owned(sb.datastart, data', t, owner)
    ensures Image(sb, data', t, owner, free)
  {
    SlotInRange(sb.datastart, data, t, owner, i, k);
  }

  lemma AppendStored(sb: Super, d0: seq<Block>, t0: seq<Dinode>, f0: nat, data: seq<Block>, owner: map<nat, Place>,
                     free: nat, inum: nat, din: Dinode, src: seq<Byte>, tot: nat, m: nat, data': seq<Block>)
    requires tot < |src| && m == ChunkSize(din.size, |src|, tot)
    requires AppendOk(sb, d0, t0, f0, data, owner, free, inum, din, src, tot, din.size + tot + m)
    requires var off := din.size + tot;
             var x := Slot(din, data, off / BSIZE);
             0 < x < |data| && data' == data[x := Patch(data[x], off % BSIZE, src[tot..tot + m])]
    ensures AppendOk(sb, d0, t0, f0, data', owner, free, inum, din, src, tot + m, din.size + tot + m)
  {
    var off, t := din.size + tot, t0[inum := din];
    var x := Slot(din, data, off / BSIZE);
    GrowsWritten(sb.datastart, d0, t0, data, t, owner, inum, off / BSIZE, data'[x]);
    WriteChunk(sb.datastart, d0, t0, data, t, owner, inum, din.size, src, tot, m, data');
    ImageWritten(sb, data, t, owner, free, inum, off / BSIZE, data');
    SlotsUnmoved(sb.datastart, data, t, owner, inum, off / BSIZE, data');
    SlotsSame(din, data, data', off + m);
  }

  // what is allocated depends on the slots alone
  lemma SlotsSame(d: Dinode, data: seq<Block>, data': seq<Block>, reach: nat)
    requires Shaped(d) && Backed(d, data, reach) && NoExtra(d, data, reach)
    requires forall k: nat :: k < NSLOTS ==> Slot(d, data', k) == Slot(d, data, k)
    ensures Backed(d, data', reach) && NoExtra(d, data', reach)
  {
  }

  class Builder {
    const sb: Super
    var dinode: seq<Dinode>
    var data: seq<Block>
    var freeblock: nat
    var freeinode: nat
    ghost var owner: map<nat, Place>

    constructor (sb: Super)
      requires sb.Valid() && 1 <= sb.ninodes
      ensures Valid() && this.sb == sb && freeinode == 1 && freeblock == sb.datastart
    {
      this.sb := sb;
      var blank := Dinode(0, 0, 0, 0, 0, seq(NDIRECT + 1, _ => 0));
      dinode, data := seq(sb.ninodes, _ => blank), seq(sb.size, _ => ZeroBlock);
      freeblock, freeinode, owner := sb.datastart, 1, map[];
      new;
      BlankImage(sb, data, dinode);
    }

    /** Take the next block for place k of the inode; false is the exit when the image is full. */
    method Take(inum: nat, din: Dinode, k: nat) returns (ok: bool, din': Dinode)
      requires inum < |dinode| && k < NSLOTS && Shaped(din) && Slot(din, data, k) == 0
      requires Image(sb, data, dinode[inum := din], owner, freeblock)
      requires NDIRECT <= k < INDIRECT ==> din.addrs[NDIRECT] != 0
      modifies this`data, this`freeblock, this`owner
      ensures ok <==> old(freeblock) < sb.size
      ensures freeblock == old(freeblock) + if ok then 1 else 0
      ensures ok ==> Shaped(din') && Image(sb, data, dinode[inum := din'], owner, freeblock)
      ensures ok ==> Grew(sb.datastart, old(data), dinode[inum := din], old(owner), data, dinode[inum := din'], owner,
                inum, k, old(freeblock))
    {
      if freeblock >= sb.size {
        return false, din;
      }
      ghost var t := dinode[inum := din];
      IndirectOwner(sb.datastart, data, t, owner, inum);
      din' := FillInode(din, k, freeblock);
      TakeNext(sb, data, t, owner, freeblock, inum, k, FillData(din, data, k, freeblock), din');
      assert t[inum := din'] == dinode[inum := din'];
      data := FillData(din, data, k, freeblock);
      owner := owner[freeblock := Place(inum, k)];
      freeblock := freeblock + 1;
      ok := true;
    }

    // the indirect block, if block fbn needs one
    method MapIndirect(inum: nat, din: Dinode, fbn: nat) returns (ok: bool, din': Dinode)
      requires inum < |dinode| && fbn < MAXFILE && Shaped(din)
      requires Image(sb, data, dinode[inum := din], owner, freeblock)
      modifies this`data, this`freeblock, this`owner
      ensures ok ==> Shaped(din') && Image(sb, data, dinode[inum := din'], owner, freeblock)
      ensures ok ==> Mapped(old(data), dinode[inum := din], data, dinode[inum := din'], inum,
                {Place(inum, INDIRECT), Place(inum, fbn)})
      ensures ok ==> Slot(din', data, fbn) == Slot(din, old(data), fbn)
      ensures ok ==> if fbn < NDIRECT then din' == din else din'.addrs[NDIRECT] != 0
      ensures var need := if fbn >= NDIRECT && din.addrs[NDIRECT] == 0 then 1 else 0;
              && (ok <==> old(freeblock) + need <= sb.size)
              && (ok ==> freeblock == old(freeblock) + need)
              && (need == 1 ==> Slot(din, old(data), fbn) == 0)
    {
      ghost var t, grown := dinode[inum := din], {Place(inum, INDIRECT), Place(inum, fbn)};
      NothingMapped(data, t, inum, grown);
      ok, din' := true, din;
      if fbn >= NDIRECT && din.addrs[NDIRECT] == 0 {
        ghost var o, f := owner, freeblock;
        ok, din' := Take(inum, din, INDIRECT);
        if ok {
          ghost var t' := dinode[inum := din'];
          GrewMapped(sb.datastart, old(data), t, o, data, t', owner, inum, INDIRECT, f, grown);
          assert SameSlot(old(data), t, data, t', inum, fbn);
        }
      }
    }

    // the block of iappend's next round, allocated if there is none
    method MapBlock(inum: nat, din: Dinode, fbn: nat) returns (ok: bool, din': Dinode, x: nat)
      requires inum < |dinode| && fbn < MAXFILE && Shaped(din)
      requires Image(sb, data, dinode[inum := din], owner, freeblock)
      modifies this`data, this`freeblock, this`owner
      ensures ok ==> Shaped(din') && Image(sb, data, dinode[inum := din'], owner, freeblock)
      ensures ok ==> x == Slot(din', data, fbn) != 0
      ensures ok ==> Mapped(old(data), dinode[inum := din], data, dinode[inum := din'], inum,
                {Place(inum, INDIRECT), Place(inum, fbn)})
      ensures ok && fbn < NDIRECT ==> din'.addrs[NDIRECT] == din.addrs[NDIRECT]
      ensures ok <==> old(freeblock) + Missing1(din, old(data), fbn) <= sb.size
      ensures ok ==> freeblock == old(freeblock) + Missing1(din, old(data), fbn)
    {
      ghost var grown := {Place(inum, INDIRECT), Place(inum, fbn)};
      ok, din' := MapIndirect(inum, din, fbn);
      if !ok { return false, din, 0; }
      ghost var d1, t1, o1 := data, dinode[inum := din'], owner;
      IndirectOwner(sb.datastart, d1, t1, o1, inum);
      x := if fbn < NDIRECT then din'.addrs[fbn] else GetWord(data[din'.addrs[NDIRECT]], fbn - NDIRECT);
      if x == 0 {
        x := freeblock;
        ok, din' := Take(inum, din', fbn);
        if !ok { return false, din, 0; }
        ghost var t2 := dinode[inum := din'];
        GrewMapped(sb.datastart, d1, t1, o1, data, t2, owner, inum, fbn, x, grown);
        MappedTrans(old(data), dinode[inum := din], d1, t1, data, t2, inum, grown);
        assert SameSlot(d1, t1, data, t2, inum, INDIRECT);
      }
    }

    ghost predicate Appending(d0: seq<Block>, f0: nat, inum: nat, din: Dinode, src: seq<Byte>, tot: nat, reach: nat)
      reads this
    {
      AppendOk(sb, d0, dinode, f0, data, owner, freeblock, inum, din, src, tot, reach)
    }

    // the block of the next round
    method MapNext(inum: nat, din: Dinode, src: seq<Byte>, tot: nat, ghost d0: seq<Block>, ghost f0: nat)
      returns (ok: bool, din': Dinode, x: nat)
      requires Appending(d0, f0, inum, din, src, tot, din.size + tot) && tot < |src|
      modifies this`data, this`freeblock, this`owner
      ensures ok ==>
                && Appending(d0, f0, inum, din', src, tot, din.size + tot + ChunkSize(din.size, |src|, tot))
                && din'.size == din.size
                && (din.size + tot) / BSIZE < MAXFILE && x == Slot(din', data, (din.size + tot) / BSIZE)
                && 0 < x < |data|
      ensures !ok ==> !Fits(sb, f0, din.size, |src|)
    {
      var fbn := (din.size + tot) / BSIZE;
      ghost var d1, o1, f1 := data, owner, freeblock;
      if fbn >= MAXFILE {
        AppendRefused(sb, d0, dinode, f0, d1, o1, f1, inum, din, src, tot);
        return false, din, 0;
      }
      ok, din', x := MapBlock(inum, din, fbn);
      if !ok {
        AppendRefused(sb, d0, dinode, f0, d1, o1, f1, inum, din, src, tot);
        return;
      }
      AppendMapped(sb, d0, dinode, f0, d1, o1, f1, inum, din, src, tot, data, owner, freeblock, din');
      SlotInRange(sb.datastart, data, dinode[inum := din'], owner, inum, fbn);
    }

    // one round of iappend's loop
    method AppendOne(inum: nat, din: Dinode, src: seq<Byte>, tot: nat, ghost d0: seq<Block>, ghost f0: nat)
      returns (ok: bool, din': Dinode, tot': nat)
      requires Appending(d0, f0, inum, din, src, tot, din.size + tot) && tot < |src|
      modifies this`data, this`freeblock, this`owner
      ensures ok ==> tot < tot' <= |src| && din'.size == din.size
                     && Appending(d0, f0, inum, din', src, tot', din'.size + tot')
      ensures !ok ==> !Fits(sb, f0, din.size, |src|)
    {
      var x;
      tot' := tot + ChunkSize(din.size, |src|, tot);
      ok, din', x := MapNext(inum, din, src, tot, d0, f0);
      if ok {
        StorePiece(inum, din', src, tot, x, d0, f0);
      }
    }

    // read the sector, copy the bytes in, write it back
    method StorePiece(inum: nat, din: Dinode, src: seq<Byte>, tot: nat, x: nat, ghost d0: seq<Block>, ghost f0: nat)
      requires tot < |src| && Appending(d0, f0, inum, din, src, tot, din.size + tot + ChunkSize(din.size, |src|, tot))
      requires (din.size + tot) / BSIZE < MAXFILE && x == Slot(din, data, (din.size + tot) / BSIZE) != 0 && x < |data|
      modifies this`data
      ensures var tot' := tot + ChunkSize(din.size, |src|, tot);
              Appending(d0, f0, inum, din, src, tot', din.size + tot')
    {
      var off, m := din.size + tot, ChunkSize(din.size, |src|, tot);
      ghost var d1 := data;
      data := data[x := Patch(data[x], off % BSIZE, src[tot..tot + m])];
      AppendStored(sb, d0, dinode, f0, d1, owner, freeblock, inum, din, src, tot, m, data);
    }

    /** Between two calls: an image, every file allocated exactly, and inodes in use below freeinode. */
    ghost predicate Valid()
      reads this
    {
      && Image(sb, data, dinode, owner, freeblock) && ExactFiles(data, dinode) && ZeroTails(data, dinode)
      && 1 <= freeinode <= sb.ninodes
      && forall i :: 0 <= i < sb.ninodes ==>
           ShortsFit(dinode[i]) && if 1 <= i < freeinode then dinode[i].kind != 0 else IsBlank(dinode[i])
    }

    // winode with the new size
    method FinishAppend(inum: nat, din: Dinode, src: seq<Byte>, ghost d0: seq<Block>, ghost f0: nat)
      requires Appending(d0, f0, inum, din, src, |src|, din.size + |src|) && ExactFiles(d0, dinode)
               && ZeroTails(d0, dinode)
      modifies this`dinode
      ensures inum < |old(dinode)| && dinode == old(dinode)[inum := din.(size := din.size + |src|)]
      ensures Image(sb, data, dinode, owner, freeblock) && ExactFiles(data, dinode) && ZeroTails(data, dinode)
      ensures dinode[inum].size <= MAXBYTES && old(dinode[inum].size) <= MAXBYTES
      ensures Content(dinode[inum], data) == Content(old(dinode[inum]), d0) + src
      ensures OthersSame(d0, old(dinode), data, dinode, inum)
    {
      var end := din.size + |src|;
      ghost var t0, t := dinode, dinode[inum := din];
      assert NoHoles(t0[inum], d0);
      ResizeKeeps(sb.datastart, d0, t0, data, t, owner, inum, din.size, src, |src|, end);
      ResizeBacked(din, data, end, end);
      dinode := dinode[inum := din.(size := end)];
      assert dinode == t[inum := t[inum].(size := end)];
      HolesFilled(d0, t0, data, dinode, inum);
      ExactKept(d0, t0, inum, din);
      WrittenContent(d0, t0, data, dinode, inum, din.size, src);
      WrittenOthers(d0, t0, data, dinode, inum, din.size, src, |src|);
      TailsKept(d0, t0, data, dinode, inum, src);
    }

    lemma ExactKept(d0: seq<Block>, t0: seq<Dinode>, inum: nat, din: Dinode)
      requires ExactFiles(d0, t0) && Grows(d0, t0, data, dinode, inum) && inum < |t0|
      requires Shaped(din) && dinode == t0[inum := din.(size := dinode[inum].size)]
      requires NoExtra(din, data, dinode[inum].size)
      ensures forall i :: 0 <= i < |dinode| ==> NoExtra(dinode[i], data, dinode[i].size)
    {
      forall i: nat | i < |dinode| ensures NoExtra(dinode[i], data, dinode[i].size) {
        forall k: nat | k < NSLOTS
          ensures Slot(dinode[i], data, k) == if i == inum then Slot(din, data, k) else Slot(t0[i], d0, k)
        {
          assert GrowsAt(d0, t0, data, dinode, inum, i, k);
        }
        assert NoExtra(t0[i], d0, t0[i].size);
      }
    }

    /** iappend of n bytes to the file has room, in the file and in the image. */
    ghost predicate HasRoom(inum: nat, n: nat)
      reads this
    {
      inum < |dinode| && Fits(sb, freeblock, dinode[inum].size, n)
    }

    // the loop of iappend
    method AppendAll(inum: nat, src: seq<Byte>, ghost d0: seq<Block>, ghost f0: nat) returns (ok: bool, din: Dinode)
      requires inum < |dinode| && Appending(d0, f0, inum, dinode[inum], src, 0, dinode[inum].size) && f0 == freeblock
      modifies this`data, this`freeblock, this`owner
      ensures ok <==> old(HasRoom(inum, |src|))
      ensures ok ==> Appending(d0, f0, inum, din, src, |src|, din.size + |src|)
    {
      din := dinode[inum];
      ghost var size := din.size;
      var tot := 0;
      while tot < |src|
        invariant 0 <= tot <= |src| && Appending(d0, f0, inum, din, src, tot, din.size + tot) && din.size == size
      {
        ok, din, tot := AppendOne(inum, din, src, tot, d0, f0);
        if !ok { return; }
      }
      ok := true;
    }

    /**
     iappend: the file grows by exactly src, every other file is as before.  It fails exactly
     when the file gets too large for an inode or the blocks it needs are not there.
     */
    method Iappend(inum: nat, src: seq<Byte>) returns (ok: bool)
      requires Valid() && 1 <= inum < freeinode
      modifies this`dinode, this`data, this`freeblock, this`owner
      ensures ok <==> old(HasRoom(inum, |src|))
      ensures ok ==> Valid() && freeblock + Cost(old(dinode[inum].size)) == old(freeblock) + Cost(dinode[inum].size)
      ensures ok ==> dinode[inum].kind == old(dinode[inum].kind) && dinode[inum].nlink == old(dinode[inum].nlink)
      ensures ok ==> dinode[inum].size <= MAXBYTES && old(dinode[inum].size) <= MAXBYTES
      ensures ok ==> Content(dinode[inum], data) == old(Content(dinode[inum], data)) + src
      ensures ok ==> OthersSame(old(data), old(dinode), data, dinode, inum)
    {
      ghost var d0, f0 := data, freeblock;
      assert NoHoles(dinode[inum], data) && NoExtra(dinode[inum], data, dinode[inum].size);
      assert dinode[inum := dinode[inum]] == dinode;
      NothingWritten(data, dinode, inum, dinode[inum].size, src);
      NothingGrows(data, dinode, inum);
      var din;
      ok, din := AppendAll(inum, src, d0, f0);
      if ok {
        FinishAppend(inum, din, src, d0, f0);
      }
    }

    /** ialloc: the next inode, of the given kind, with one link and no contents. */
    method Ialloc(kind: nat) returns (inum: nat)
      requires Valid() && 0 < kind < 0x1_0000 && freeinode < sb.ninodes
      modifies this`dinode, this`freeinode
      ensures Valid() && inum == old(freeinode) && freeinode == inum + 1
      ensures dinode[inum].kind == kind && dinode[inum].nlink == 1 && dinode[inum].size == 0
      ensures OthersSame(data, old(dinode), data, dinode, inum)
    {
      inum := freeinode;
      freeinode := freeinode + 1;
      ghost var t := dinode;
      var d := Dinode(kind, 0, 0, 1, 0, seq(NDIRECT + 1, _ => 0));
      NothingLeft(sb.datastart, data, t, owner, inum);
      TruncateOwned(sb.datastart, data, t, owner, inum, d);
      TailsNew(data, t, inum, d);
      dinode := dinode[inum := d];
      forall i | 0 <= i < |t| ensures NoHoles(dinode[i], data) && NoExtra(dinode[i], data, dinode[i].size) {
        assert NoHoles(t[i], data) && NoExtra(t[i], data, t[i].size);
        if i == inum {
          EmptyExact(d, data);
        }
      }
      forall j: nat | j < |t| && j != inum ensures SameAt(data, t, data, dinode, j) {}
    }

    // done bytes of a file's contents have been appended, from the state of d0, t0 and f0
    ghost predicate Filling(inum: nat, kind: nat, contents: seq<Byte>, done: nat, d0: seq<Block>, t0: seq<Dinode>,
                            f0: nat)
      reads this
    {
      && Valid() && 1 <= inum < freeinode && done <= |contents| && Held(data, dinode, inum, kind, contents[..done])
      && OthersSame(d0, t0, data, dinode, inum) && freeblock == f0 + Cost(done)
    }

    // a block of it
    method AppendBlock(inum: nat, contents: seq<Byte>, done: nat,
                       ghost kind: nat, ghost d0: seq<Block>, ghost t0: seq<Dinode>, ghost f0: nat)
      returns (ok: bool, done': nat)
      requires Filling(inum, kind, contents, done, d0, t0, f0) && done < |contents|
      modifies this`dinode, this`data, this`freeblock, this`owner
      ensures ok ==> Filling(inum, kind, contents, done', d0, t0, f0) && done < done'
      ensures !ok ==> !Fits(sb, f0, 0, |contents|)
    {
      var cc := if |contents| - done < BSIZE then |contents| - done else BSIZE;
      done' := done + cc;
      ghost var d1, t1 := data, dinode;
      assert dinode[inum].size == |Content(dinode[inum], data)| == done;
      ok := Iappend(inum, contents[done..done']);
      if ok {
        OthersSameTrans(d0, t0, d1, t1, data, dinode, inum);
        assert contents[..done] + contents[done..done'] == contents[..done'];
      } else if Fits(sb, f0, 0, |contents|) {
        FitsInPart(sb, f0, done, cc, |contents|, old(freeblock));
      }
    }

    // read the input block by block and append it
    method AppendFile(inum: nat, contents: seq<Byte>) returns (ok: bool)
      requires Valid() && 1 <= inum < freeinode && dinode[inum].size == 0 && dinode[inum].nlink == 1
      modifies this`dinode, this`data, this`freeblock, this`owner
      ensures ok <==> Fits(sb, old(freeblock), 0, |contents|)
      ensures ok ==> Valid() && Held(data, dinode, inum, old(dinode[inum].kind), contents)
      ensures ok ==> freeblock == old(freeblock) + Cost(|contents|)
                     && OthersSame(old(data), old(dinode), data, dinode, inum)
    {
      ghost var kind, d0, t0, f0 := dinode[inum].kind, data, dinode, freeblock;
      NothingWritten(data, dinode, inum, 0, []);
      WrittenOthers(data, dinode, data, dinode, inum, 0, [], 0);
      var done := 0;
      while done < |contents|
        invariant Filling(inum, kind, contents, done, d0, t0, f0)
        decreases |contents| - done
      {
        ok, done := AppendBlock(inum, contents, done, kind, d0, t0, f0);
        if !ok { return; }
      }
      assert contents[..done] == contents && |Content(dinode[inum], data)| <= MAXBYTES;
      ok := true;
    }

    /** The root directory and the first k files are in the image. */
    ghost predicate Holding(files: seq<Input>, k: nat)
      reads this
    {
      && Valid() && k <= |files| < 65000 && freeinode == k + 2 && sb.ninodes < 65000
      && freeblock == End(sb, files[..k])
      && Held(data, dinode, ROOTINO, T_DIR, RootBytes(files[..k])) && FilesHeld(data, dinode, files, k)
    }

    /** And the next file has its inode, and its entry if listed is true. */
    ghost predicate Listing(files: seq<Input>, k: nat, listed: bool)
      reads this
    {
      && Valid() && k < |files| < 65000 && freeinode == k + 3 && sb.ninodes < 65000
      && freeblock == (if listed then ListedEnd(sb, files, k) else End(sb, files[..k]))
      && Held(data, dinode, ROOTINO, T_DIR, RootBytes(files[..if listed then k + 1 else k]))
      && Held(data, dinode, k + 2, T_FILE, []) && FilesHeld(data, dinode, files, k)
    }

    // an inode for the next file
    method AddInode(files: seq<Input>, k: nat) returns (inum: nat)
      requires Holding(files, k) && k < |files| && freeinode < sb.ninodes
      modifies this`dinode, this`freeinode
      ensures inum == k + 2 && Listing(files, k, false)
    {
      ghost var t0 := dinode;
      inum := Ialloc(T_FILE);
      assert Content(dinode[inum], data) == [];
      HeldKept(data, t0, data, dinode, inum, ROOTINO, T_DIR, RootBytes(files[..k]));
      FilesKept(data, t0, data, dinode, inum, files, k);
    }

    // an entry at the end of the root directory
    method AppendRoot(files: seq<Input>, k: nat, inum: nat) returns (ok: bool)
      requires Valid() && k < |files| < 65000 && inum == k + 2 && ROOTINO < freeinode
               && freeblock == End(sb, files[..k])
      requires Held(data, dinode, ROOTINO, T_DIR, RootBytes(files[..k]))
      modifies this`dinode, this`data, this`freeblock, this`owner
      ensures ok ==> Valid() && freeblock == ListedEnd(sb, files, k)
      ensures ok ==> Held(data, dinode, ROOTINO, T_DIR, RootBytes(files[..k + 1]))
      ensures ok ==> OthersSame(old(data), old(dinode), data, dinode, ROOTINO)
      ensures !ok ==> ENTRY * (k + 3) > MAXBYTES || ListedEnd(sb, files, k) > sb.size
    {
      ghost var size := dinode[ROOTINO].size;
      RootNext(files, k);
      assert size == |Content(dinode[ROOTINO], data)| == ENTRY * (k + 2);
      ok := Iappend(ROOTINO, DirentBytes(inum, files[k].name));
      EntryFits(sb, files, k, size, freeblock);
    }

    // its entry in the root directory
    method AddEntry(files: seq<Input>, k: nat, inum: nat) returns (ok: bool)
      requires Listing(files, k, false) && inum == k + 2
      modifies this`dinode, this`data, this`freeblock, this`owner
      ensures ok ==> Listing(files, k, true)
      ensures !ok ==> ENTRY * (k + 3) > MAXBYTES || ListedEnd(sb, files, k) > sb.size
    {
      ghost var d0, t0 := data, dinode;
      ok := AppendRoot(files, k, inum);
      if !ok { return; }
      HeldKept(d0, t0, data, dinode, ROOTINO, k + 2, T_FILE, []);
      FilesKept(d0, t0, data, dinode, ROOTINO, files, k);
    }

    // and its contents
    method AddContents(files: seq<Input>, k: nat) returns (ok: bool)
      requires Listing(files, k, true)
      modifies this`dinode, this`data, this`freeblock, this`owner
      ensures ok ==> Holding(files, k + 1)
      ensures !ok ==> |files[k].contents| > MAXBYTES || End(sb, files[..k + 1]) > sb.size
    {
      EndNext(sb, files, k);
      ghost var d0, t0 := data, dinode;
      assert dinode[k + 2].size == |Content(dinode[k + 2], data)| == 0;
      ok := AppendFile(k + 2, files[k].contents);
      if !ok { return; }
      HeldKept(d0, t0, data, dinode, k + 2, ROOTINO, T_DIR, RootBytes(files[..k + 1]));
      FilesKept(d0, t0, data, dinode, k + 2, files, k);
    }

    // the root directory with its two entries
    method MakeRoot(files: seq<Input>) returns (ok: bool)
      requires Valid() && freeinode == 1 && freeblock == sb.datastart && |files| + 2 <= sb.ninodes < 65000
      modifies this
      ensures ok ==> Holding(files, 0)
      ensures !ok ==> End(sb, files[..0]) > sb.size
    {
      var root := Ialloc(T_DIR);
      assert Content(dinode[root], data) == [];
      ok := Iappend(root, DirentBytes(root, [46]));
      if !ok { return; }
      ok := Iappend(root, DirentBytes(root, [46, 46]));
      if !ok { return; }
      assert files[..0] == [];
    }

    lemma HoldingFits(files: seq<Input>)
      requires Holding(files, |files|)
      ensures End(sb, files) <= sb.size && !TooLarge(files)
    {
      assert files[..|files|] == files;
      assert |Content(dinode[ROOTINO], data)| <= MAXBYTES;
      forall i | 0 <= i < |files| ensures |files[i].contents| <= MAXBYTES {
        assert Held(data, dinode, i + 2, T_FILE, files[i].contents);
      }
    }

    // an inode, an entry in the root directory, and the contents
    method AddFile(files: seq<Input>, k: nat) returns (ok: bool)
      requires Holding(files, k) && k < |files| && freeinode < sb.ninodes
      modifies this
      ensures ok ==> Holding(files, k + 1)
      ensures !ok ==> End(sb, files) > sb.size || TooLarge(files)
    {
      EndNext(sb, files, k);
      EndGrows(sb, files, k + 1);
      CostGrows(ENTRY * (k + 3), ENTRY * (|files| + 2));
      assert files[..k + 1][..k] == files[..k];
      var inum := AddInode(files, k);
      ok := AddEntry(files, k, inum);
      if ok {
        ok := AddContents(files, k);
      }
    }

    /**
     main, up to the bit map: the image lists and holds exactly the files given, unless it or a file
     gets too large.
     */
    method Build(files: seq<Input>) returns (ok: bool)
      requires Valid() && freeinode == 1 && freeblock == sb.datastart && |files| + 2 <= sb.ninodes < 65000
      modifies this
      ensures ok ==> Holding(files, |files|)
      ensures ok <==> End(sb, files) <= sb.size && !TooLarge(files)
    {
      EndGrows(sb, files, 0);
      ok := MakeRoot(files);
      if !ok { return; }
      var k := 0;
      while k < |files|
        invariant 0 <= k <= |files| && Holding(files, k) && ok
      {
        ok := AddFile(files, k);
        if !ok { return; }
        k := k + 1;
      }
      assert files[..k] == files;
      HoldingFits(files);
    }

    /** balloc: the first freeblock blocks are in use; false is its failed assert. */
    method Balloc() returns (ok: bool, bits: Bits)
      requires Image(sb, data, dinode, owner, freeblock)
      ensures fresh(bits) && fresh(bits.bytes) && bits.Valid() && sb.size <= 8 * bits.bytes.Length
      ensures ok <==> freeblock < BPB
      ensures ok ==> forall b: nat :: b in bits.used <==> b < freeblock
    {
      bits := new Bits(512 * (sb.size / BPB + 1));
      if freeblock >= BPB {
        return false, bits;
      }
      var i := 0;
      while i < freeblock
        invariant 0 <= i <= freeblock && bits.Valid() && fresh(bits) && fresh(bits.bytes)
        invariant bits.bytes.Length == 512 * (sb.size / BPB + 1)
        invariant forall b: nat :: b in bits.used <==> b < i
      {
        bits.SetBit(i);
        i := i + 1;
      }
      ok := true;
    }

    // fix the size of the root directory
    method RoundRoot(ghost files: seq<Input>)
      requires Holding(files, |files|)
      modifies this`dinode
      ensures dinode == Rounded(old(dinode)) && Image(sb, data, dinode, owner, freeblock)
      ensures Tidy(dinode, map[]) && RestBlank(dinode, files)
      ensures FilesHeld(data, dinode, files, |files|) && NoFileHoles(data, dinode, files)
      ensures AllNoHoles(data, dinode) <==> |RootBytes(files)| % BSIZE != 0
      ensures |RootBytes(files)| % BSIZE != 0 ==> RootHeld(data, dinode, files)
    {
      assert files[..|files|] == files;
      ghost var t := dinode;
      assert dinode[ROOTINO].size == |RootBytes(files)|;
      RoundedImage(sb, data, t, owner, freeblock);
      RoundedHoles(data, t);
      var off := (dinode[ROOTINO].size / BSIZE + 1) * BSIZE;
      dinode := dinode[ROOTINO := dinode[ROOTINO].(size := off)];
      RoundedFiles(data, t, files);
      if |RootBytes(files)| % BSIZE != 0 { RoundedRoot(data, t, files); }
    }

    // the file system in the image, with its bit map
    method Mount(bits: Bits, ghost ok: bool) returns (fs: FileSystem)
      requires Image(sb, data, dinode, owner, freeblock)
      requires bits.Valid() && sb.size <= 8 * bits.bytes.Length
      requires ok ==> forall b: nat :: b in bits.used <==> b < freeblock
      ensures fresh(fs) && fs.sb == sb && fs.bits == bits && fs.data == data && fs.dinode == dinode
      ensures fs.icache == map[] && fs.Table() == dinode && (ok ==> fs.Valid())
    {
      fs := new FileSystem(sb, bits, dinode, data, owner);
      assert fs.Table() == dinode;
    }

    /**
     The rest of main: round the size of the root directory up, write the bit map.  The image
     keeps block ownership, with every file as given; it is free of holes exactly when the
     root directory did not end on a block boundary before rounding.
     */
    method Finish(ghost files: seq<Input>) returns (ok: bool, fs: FileSystem)
      requires Holding(files, |files|)
      modifies this`dinode
      ensures ok <==> freeblock < BPB
      ensures fresh(fs) && fresh(fs.bits) && fresh(fs.bits.bytes) && fs.sb == sb && fs.icache == map[]
      ensures ok ==> fs.Valid() && Tidy(fs.dinode, fs.icache) && RestBlank(fs.dinode, files)
      ensures ok ==> (fs.Sound() <==> |RootBytes(files)| % BSIZE != 0)
      ensures ok ==> FilesHeld(fs.data, fs.dinode, files, |files|) && NoFileHoles(fs.data, fs.dinode, files)
      ensures ok && fs.Sound() ==> RootHeld(fs.data, fs.dinode, files)
    {
      RoundRoot(files);
      var bits;
      ok, bits := Balloc();
      fs := Mount(bits, ok);
    }
  }

  // mkfs gets through: the image, the root directory and the files are not too large, and one bit map block is enough
  ghost predicate Buildable(sb: Super, files: seq<Input>) {
    End(sb, files) <= sb.size && !TooLarge(files) && End(sb, files) < BPB
  }

  /** main: the image of the files, as Finish describes it. */
  method MakeImage(sb: Super, files: seq<Input>) returns (ok: bool, fs: FileSystem)
    requires sb.Valid() && |files| + 2 <= sb.ninodes < 65000
    ensures ok <==> Buildable(sb, files)
    ensures fresh(fs) && fresh(fs.bits) && fresh(fs.bits.bytes) && fs.sb == sb
    ensures ok ==> fs.Valid() && fs.icache == map[] && Tidy(fs.dinode, fs.icache) && RestBlank(fs.dinode, files)
    ensures ok ==> (fs.Sound() <==> |RootBytes(files)| % BSIZE != 0)
    ensures ok ==> FilesHeld(fs.data, fs.dinode, files, |files|) && NoFileHoles(fs.data, fs.dinode, files)
    ensures ok && fs.Sound() ==> RootHeld(fs.data, fs.dinode, files)
  {
    var b := new Builder(sb);
    ok := b.Build(files);
    if !ok {
      var none := new Bits(0);
      fs := new FileSystem(sb, none, [], [], map[]);
      return;
    }
    assert files[..|files|] == files;
    ok, fs := b.Finish(files);
  }

  /** What the kernel reads from a file of a new image: any part of what mkfs was given. */
  method ReadFile(fs: FileSystem, ghost files: seq<Input>, i: nat, off: Word, n: Word) returns (r: int, dst: seq<Byte>)
    requires fs.Valid() && Tidy(fs.dinode, fs.icache)
    requires FilesHeld(fs.data, fs.dinode, files, |files|) && NoFileHoles(fs.data, fs.dinode, files) && i < |files|
    modifies fs, fs.bits, fs.bits.bytes
    ensures var c := files[i].contents;
            && (r == -1 <==> off > |c| || off + n >= UINT_LIMIT)
            && (r != -1 ==> r == |dst| && dst == c[off..if off + n > |c| then |c| else off + n])
  {
    assert Held(fs.data, fs.dinode, i + 2, T_FILE, files[i].contents);
    var ok := fs.Ilock(i + 2);
    r, dst := fs.Readi(i + 2, off, n);
  }

  /**
   mkfs and then the kernel: an image is built and its files are read back, whole or in part,
   whether or not the root directory got a block that is not there.
   */
  method BuildAndRead(sb: Super, files: seq<Input>, i: nat, off: Word, n: Word)
    returns (ok: bool, r: int, dst: seq<Byte>)
    requires sb.Valid() && |files| + 2 <= sb.ninodes < 65000 && i < |files|
    ensures ok <==> Buildable(sb, files)
    ensures ok ==>
              var c := files[i].contents;
              && (r == -1 <==> off > |c| || off + n >= UINT_LIMIT)
              && (r != -1 ==> r == |dst| && dst == c[off..if off + n > |c| then |c| else off + n])
  {
    var fs;
    ok, fs := MakeImage(sb, files);
    r, dst := -1, [];
    if ok {
      r, dst := ReadFile(fs, files, i, off, n);
    }
  }

  // ---------------------------------------------------------------- an image with a hole

  /** The layout of mkfs.c: FSSIZE, NINODES, and the blocks before them. */
  const MkfsSuper: Super := Super(2000, 200, 32, 58, 59)

  function Empties(k: nat): (files: seq<Input>)
    ensures |files| == k && forall i :: 0 <= i < k ==> files[i].contents == []
  {
    seq(k, i => Input([97], []))
  }

  lemma {:induction false} EmptiesCost(k: nat)
    ensures FilesCost(Empties(k)) == 0
  {
    if k > 0 {
      EmptiesCost(k - 1);
      assert Empties(k)[..k - 1] == Empties(k - 1);
    }
  }

  /** With thirty empty files the root directory fills a block, and the image has a hole. */
  method UnbackedRoot() returns (fs: FileSystem)
    ensures fs.sb == MkfsSuper && fs.Valid() && !fs.Sound()
  {
    EmptiesCost(30);
    assert End(MkfsSuper, Empties(30)) == 60;
    var ok;
    ok, fs := MakeImage(MkfsSuper, Empties(30));
  }

  // the blank image that mkfs starts from
  lemma BlankImage(sb: Super, data: seq<Block>, dinode: seq<Dinode>)
    requires sb.Valid() && |data| == sb.size && |dinode| == sb.ninodes
    requires forall b :: 0 <= b < |data| ==> data[b] == ZeroBlock
    requires forall i :: 0 <= i < |dinode| ==> dinode[i] == Dinode(0, 0, 0, 0, 0, dinode[i].addrs) && NoAddrs(dinode[i])
    ensures Image(sb, data, dinode, map[], sb.datastart) && ExactFiles(data, dinode) && ZeroTails(data, dinode)
  {
    forall i: nat, o: nat | i < |dinode| && o < MAXBYTES ensures TailZero(data, dinode, i, o) {}
    forall i: nat, k: nat | i < |dinode| && k < NSLOTS ensures PlaceOk(data, dinode, map[], i, k) {
      assert Slot(dinode[i], data, k) == 0;
    }
    forall i | 0 <= i < |dinode| ensures NoHoles(dinode[i], data) && NoExtra(dinode[i], data, dinode[i].size) {
      EmptyExact(dinode[i], data);
    }
  }

  ghost function Rounded(table: seq<Dinode>): seq<Dinode>
    requires ROOTINO < |table|
  {
    table[ROOTINO := table[ROOTINO].(size := (table[ROOTINO].size / BSIZE + 1) * BSIZE)]
  }

  lemma RoundedImage(sb: Super, data: seq<Block>, table: seq<Dinode>, owner: map<nat, Place>, free: nat)
    requires Image(sb, data, table, owner, free) && ROOTINO < |table|
    ensures Image(sb, data, Rounded(table), owner, free)
  {
    ResizeOwned(sb.datastart, data, table, owner, ROOTINO, (table[ROOTINO].size / BSIZE + 1) * BSIZE);
  }

  // rounding adds a block without backing exactly when the size is a multiple of BSIZE
  lemma RoundedHoles(data: seq<Block>, table: seq<Dinode>)
    requires ExactFiles(data, table) && ROOTINO < |table|
    ensures AllNoHoles(data, Rounded(table)) <==> table[ROOTINO].size % BSIZE != 0
  {
    var t, d := Rounded(table), table[ROOTINO];
    var d' := t[ROOTINO];
    assert NoHoles(d, data) && NoExtra(d, data, d.size);
    assert forall k: nat :: k < NSLOTS ==> Slot(d', data, k) == Slot(d, data, k);
    assert forall i :: 0 <= i < |table| && i != ROOTINO ==> t[i] == table[i] && NoHoles(t[i], data);
    if d.size % BSIZE == 0 {
      assert d.size < MAXBYTES ==> Slot(d', data, d.size / BSIZE) == 0;
      assert !NoHoles(t[ROOTINO], data);
    } else {
      assert NoHoles(t[ROOTINO], data);
    }
  }

  // none of the files has a hole
  ghost predicate NoFileHoles(data: seq<Block>, t: seq<Dinode>, files: seq<Input>) {
    forall i :: 2 <= i < |files| + 2 && i < |t| && Shaped(t[i]) ==> NoHoles(t[i], data)
  }

  // the root directory holds what mkfs put there, and zeros up to the end of the block
  ghost predicate RootHeld(data: seq<Block>, t: seq<Dinode>, files: seq<Input>) {
    && |files| < 65000 && ROOTINO < |t| && Shaped(t[ROOTINO]) && t[ROOTINO].kind == T_DIR && t[ROOTINO].nlink == 1
    && |RootBytes(files)| <= t[ROOTINO].size <= MAXBYTES && t[ROOTINO].size % BSIZE == 0
    && var c := Content(t[ROOTINO], data);
       c[..|RootBytes(files)|] == RootBytes(files) && forall o :: |RootBytes(files)| <= o < |c| ==> c[o] == 0
  }

  // the inodes that are not in use
  ghost predicate RestBlank(t: seq<Dinode>, files: seq<Input>) {
    |files| + 2 <= |t| && IsBlank(t[0]) && forall i :: |files| + 2 <= i < |t| ==> IsBlank(t[i])
  }

  lemma RoundedFiles(data: seq<Block>, table: seq<Dinode>, files: seq<Input>)
    requires ExactFiles(data, table) && ROOTINO < |table| && FilesHeld(data, table, files, |files|)
    ensures FilesHeld(data, Rounded(table), files, |files|) && NoFileHoles(data, Rounded(table), files)
  {
    var t := Rounded(table);
    forall i: nat | i < |files| ensures Held(data, t, i + 2, T_FILE, files[i].contents) {
      assert Held(data, table, i + 2, T_FILE, files[i].contents);
    }
    forall i | 2 <= i < |files| + 2 && i < |t| && Shaped(t[i]) ensures NoHoles(t[i], data) {
      assert t[i] == table[i] && NoHoles(table[i], data);
    }
  }

  lemma RoundUp(s: nat)
    requires s <= MAXBYTES && s % BSIZE != 0
    ensures s <= (s / BSIZE + 1) * BSIZE <= MAXBYTES && (s / BSIZE + 1) * BSIZE % BSIZE == 0
  {
  }

  lemma RoundedRoot(data: seq<Block>, table: seq<Dinode>, files: seq<Input>)
    requires |files| < 65000 && Held(data, table, ROOTINO, T_DIR, RootBytes(files)) && ZeroTails(data, table)
    requires |RootBytes(files)| % BSIZE != 0
    ensures RootHeld(data, Rounded(table), files)
  {
    var s := table[ROOTINO].size;
    assert s == |Content(table[ROOTINO], data)| == |RootBytes(files)|;
    RoundUp(s);
    RoundedContent(data, table, (s / BSIZE + 1) * BSIZE);
  }

  lemma RoundedContent(data: seq<Block>, table: seq<Dinode>, s: nat)
    requires ROOTINO < |table| && ZeroTails(data, table) && table[ROOTINO].size <= s <= MAXBYTES
    ensures var d := table[ROOTINO];
            var c := Content(d.(size := s), data);
            c[..d.size] == Content(d, data) && forall o :: d.size <= o < |c| ==> c[o] == 0
  {
    var d := table[ROOTINO];
    var d' := d.(size := s);
    forall o: nat | o < s ensures ByteAt(d', data, o) == if o < d.size then Content(d, data)[o] else 0 {
      assert ByteAt(d', data, o) == ByteAt(d, data, o) && TailZero(data, table, ROOTINO, o);
    }
  }

  lemma EmptyExact(d: Dinode, data: seq<Block>)
    requires NoAddrs(d) && d.size == 0
    ensures NoHoles(d, data) && NoExtra(d, data, 0)
  {
  }
}
