/**
 The block and inode layer of fs.c over the logical disk that the log presents.

 Inode blocks are arrays of dinodes and the bit map is a bit array, as the C casts them; all
 other blocks are bytes.  `icache` holds the in-memory copies of locked inodes, `logged` the
 block numbers passed to log_write since the operation began, `owner` the place that refers
 to each allocated block.
 */
module Files {
  import opened Blocks
  import opened Wrappers
  import opened Inodes
  import opened Bitmap
  import opened FileBytes

  const IPB: nat := 8
  const CHUNK: nat := 1536  // ((MAXOPBLOCKS-1-1-2) / 2) * 512
  const DIRECT: nat := 6144 // NDIRECT * BSIZE

  datatype Super = Super(size: nat, ninodes: nat, inodestart: nat, bmapstart: nat, datastart: nat) {
    ghost predicate Valid() {
      && 0 < inodestart && inodestart + ninodes / IPB + 1 <= bmapstart
      && bmapstart + size / BPB + 1 <= datastart <= size < UINT_LIMIT
    }

    // IBLOCK and BBLOCK
    function IBlock(inum: nat): nat { inodestart + inum / IPB }

    function BBlock(b: nat): nat { bmapstart + b / BPB }
  }

  /** The inodes as the kernel sees them: the in-memory copy where there is one. */
  ghost function TableOf(dinode: seq<Dinode>, icache: map<nat, Dinode>): (t: seq<Dinode>)
    ensures |t| == |dinode|
  {
    seq(|dinode|, i requires 0 <= i < |dinode| => if i in icache then icache[i] else dinode[i])
  }

  lemma TableUpdate(dinode: seq<Dinode>, icache: map<nat, Dinode>, i: nat, d: Dinode)
    requires i < |dinode|
    ensures TableOf(dinode, icache[i := d]) == TableOf(dinode, icache)[i := d]
  {
  }

  // the shorts of struct dinode
  ghost predicate ShortsFit(d: Dinode) {
    d.kind < 0x1_0000 && d.major < 0x1_0000 && d.minor < 0x1_0000 && d.nlink < 0x1_0000
  }

  /**
   The inode cache is written through, a free inode (kind 0) is empty and not cached, and the
   inodes on disk fit their fields.
   */
  ghost predicate Tidy(dinode: seq<Dinode>, icache: map<nat, Dinode>) {
    && (forall i :: 0 <= i < |dinode| ==> ShortsFit(dinode[i]))
    && (forall i :: i in icache ==> i < |dinode| && icache[i] == dinode[i])
    && (forall i :: 0 <= i < |dinode| && dinode[i].kind == 0 ==>
          i !in icache && NoAddrs(dinode[i]) && dinode[i].size == 0)
  }

  // an inode of the same kind is written through
  lemma TidyUpdate(dinode: seq<Dinode>, icache: map<nat, Dinode>, i: nat, d: Dinode)
    requires Tidy(dinode, icache) && i in icache && d.kind == icache[i].kind && ShortsFit(d)
    ensures Tidy(dinode[i := d], icache[i := d])
  {
  }

  // the state an operation started from
  datatype Start = Start(data: seq<Block>, table: seq<Dinode>, icache: map<nat, Dinode>, dinode: seq<Dinode>,
                         logged: set<nat>)

  /** What is on disk: the blocks, the inodes and the bytes of the bit map. */
  datatype OnDisk = OnDisk(data: seq<Block>, dinode: seq<Dinode>, bytes: seq<bv8>)

  // block, inode or byte k of the bit map is the same, or its block is in logs
  ghost predicate KeptAt(sb: Super, x: OnDisk, y: OnDisk, logs: set<nat>, k: nat) {
    && (k < |x.data| && k < |y.data| && k !in logs ==> y.data[k] == x.data[k])
    && (k < |x.dinode| && k < |y.dinode| && sb.IBlock(k) !in logs ==> y.dinode[k] == x.dinode[k])
    && (k < |x.bytes| && k < |y.bytes| && sb.bmapstart + k / BSIZE !in logs ==> y.bytes[k] == x.bytes[k])
    && (k in logs ==> sb.inodestart <= k < sb.size)
  }

  /** Every block in which y differs from x is in logs, and logs names no block of the log or before it. */
  ghost predicate Covers(sb: Super, x: OnDisk, y: OnDisk, logs: set<nat>) {
    && |x.data| == |y.data| && |x.dinode| == |y.dinode| && |x.bytes| == |y.bytes|
    && forall k: nat {:trigger KeptAt(sb, x, y, logs, k)} :: KeptAt(sb, x, y, logs, k)
  }

  // nothing has changed
  lemma CoverNothing(sb: Super, x: OnDisk)
    ensures Covers(sb, x, x, {})
  {
    forall k: nat ensures KeptAt(sb, x, x, {}, k) {}
  }

  // a block of data is written
  lemma CoverData(sb: Super, x: OnDisk, y: OnDisk, logs: set<nat>, b: nat, d: Block)
    requires sb.Valid() && Covers(sb, x, y, logs) && sb.datastart <= b < |y.data| == sb.size
    ensures Covers(sb, x, y.(data := y.data[b := d]), logs + {b})
  {
    var y', logs' := y.(data := y.data[b := d]), logs + {b};
    forall k: nat ensures KeptAt(sb, x, y', logs', k) { assert KeptAt(sb, x, y, logs, k); }
  }

  // an inode is written
  lemma CoverInode(sb: Super, x: OnDisk, y: OnDisk, logs: set<nat>, i: nat, d: Dinode)
    requires sb.Valid() && Covers(sb, x, y, logs) && i < |y.dinode| == sb.ninodes
    ensures Covers(sb, x, y.(dinode := y.dinode[i := d]), logs + {sb.IBlock(i)})
  {
    var y', logs' := y.(dinode := y.dinode[i := d]), logs + {sb.IBlock(i)};
    forall k: nat ensures KeptAt(sb, x, y', logs', k) { assert KeptAt(sb, x, y, logs, k); }
  }

  // the bit of block b is written
  lemma CoverBit(sb: Super, x: OnDisk, y: OnDisk, logs: set<nat>, b: nat, bytes: seq<bv8>)
    requires sb.Valid() && Covers(sb, x, y, logs) && b < sb.size && |bytes| == |y.bytes|
    requires forall j :: 0 <= j < |bytes| && j != b / 8 ==> bytes[j] == y.bytes[j]
    ensures Covers(sb, x, y.(bytes := bytes), logs + {sb.BBlock(b)})
  {
    var y', logs' := y.(bytes := bytes), logs + {sb.BBlock(b)};
    assert b / 8 / BSIZE == b / BPB;
    forall k: nat ensures KeptAt(sb, x, y', logs', k) { assert KeptAt(sb, x, y, logs, k); }
  }

  // what a new indirect block adds to the log
  ghost function IndirectLog(sb: Super, before: nat, now: nat): set<nat> {
    if now == 0 then {} else if before != 0 then {now} else {now, sb.BBlock(now)}
  }

  // how many blocks that is at most
  function IndirectCost(before: nat, now: nat): nat {
    if now == 0 then 0 else if before != 0 then 1 else 2
  }

  // what writei logs beside the block of the inode, which it has changed from d to e
  ghost predicate FewLogged(sb: Super, inum: nat, off: nat, n: nat, d: Dinode, e: Dinode, logged0: set<nat>,
                            logged: set<nat>) {
    && Shaped(d) && Shaped(e)
    && |logged - logged0 - {sb.IBlock(inum)}|
       <= DataCost(off, n, d.size) + IndirectCost(d.addrs[NDIRECT], e.addrs[NDIRECT])
    && (off + n <= DIRECT ==> e.addrs[NDIRECT] == d.addrs[NDIRECT])
  }

  // what writei has logged, with and without the block of the inode
  lemma WriteLogSize(sb: Super, logged: set<nat>, logged0: set<nat>, a: set<nat>, b: set<nat>, before: nat, now: nat,
                     i: nat)
    requires logged <= logged0 + a + b + (IndirectLog(sb, before, now) + {i})
    ensures |logged - logged0| <= |a| + |b| + 3
    ensures |logged - logged0 - {i}| <= |a| + |b| + IndirectCost(before, now)
  {
    LogSize(logged, logged0, a, b, IndirectLog(sb, before, now) + {i});
    LogSize(logged - {i}, logged0, a, b, IndirectLog(sb, before, now));
    assert logged - {i} - logged0 == logged - logged0 - {i};
  }

  // what bmap logs when it allocates
  ghost function MapLog(sb: Super, bn: nat, addr: nat, indirect: nat, newIndirect: bool): set<nat> {
    {addr, sb.BBlock(addr)}
    + (if bn >= NDIRECT then {indirect} else {})
    + (if bn >= NDIRECT && newIndirect then {sb.BBlock(indirect)} else {})
  }

  /**
   writei, begun in w and now in x, has written tot bytes and has the blocks up to reach; dataLog and
   mapLog hold the data blocks and the bit map blocks that it may have logged.
   */
  ghost predicate WriteOk(sb: Super, w: Start, x: Start, inum: nat, off: nat, src: seq<Byte>, tot: nat, reach: nat,
                          dataLog: set<nat>, mapLog: set<nat>) {
    && inum in x.icache && inum < |w.table| && AllShaped(w.table) && AllShaped(x.table) && x.dinode == w.dinode
    && inum < |x.table| && x.table[inum] == x.icache[inum]
    && x.icache == w.icache[inum := x.icache[inum]] && SameAttributes(x.icache[inum], w.table[inum])
    && Written(w.data, w.table, x.data, x.table, inum, off, src, tot)
    && Grows(w.data, w.table, x.data, x.table, inum)
    && Backed(x.icache[inum], x.data, Max(w.table[inum].size, reach))
    && (reach <= w.table[inum].size ==> x.icache == w.icache)
    && (reach <= DIRECT ==> x.icache[inum].addrs[NDIRECT] == w.table[inum].addrs[NDIRECT])
    && x.logged <= w.logged + dataLog + mapLog
                   + IndirectLog(sb, w.table[inum].addrs[NDIRECT], x.icache[inum].addrs[NDIRECT])
  }

  // what bmap has done to x
  ghost predicate MapDone(sb: Super, x: Start, y: Start, inum: nat, bn: nat, addr: nat) {
    && bn < MAXFILE && inum in x.icache && inum in y.icache && y.dinode == x.dinode
    && y.icache == x.icache[inum := y.icache[inum]]
    && AllShaped(x.table) && AllShaped(y.table) && inum < |x.table| == |y.table|
    && x.table[inum] == x.icache[inum] && y.table[inum] == y.icache[inum]
    && addr == Slot(y.table[inum], y.data, bn) != 0
    && Mapped(x.data, x.table, y.data, y.table, inum, {Place(inum, INDIRECT), Place(inum, bn)})
    && (bn < NDIRECT ==> y.icache[inum].addrs[NDIRECT] == x.icache[inum].addrs[NDIRECT])
    && if Slot(x.table[inum], x.data, bn) != 0 then y.data == x.data && y.icache == x.icache && y.logged == x.logged
       else y.logged <= x.logged
                        + MapLog(sb, bn, addr, y.icache[inum].addrs[NDIRECT], x.icache[inum].addrs[NDIRECT] == 0)
  }

  ghost function MoreLogged(sb: Super, x: Start, inum: nat, bn: nat, addr: nat, mapLog: set<nat>): set<nat>
    requires inum < |x.table| && Shaped(x.table[inum]) && bn < MAXFILE
  {
    if Slot(x.table[inum], x.data, bn) == 0 then mapLog + {sb.BBlock(addr)} else mapLog
  }

  lemma MapLogged(sb: Super, w: Start, x: Start, y: Start, inum: nat, off: nat, src: seq<Byte>, tot: nat,
                  dataLog: set<nat>, mapLog: set<nat>, bn: nat, addr: nat)
    requires WriteOk(sb, w, x, inum, off, src, tot, off + tot, dataLog, mapLog) && MapDone(sb, x, y, inum, bn, addr)
    ensures y.logged <= w.logged + (dataLog + {addr}) + MoreLogged(sb, x, inum, bn, addr, mapLog)
                        + IndirectLog(sb, w.table[inum].addrs[NDIRECT], y.icache[inum].addrs[NDIRECT])
  {
    assert GrowsAt(w.data, w.table, x.data, x.table, inum, inum, INDIRECT);
    assert KeptOrFilled(x.data, x.table, y.data, y.table, {Place(inum, INDIRECT), Place(inum, bn)}, inum, INDIRECT);
  }

  lemma MapStep(sb: Super, w: Start, x: Start, y: Start, inum: nat, off: nat, src: seq<Byte>, tot: nat,
                dataLog: set<nat>, mapLog: set<nat>, addr: nat)
    requires WriteOk(sb, w, x, inum, off, src, tot, off + tot, dataLog, mapLog)
    requires tot < |src| && off + |src| <= MAXBYTES && off <= w.table[inum].size
    requires MapDone(sb, x, y, inum, (off + tot) / BSIZE, addr)
    ensures WriteOk(sb, w, y, inum, off, src, tot, off + (tot + ChunkSize(off, |src|, tot)), dataLog + {addr},
                    MoreLogged(sb, x, inum, (off + tot) / BSIZE, addr, mapLog))
    ensures Slot(x.table[inum], x.data, (off + tot) / BSIZE) == 0 ==>
              (off + tot) / BSIZE >= BlockCount(w.table[inum].size)
  {
    var bn, size, m := (off + tot) / BSIZE, w.table[inum].size, ChunkSize(off, |src|, tot);
    GrowsMapped(w.data, w.table, x.data, x.table, inum, y.data, y.table, bn);
    WrittenMapped(w.data, w.table, x.data, x.table, inum, off, src, tot, y.data, y.table);
    MappedBacked(x.data, x.table, y.data, y.table, inum, bn, Max(size, off + tot), Max(size, off + tot + m));
    MapLogged(sb, w, x, y, inum, off, src, tot, dataLog, mapLog, bn, addr);
  }

  // the bytes of the next piece are stored in block a
  lemma StoreStep(sb: Super, w: Start, x: Start, y: Start, inum: nat, off: nat, src: seq<Byte>, tot: nat, tot': nat,
                  dataLog: set<nat>, mapLog: set<nat>, a: nat)
    requires WriteOk(sb, w, x, inum, off, src, tot, off + tot', dataLog, mapLog) && a in dataLog
    requires y == x.(data := y.data, logged := x.logged + {a})
    requires Written(w.data, w.table, y.data, y.table, inum, off, src, tot')
    requires Grows(w.data, w.table, y.data, y.table, inum)
    requires forall k: nat :: k < NSLOTS ==> Slot(x.icache[inum], y.data, k) == Slot(x.icache[inum], x.data, k)
    ensures WriteOk(sb, w, y, inum, off, src, tot', off + tot', dataLog, mapLog)
  {
  }

  // writei's loop at tot of n bytes, having logged a data blocks and b bit map blocks
  ghost predicate LoopNumbers(off: nat, n: nat, size: nat, tot: nat, a: nat, b: nat) {
    && tot <= n && off + n <= MAXBYTES && off <= size && (tot == 0 || tot == n || (off + tot) % BSIZE == 0)
    && a <= Touched(off, tot) && b <= Missing(off, tot, size)
  }

  lemma LoopNext(off: nat, n: nat, size: nat, tot: nat, a: nat, b: nat, a': nat, b': nat)
    requires LoopNumbers(off, n, size, tot, a, b) && tot < n && a' <= a + 1
    requires b' <= b + if (off + tot) / BSIZE < BlockCount(size) then 0 else 1
    ensures LoopNumbers(off, n, size, tot + ChunkSize(off, n, tot), a', b')
  {
    TouchedStep(off, tot, ChunkSize(off, n, tot), size);
  }

  // the bit map blocks in which the bits of some blocks are
  ghost function MapBlocks(sb: Super, blocks: set<nat>): set<nat> {
    set b | b in blocks :: sb.BBlock(b)
  }

  lemma MapBlocksMore(sb: Super, blocks: set<nat>, b: nat)
    ensures MapBlocks(sb, blocks + {b}) == MapBlocks(sb, blocks) + {sb.BBlock(b)}
    ensures MapBlocks(sb, {}) == {}
  {
  }

  /** There are size / BPB + 1 bit map blocks, so itrunc and the iupdate after it log at most one more. */
  lemma TruncateCost(sb: Super, blocks: set<nat>, i: nat, logged: set<nat>)
    requires forall b :: b in blocks ==> b < sb.size
    ensures var more := logged + (MapBlocks(sb, blocks) + {i}) - logged;
            |more| <= sb.size / BPB + 2 && (sb.size < 36864 ==> |more| <= MAXOPBLOCKS)
  {
    var all := Range(sb.bmapstart, sb.bmapstart + sb.size / BPB + 1);
    assert MapBlocks(sb, blocks) <= all;
    SubsetSize(logged + (MapBlocks(sb, blocks) + {i}) - logged, all + {i});
  }

  class FileSystem {
    const sb: Super
    const bits: Bits
    var dinode: seq<Dinode>        // the inodes on disk
    var data: seq<Block>           // all blocks, of which datastart.. are data
    var icache: map<nat, Dinode>   // in-memory copies of inodes
    var logged: set<nat>           // the blocks passed to log_write since begin_op
    ghost var owner: map<nat, Place>
    ghost var base: OnDisk          // what was on disk then

    ghost function Table(): (t: seq<Dinode>)
      reads this
    {
      TableOf(dinode, icache)
    }

    ghost function Disk(): OnDisk
      reads this, bits, bits.bytes
    {
      OnDisk(data, dinode, bits.bytes[..])
    }

    // everything changed since begin_op has been logged
    ghost predicate Shape()
      reads this, bits, bits.bytes
    {
      && sb.Valid() && |data| == sb.size && |dinode| == sb.ninodes
      && sb.size <= 8 * bits.bytes.Length && Covers(sb, base, Disk(), logged)
      && forall i :: i in icache ==> i < sb.ninodes && Shaped(icache[i])
    }

    // the bit map is set exactly on the metadata and the referenced blocks
    ghost predicate MapOk()
      reads this, bits
    {
      forall b: nat :: b in bits.used <==> b < sb.datastart || b in owner
    }

    /** Block ownership. */
    ghost predicate Valid()
      reads this, bits, bits.bytes
    {
      Shape() && bits.Valid() && MapOk() && Owned(sb.datastart, data, Table(), owner)
    }

    // no block is free
    ghost predicate Full()
      reads this, bits
    {
      forall b: nat :: b < sb.size ==> b in bits.used
    }

    constructor (sb: Super, bits: Bits, dinode: seq<Dinode>, data: seq<Block>, ghost owner: map<nat, Place>)
      ensures this.sb == sb && this.bits == bits && this.dinode == dinode && this.data == data
      ensures this.owner == owner && icache == map[] && logged == {} && base == Disk()
              && Covers(sb, base, Disk(), logged)
    {
      this.sb, this.bits, this.dinode, this.data := sb, bits, dinode, data;
      this.owner, icache, logged := owner, map[], {};
      base := OnDisk(data, dinode, bits.bytes[..]);
      CoverNothing(sb, OnDisk(data, dinode, bits.bytes[..]));
    }

    /** balloc: mark the lowest free block and zero it; None is the panic "out of blocks". */
    method Balloc() returns (r: Option<nat>)
      requires Valid()
      modifies this`data, this`logged, bits, bits.bytes
      ensures Shape() && bits.Valid()
      ensures r.None? ==> data == old(data) && logged == old(logged) && bits.used == old(bits.used)
      ensures r.None? ==> Full()
      ensures r.Some? ==>
                var b := r.value;
                && sb.datastart <= b < sb.size && b !in owner
                && bits.used == old(bits.used) + {b}
                && data == old(data)[b := ZeroBlock]
                && logged == old(logged) + {sb.BBlock(b), b}
    {
      r := bits.FindFree(sb.size);
      if r.Some? {
        ghost var x := Disk();
        bits.SetBit(r.value);
        CoverBit(sb, base, x, logged, r.value, bits.bytes[..]);
        CoverData(sb, base, Disk(), logged + {sb.BBlock(r.value)}, r.value, ZeroBlock);
        data := data[r.value := ZeroBlock];
        logged := logged + {sb.BBlock(r.value), r.value};
        assert old(logged) + {sb.BBlock(r.value)} + {r.value} == logged;
      }
    }

    /** bfree; false is the panic "freeing free block". */
    method Bfree(b: nat) returns (ok: bool)
      requires Shape() && bits.Valid() && b < sb.size
      modifies this`logged, bits, bits.bytes
      ensures Shape() && bits.Valid() && (ok <==> b in old(bits.used))
      ensures !ok ==> bits.used == old(bits.used) && logged == old(logged)
      ensures ok ==> bits.used == old(bits.used) - {b} && logged == old(logged) + {sb.BBlock(b)}
    {
      ok := bits.TestBit(b);
      if ok {
        ghost var x := Disk();
        bits.ClearBit(b);
        CoverBit(sb, base, x, logged, b, bits.bytes[..]);
        logged := logged + {sb.BBlock(b)};
      }
    }

    // put the freshly zeroed block b into an empty place of an inode
    method PutBlock(inum: nat, k: nat, b: nat, ghost d0: seq<Block>, ghost t0: seq<Dinode>)
      requires Shape() && inum in icache && t0 == Table() && Fillable(sb.datastart, d0, t0, owner, inum, k, b)
      requires data == d0[b := ZeroBlock]
      modifies this`data, this`icache, this`owner, this`logged
      ensures Shape() && inum in icache && icache == old(icache)[inum := icache[inum]]
      ensures Grew(sb.datastart, d0, t0, old(owner), data, Table(), owner, inum, k, b)
      ensures logged == old(logged) + if NDIRECT <= k < INDIRECT then {old(icache[inum]).addrs[NDIRECT]} else {}
    {
      var d := icache[inum];
      if NDIRECT <= k < INDIRECT {
        IndirectOwner(sb.datastart, d0, t0, owner, inum);
        CoverData(sb, base, Disk(), logged, d.addrs[NDIRECT], FillData(d, data, k, b)[d.addrs[NDIRECT]]);
        logged := logged + {d.addrs[NDIRECT]};
      }
      data, icache := FillData(d, data, k, b), icache[inum := FillInode(d, k, b)];
      TableUpdate(dinode, old(icache), inum, icache[inum]);
      AllocFill(sb.datastart, d0, t0, owner, inum, k, b, data, Table());
      owner := owner[b := Place(inum, k)];
    }

    // allocate a block and put it into an empty place of an inode
    method AllocPlace(inum: nat, k: nat) returns (r: Option<nat>)
      requires Valid() && inum in icache && k < NSLOTS && Slot(Table()[inum], data, k) == 0
      requires NDIRECT <= k < INDIRECT ==> icache[inum].addrs[NDIRECT] != 0
      modifies this`data, this`icache, this`owner, this`logged, bits, bits.bytes
      ensures r.Some? ==> Valid() && inum in icache && icache == old(icache)[inum := icache[inum]]
      ensures r.Some? ==> Grew(sb.datastart, old(data), old(Table()), old(owner), data, Table(), owner, inum, k,
                r.value)
      ensures r.Some? ==>
                logged == old(logged) + {sb.BBlock(r.value), r.value}
                          + if NDIRECT <= k < INDIRECT then {old(icache[inum]).addrs[NDIRECT]} else {}
      ensures r.None? ==> Full()
    {
      IndirectOwner(sb.datastart, data, Table(), owner, inum);
      ghost var d0, t0 := data, Table();
      r := Balloc();
      assert Table() == t0;
      if r.Some? {
        PutBlock(inum, k, r.value, d0, t0);
      }
    }

    /** What bmap promises, on a direct and on an indirect address alike. */
    twostate predicate MappedBlock(inum: nat, bn: nat, addr: nat)
      reads this, bits, bits.bytes
    {
      && Valid() && bn < MAXFILE && inum in old(icache) && inum < old(|dinode|)
      && old(Shape()) && dinode == old(dinode)
      && inum in icache && icache == old(icache)[inum := icache[inum]]
      && addr == Slot(Table()[inum], data, bn) != 0
      && Mapped(old(data), old(Table()), data, Table(), inum, {Place(inum, INDIRECT), Place(inum, bn)})
      && (bn < NDIRECT ==> icache[inum].addrs[NDIRECT] == old(icache)[inum].addrs[NDIRECT])
      && if old(Slot(Table()[inum], data, bn)) != 0 then
           data == old(data) && icache == old(icache) && owner == old(owner) && logged == old(logged)
         else
           logged <= old(logged)
                     + MapLog(sb, bn, addr, icache[inum].addrs[NDIRECT], old(icache)[inum].addrs[NDIRECT] == 0)
    }

    method BmapDirect(inum: nat, bn: nat) returns (r: Option<nat>)
      requires Valid() && inum in icache && bn < NDIRECT
      modifies this`data, this`icache, this`owner, this`logged, bits, bits.bytes
      ensures r.Some? ==> MappedBlock(inum, bn, r.value)
      ensures old(Slot(Table()[inum], data, bn)) != 0 ==> r.Some?
      ensures r.None? ==> Full()
    {
      ghost var d0, t0, o0, grown := data, Table(), owner, {Place(inum, INDIRECT), Place(inum, bn)};
      var addr := icache[inum].addrs[bn];
      if addr != 0 {
        NothingMapped(d0, t0, inum, grown);
        return Some(addr);
      }
      r := AllocPlace(inum, bn);
      if r.Some? {
        GrewMapped(sb.datastart, d0, t0, o0, data, Table(), owner, inum, bn, r.value, grown);
        assert Place(inum, INDIRECT) !in {Place(inum, bn)};
        assert SameSlot(d0, t0, data, Table(), inum, INDIRECT);
      }
    }

    // load the indirect block, allocating it if necessary
    method IndirectBlock(inum: nat) returns (r: Option<nat>)
      requires Valid() && inum in icache
      modifies this`data, this`icache, this`owner, this`logged, bits, bits.bytes
      ensures r.Some? ==> Valid() && inum in icache && icache == old(icache)[inum := icache[inum]]
      ensures r.Some? ==> icache[inum].addrs[NDIRECT] == r.value && 0 < r.value < sb.size
      ensures old(icache[inum].addrs[NDIRECT]) != 0 ==>
                r.Some? && data == old(data) && icache == old(icache) && owner == old(owner) && logged == old(logged)
      ensures r.Some? && old(icache[inum].addrs[NDIRECT]) == 0 ==>
                && Grew(sb.datastart, old(data), old(Table()), old(owner), data, Table(), owner, inum, INDIRECT,
                  r.value)
                && logged == old(logged) + {sb.BBlock(r.value), r.value}
      ensures r.None? ==> Full()
    {
      IndirectOwner(sb.datastart, data, Table(), owner, inum);
      if icache[inum].addrs[NDIRECT] != 0 {
        return Some(icache[inum].addrs[NDIRECT]);
      }
      r := AllocPlace(inum, INDIRECT);
    }

    method BmapIndirect(inum: nat, bn: nat) returns (r: Option<nat>)
      requires Valid() && inum in icache && NDIRECT <= bn < MAXFILE
      modifies this`data, this`icache, this`owner, this`logged, bits, bits.bytes
      ensures r.Some? ==> MappedBlock(inum, bn, r.value)
      ensures old(Slot(Table()[inum], data, bn)) != 0 ==> r.Some?
      ensures r.None? ==> Full()
    {
      ghost var d0, t0, o0, grown := data, Table(), owner, {Place(inum, INDIRECT), Place(inum, bn)};
      NothingMapped(d0, t0, inum, grown);
      r := IndirectBlock(inum);
      if r.None? { return; }
      var a := r.value;
      ghost var d1, t1, o1, e := data, Table(), owner, icache[inum];
      if old(icache[inum].addrs[NDIRECT]) == 0 {
        GrewMapped(sb.datastart, d0, t0, o0, d1, t1, o1, inum, INDIRECT, a, grown);
        assert Place(inum, bn) !in {Place(inum, INDIRECT)};
        assert SameSlot(d0, t0, d1, t1, inum, bn);
      }
      var addr := GetWord(data[a], bn - NDIRECT);
      if addr != 0 {
        return Some(addr);
      }
      r := AllocPlace(inum, bn);
      if r.Some? {
        GrewMapped(sb.datastart, d1, t1, o1, data, Table(), owner, inum, bn, r.value, grown);
        MappedTrans(d0, t0, d1, t1, data, Table(), inum, grown);
        assert Place(inum, INDIRECT) !in {Place(inum, bn)};
        assert SameSlot(d1, t1, data, Table(), inum, INDIRECT);
        UpdatedTwice(old(icache), inum, e, icache[inum]);
      }
    }

    /**
     bmap: the block that holds block bn of the inode, allocated if there was none; None is a
     panic.  No file changes and no place but the two that bmap may fill; a block that was
     there is left alone and logs nothing.
     */
    method Bmap(inum: nat, bn: nat) returns (r: Option<nat>)
      requires Valid() && inum in icache
      modifies this`data, this`icache, this`owner, this`logged, bits, bits.bytes
      ensures r.Some? ==> MappedBlock(inum, bn, r.value)
      ensures bn < MAXFILE && old(Slot(Table()[inum], data, bn)) != 0 ==> r.Some?
      ensures r.None? ==> bn >= MAXFILE || Full()
    {
      if bn < NDIRECT {
        r := BmapDirect(inum, bn);
      } else if bn < MAXFILE {
        r := BmapIndirect(inum, bn);
      } else {
        r := None;
      }
    }

    /** Between operations: ownership, no file with a hole, and tidy inodes. */
    ghost predicate Sound()
      reads this, bits, bits.bytes
    {
      Valid() && AllNoHoles(data, Table()) && Tidy(dinode, icache)
    }

    /** ilock: the inode into the cache, if it is not there; false is the panic for a free one. */
    method Ilock(inum: nat) returns (ok: bool)
      requires Valid() && Tidy(dinode, icache) && inum < sb.ninodes
      modifies this`icache
      ensures ok <==> dinode[inum].kind != 0
      ensures ok ==> Valid() && Tidy(dinode, icache) && icache == old(icache)[inum := dinode[inum]]
      ensures ok ==> Table() == old(Table()) && (Sound() <==> old(Sound()))
    {
      ghost var t := Table();
      assert Shaped(t[inum]);
      if inum !in icache {
        icache := icache[inum := dinode[inum]];
      }
      assert Table() == t && icache == old(icache)[inum := dinode[inum]];
      ok := icache[inum].kind != 0;
    }

    /** The inode is in memory and every block below its end is there. */
    ghost predicate Readable(inum: nat)
      reads this, bits, bits.bytes
    {
      Valid() && inum in icache && NoHoles(icache[inum], data)
    }

    // bmap on a block below the end of the file: it is there, and nothing changes
    method MapBelowEnd(inum: nat, pos: nat) returns (a: nat)
      requires Readable(inum) && pos < icache[inum].size
      modifies this`data, this`icache, this`owner, this`logged, bits, bits.bytes
      ensures data == old(data) && icache == old(icache) && owner == old(owner) && logged == old(logged)
      ensures Valid() && pos / BSIZE < MAXFILE && a == Slot(icache[inum], data, pos / BSIZE) && 0 < a < |data|
    {
      assert Table()[inum] == icache[inum];
      assert pos / BSIZE < BlockCount(icache[inum].size);
      var r := Bmap(inum, pos / BSIZE);
      SlotInRange(sb.datastart, data, Table(), owner, inum, pos / BSIZE);
      a := r.value;
    }

    // one round of readi's loop: at most left bytes, up to the end of the block
    method ReadPiece(inum: nat, pos: nat, left: nat) returns (b: seq<Byte>)
      requires Readable(inum) && left > 0 && pos + left <= icache[inum].size
      modifies this`data, this`icache, this`owner, this`logged, bits, bits.bytes
      ensures data == old(data) && icache == old(icache) && owner == old(owner) && logged == old(logged)
      ensures Valid() && icache[inum].size <= MAXBYTES && 0 < |b| <= left
      ensures b == Content(icache[inum], data)[pos..pos + |b|]
    {
      var a := MapBelowEnd(inum, pos);
      var m := if left < BSIZE - pos % BSIZE then left else BSIZE - pos % BSIZE;
      ReadChunk(icache[inum], data, pos, m);
      b := data[a][pos % BSIZE..pos % BSIZE + m];
    }

    // the loop
    method ReadAll(inum: nat, off: nat, len: nat) returns (dst: seq<Byte>)
      requires Readable(inum) && off + len <= icache[inum].size
      modifies this`data, this`icache, this`owner, this`logged, bits, bits.bytes
      ensures data == old(data) && icache == old(icache) && owner == old(owner) && logged == old(logged)
      ensures Valid() && icache[inum].size <= MAXBYTES && |dst| == len
      ensures dst == Content(icache[inum], data)[off..off + len]
    {
      ghost var c := Content(icache[inum], data);
      var tot := 0;
      dst := [];
      while tot < len
        invariant 0 <= tot <= len && Readable(inum) && dst == c[off..off + tot]
        invariant data == old(data) && icache == old(icache) && owner == old(owner) && logged == old(logged)
      {
        var b := ReadPiece(inum, off + tot, len - tot);
        assert c[off..off + tot] + b == c[off..off + tot + |b|];
        dst := dst + b;
        tot := tot + |b|;
      }
    }

    /**
     readi: the slice of the file, cut at its end; -1 for an offset beyond the end or a range
     that wraps around.  It calls bmap, which could allocate; no block below the end of the
     file is missing, so it never does.
     */
    method Readi(inum: nat, off: Word, n: Word) returns (r: int, dst: seq<Byte>)
      requires Readable(inum) && icache[inum].kind != T_DEV
      modifies this`data, this`icache, this`owner, this`logged, bits, bits.bytes
      ensures data == old(data) && icache == old(icache) && owner == old(owner) && logged == old(logged)
      ensures Valid() && (old(Sound()) ==> Sound())
      ensures r == -1 <==> off > icache[inum].size || off + n >= UINT_LIMIT
      ensures icache[inum].size <= MAXBYTES
      ensures r != -1 ==>
                var c := Content(icache[inum], data);
                r == |dst| && dst == c[off..if off + n > |c| then |c| else off + n]
    {
      var size := icache[inum].size;
      dst := [];
      if off > size || (off + n) % UINT_LIMIT < off {
        return -1, dst;
      }
      var len := if off + n > size then size - off else n;
      dst := ReadAll(inum, off, len);
      return len, dst;
    }

    ghost function Now(): Start
      reads this
    {
      Start(data, Table(), icache, dinode, logged)
    }

    ghost predicate Writing(w: Start, inum: nat, off: nat, src: seq<Byte>, tot: nat, reach: nat,
                            dataLog: set<nat>, mapLog: set<nat>)
      reads this, bits, bits.bytes
    {
      Valid() && WriteOk(sb, w, Now(), inum, off, src, tot, reach, dataLog, mapLog)
    }

    // find or allocate the block of writei's next round
    method MapForWrite(inum: nat, off: nat, src: seq<Byte>, tot: nat, ghost tot': nat, ghost w: Start,
                       ghost dataLog: set<nat>, ghost mapLog: set<nat>)
      returns (r: Option<nat>, ghost mapLog': set<nat>)
      requires Writing(w, inum, off, src, tot, off + tot, dataLog, mapLog)
      requires tot < |src| && off + |src| <= MAXBYTES && off <= w.table[inum].size
      requires tot' == tot + ChunkSize(off, |src|, tot)
      modifies this`data, this`icache, this`owner, this`logged, bits, bits.bytes
      ensures r.Some? ==>
                && Writing(w, inum, off, src, tot, off + tot', dataLog + {r.value}, mapLog')
                && r.value == Slot(icache[inum], data, (off + tot) / BSIZE) != 0
      ensures r.None? ==> Full()
      ensures |mapLog'| <= |mapLog| + if (off + tot) / BSIZE < BlockCount(w.table[inum].size) then 0 else 1
    {
      ghost var x := Now();
      mapLog' := mapLog;
      r := Bmap(inum, (off + tot) / BSIZE);
      if r.None? { return; }
      assert MapDone(sb, x, Now(), inum, (off + tot) / BSIZE, r.value);
      MapStep(sb, w, x, Now(), inum, off, src, tot, dataLog, mapLog, r.value);
      mapLog' := MoreLogged(sb, x, inum, (off + tot) / BSIZE, r.value, mapLog);
    }

    // copy the next m bytes into block a and log it
    method StoreChunk(inum: nat, off: nat, src: seq<Byte>, tot: nat, tot': nat, a: nat,
                      ghost w: Start, ghost dataLog: set<nat>, ghost mapLog: set<nat>)
      requires tot < |src| && off + |src| <= MAXBYTES && tot' == tot + ChunkSize(off, |src|, tot)
      requires Writing(w, inum, off, src, tot, off + tot', dataLog, mapLog)
      requires a == Slot(icache[inum], data, (off + tot) / BSIZE) != 0 && a in dataLog
      modifies this`data, this`logged
      ensures Writing(w, inum, off, src, tot', off + tot', dataLog, mapLog)
    {
      var pos, m := off + tot, ChunkSize(off, |src|, tot);
      ghost var t, d1 := Table(), data;
      SlotInRange(sb.datastart, data, t, owner, inum, pos / BSIZE);
      var x := Patch(data[a], pos % BSIZE, src[tot..tot + m]);
      GrowsWritten(sb.datastart, w.data, w.table, data, t, owner, inum, pos / BSIZE, x);
      WriteChunk(sb.datastart, w.data, w.table, data, t, owner, inum, off, src, tot, m, data[a := x]);
      CoverData(sb, base, Disk(), logged, a, x);
      ghost var now := Now();
      data := data[a := x];
      logged := logged + {a};
      assert Table() == t;
      assert forall k: nat :: k < NSLOTS ==> Slot(icache[inum], data, k) == Slot(icache[inum], d1, k);
      StoreStep(sb, w, now, Now(), inum, off, src, tot, tot', dataLog, mapLog, a);
    }

    /** iupdate: the in-memory inode to its place on disk. */
    method Iupdate(inum: nat)
      requires Shape() && inum in icache
      modifies this`dinode, this`logged
      ensures Shape()
      ensures inum < |old(dinode)| && dinode == old(dinode)[inum := icache[inum]]
      ensures logged == old(logged) + {sb.IBlock(inum)} && Table() == old(Table())
    {
      CoverInode(sb, base, Disk(), logged, inum, icache[inum]);
      dinode := dinode[inum := icache[inum]];
      logged := logged + {sb.IBlock(inum)};
    }

    // writei's loop at tot, with the number of blocks logged bounded
    ghost predicate InLoop(w: Start, inum: nat, off: nat, src: seq<Byte>, tot: nat, dataLog: set<nat>, mapLog: set<nat>)
      reads this, bits, bits.bytes
    {
      && Writing(w, inum, off, src, tot, off + tot, dataLog, mapLog)
      && LoopNumbers(off, |src|, w.table[inum].size, tot, |dataLog|, |mapLog|)
    }

    // one round of it: map the block, store the bytes
    method WritePiece(inum: nat, off: nat, src: seq<Byte>, tot: nat, tot': nat,
                      ghost w: Start, ghost dataLog: set<nat>, ghost mapLog: set<nat>)
      returns (ok: bool, ghost dataLog': set<nat>, ghost mapLog': set<nat>)
      requires Writing(w, inum, off, src, tot, off + tot, dataLog, mapLog)
      requires tot < |src| && off + |src| <= MAXBYTES && off <= w.table[inum].size
               && tot' == tot + ChunkSize(off, |src|, tot)
      modifies this`data, this`icache, this`owner, this`logged, bits, bits.bytes
      ensures ok ==> Writing(w, inum, off, src, tot', off + tot', dataLog', mapLog') && |dataLog'| <= |dataLog| + 1
      ensures ok ==> |mapLog'| <= |mapLog| + if (off + tot) / BSIZE < BlockCount(w.table[inum].size) then 0 else 1
      ensures !ok ==> Full()
    {
      var r;
      r, mapLog' := MapForWrite(inum, off, src, tot, tot', w, dataLog, mapLog);
      if r.None? { return false, dataLog, mapLog'; }
      dataLog' := dataLog + {r.value};
      StoreChunk(inum, off, src, tot, tot', r.value, w, dataLog', mapLog');
      ok := true;
    }

    method WriteOne(inum: nat, off: nat, src: seq<Byte>, tot: nat, ghost w: Start, ghost dataLog: set<nat>,
                    ghost mapLog: set<nat>)
      returns (ok: bool, tot': nat, ghost dataLog': set<nat>, ghost mapLog': set<nat>)
      requires InLoop(w, inum, off, src, tot, dataLog, mapLog) && tot < |src|
      modifies this`data, this`icache, this`owner, this`logged, bits, bits.bytes
      ensures ok ==> tot < tot' <= |src| && InLoop(w, inum, off, src, tot', dataLog', mapLog')
      ensures !ok ==> Full()
    {
      tot' := tot + ChunkSize(off, |src|, tot);
      ok, dataLog', mapLog' := WritePiece(inum, off, src, tot, tot', w, dataLog, mapLog);
      if ok {
        LoopNext(off, |src|, w.table[inum].size, tot, |dataLog|, |mapLog|, |dataLog'|, |mapLog'|);
      }
    }

    // the loop of writei
    method WriteAll(inum: nat, off: nat, src: seq<Byte>, ghost w: Start)
      returns (ok: bool, ghost dataLog: set<nat>, ghost mapLog: set<nat>)
      requires InLoop(w, inum, off, src, 0, {}, {})
      modifies this`data, this`icache, this`owner, this`logged, bits, bits.bytes
      ensures ok ==> InLoop(w, inum, off, src, |src|, dataLog, mapLog)
      ensures !ok ==> Full()
    {
      dataLog, mapLog := {}, {};
      var tot := 0;
      while tot < |src|
        invariant 0 <= tot <= |src| && InLoop(w, inum, off, src, tot, dataLog, mapLog)
      {
        ok, tot, dataLog, mapLog := WriteOne(inum, off, src, tot, w, dataLog, mapLog);
        if !ok { return; }
      }
      ok := true;
    }

    // record the new size and write the inode back
    method Grow(inum: nat, off: nat, src: seq<Byte>, ghost w: Start)
      requires Valid() && inum in icache && icache[inum] == Table()[inum] && inum < |w.table| == |Table()|
      requires Written(w.data, w.table, data, Table(), inum, off, src, |src|)
               && Grows(w.data, w.table, data, Table(), inum)
      requires Backed(icache[inum], data, off + |src|)
      modifies this`icache, this`dinode, this`logged
      ensures Valid() && icache == old(icache)[inum := old(icache[inum]).(size := off + |src|)]
      ensures inum < |old(dinode)| && dinode == old(dinode)[inum := icache[inum]]
      ensures Written(w.data, w.table, data, Table(), inum, off, src, |src|)
              && Grows(w.data, w.table, data, Table(), inum)
      ensures Backed(icache[inum], data, off + |src|) && logged == old(logged) + {sb.IBlock(inum)}
    {
      var end := off + |src|;
      ResizeKeeps(sb.datastart, w.data, w.table, data, Table(), owner, inum, off, src, |src|, end);
      ResizeBacked(icache[inum], data, end, end);
      TableUpdate(dinode, icache, inum, icache[inum].(size := end));
      icache := icache[inum := icache[inum].(size := end)];
      Iupdate(inum);
    }

    // if the file grew: record the size and write the inode back
    method FinishWrite(inum: nat, off: nat, src: seq<Byte>, ghost w: Start, ghost dataLog: set<nat>,
                       ghost mapLog: set<nat>)
      requires Writing(w, inum, off, src, |src|, off + |src|, dataLog, mapLog)
      requires inum in w.icache && w.icache[inum] == w.table[inum] && AllNoHoles(w.data, w.table)
      requires Tidy(w.dinode, w.icache)
      requires w.table == TableOf(w.dinode, w.icache) && off <= w.table[inum].size
      modifies this`icache, this`dinode, this`logged
      ensures Sound() && inum in icache && icache == w.icache[inum := icache[inum]]
      ensures inum < |w.dinode| && dinode == w.dinode[inum := icache[inum]]
      ensures icache[inum].size == Max(w.table[inum].size, off + |src|)
      ensures icache[inum] == w.table[inum].(size := icache[inum].size, addrs := icache[inum].addrs)
      ensures Written(w.data, w.table, data, Table(), inum, off, src, |src|)
      ensures logged <= w.logged + dataLog + mapLog
                        + (IndirectLog(sb, w.table[inum].addrs[NDIRECT], icache[inum].addrs[NDIRECT])
                          + {sb.IBlock(inum)})
      ensures off + |src| <= DIRECT ==> icache[inum].addrs[NDIRECT] == w.table[inum].addrs[NDIRECT]
    {
      if |src| > 0 && off + |src| > icache[inum].size {
        ghost var d := icache[inum];
        Grow(inum, off, src, w);
        UpdatedTwice(w.icache, inum, d, icache[inum]);
      }
      assert dinode == w.dinode[inum := icache[inum]];
      TidyUpdate(w.dinode, w.icache, inum, icache[inum]);
      HolesFilled(w.data, w.table, data, Table(), inum);
    }

    /** The ranges that writei rejects. */
    predicate BadRange(off: nat, n: nat, size: nat) {
      off > size || off + n >= UINT_LIMIT || off + n > MAXBYTES
    }

    lemma StartWrite(inum: nat, off: nat, src: seq<Byte>)
      requires Sound() && inum in icache && off <= icache[inum].size && off + |src| <= MAXBYTES
      ensures InLoop(Now(), inum, off, src, 0, {}, {})
      ensures icache[inum].size <= MAXBYTES && Table()[inum] == icache[inum]
    {
      assert NoHoles(Table()[inum], data);
      NothingWritten(data, Table(), inum, off, src);
      NothingGrows(data, Table(), inum);
    }

    // writei once the range is known to be good
    method WriteRange(inum: nat, off: nat, src: seq<Byte>) returns (ok: bool)
      requires Sound() && inum in icache && off <= icache[inum].size && off + |src| <= MAXBYTES
      modifies this`data, this`icache, this`owner, this`logged, this`dinode, bits, bits.bytes
      ensures old(icache[inum].size) <= MAXBYTES
      ensures ok ==> Sound() && inum in icache && icache == old(icache)[inum := icache[inum]]
      ensures ok ==> icache[inum].kind == old(icache[inum].kind) && icache[inum].nlink == old(icache[inum].nlink)
      ensures ok ==> icache[inum].size <= MAXBYTES
      ensures ok ==> Content(icache[inum], data) == Splice(old(Content(icache[inum], data)), off, src)
      ensures ok ==> OthersSame(old(data), old(Table()), data, Table(), inum)
      ensures ok ==> |logged - old(logged)| <= WriteCost(off, |src|, old(icache[inum].size))
      ensures ok ==> FewLogged(sb, inum, off, |src|, old(icache[inum]), icache[inum], old(logged), logged)
      ensures !ok ==> Full()
    {
      ghost var w := Now();
      StartWrite(inum, off, src);
      ghost var dataLog, mapLog;
      ok, dataLog, mapLog := WriteAll(inum, off, src, w);
      if !ok { return; }
      FinishWrite(inum, off, src, w, dataLog, mapLog);
      WrittenContent(w.data, w.table, data, Table(), inum, off, src);
      WrittenOthers(w.data, w.table, data, Table(), inum, off, src, |src|);
      WriteLogSize(sb, logged, w.logged, dataLog, mapLog, w.table[inum].addrs[NDIRECT], icache[inum].addrs[NDIRECT],
                   sb.IBlock(inum));
    }

    /**
     writei: the file is spliced, every other file is as before, no file has a hole, the
     inode is written back, and the blocks logged are bounded; ok is false for the panic of a full disk.
     */
    method Writei(inum: nat, off: Word, src: seq<Byte>) returns (ok: bool, r: int)
      requires Sound() && inum in icache && icache[inum].kind != T_DEV && |src| < UINT_LIMIT
      modifies this`data, this`icache, this`owner, this`logged, this`dinode, bits, bits.bytes
      ensures old(icache[inum].size) <= MAXBYTES
      ensures BadRange(off, |src|, old(icache[inum].size)) ==>
                && ok && r == -1 && Sound() && logged == old(logged)
                && data == old(data) && icache == old(icache) && dinode == old(dinode)
      ensures ok && r == -1 ==> BadRange(off, |src|, old(icache[inum].size))
      ensures ok && r != -1 ==> !BadRange(off, |src|, old(icache[inum].size)) && r == |src| && Sound()
      ensures ok ==> inum in icache && icache == old(icache)[inum := icache[inum]]
      ensures ok ==> icache[inum].kind == old(icache[inum].kind) && icache[inum].nlink == old(icache[inum].nlink)
      ensures ok && r != -1 ==> icache[inum].size <= MAXBYTES
      ensures ok && r != -1 ==> Content(icache[inum], data) == Splice(old(Content(icache[inum], data)), off, src)
      ensures ok ==> OthersSame(old(data), old(Table()), data, Table(), inum)
      ensures ok && r != -1 ==> |logged - old(logged)| <= WriteCost(off, |src|, old(icache[inum].size))
      ensures ok && r != -1 ==> FewLogged(sb, inum, off, |src|, old(icache[inum]), icache[inum], old(logged), logged)
      ensures !ok ==> Full()
    {
      assert NoHoles(Table()[inum], data);
      NothingWritten(data, Table(), inum, off, src);
      WrittenOthers(data, Table(), data, Table(), inum, off, src, 0);
      if off > icache[inum].size || (off + |src|) % UINT_LIMIT < off {
        return true, -1;
      }
      if off + |src| > MAXBYTES {
        return true, -1;
      }
      ok := WriteRange(inum, off, src);
      r := if ok then |src| else -1;
    }

    // what a file holds once writei has been at inum
    ghost function After(c: seq<Byte>, same: bool, off: nat, src: seq<Byte>): seq<Byte> {
      if same && off <= |c| then Splice(c, off, src) else c
    }

    // writei, seen from any file
    method WriteBeside(inum: nat, off: Word, src: seq<Byte>, ghost jnum: nat) returns (ok: bool, w: int)
      requires Sound() && inum in icache && icache[inum].kind != T_DEV && |src| < UINT_LIMIT
      requires jnum in icache && icache[jnum].kind != T_DEV
      modifies this`data, this`icache, this`owner, this`logged, this`dinode, bits, bits.bytes
      ensures old(icache[inum].size) <= MAXBYTES && old(icache[jnum].size) <= MAXBYTES
      ensures ok ==> Sound() && (w == -1 <==> BadRange(off, |src|, old(icache[inum].size))) && jnum in icache
      ensures ok ==> icache[jnum].kind != T_DEV && icache[jnum].size <= MAXBYTES
      ensures ok ==>
                var c := old(Content(icache[jnum], data));
                Content(icache[jnum], data) == After(c, jnum == inum && w != -1, off, src)
      ensures !ok ==> Full()
    {
      assert NoHoles(Table()[inum], data) && NoHoles(Table()[jnum], data);
      ghost var d0, t0 := data, Table();
      ok, w := Writei(inum, off, src);
      if ok {
        assert jnum in icache && NoHoles(Table()[jnum], data);
        assert jnum != inum ==> SameAt(d0, t0, data, Table(), jnum);
      }
    }

    /**
     writei and then readi, of the same file or another, anywhere: what was written, and
     everything else as it was.
     */
    method WriteThenRead(inum: nat, off: Word, src: seq<Byte>, jnum: nat, at: Word, n: Word)
      returns (ok: bool, w: int, r: int, dst: seq<Byte>)
      requires Sound() && inum in icache && icache[inum].kind != T_DEV && |src| < UINT_LIMIT
      requires jnum in icache && icache[jnum].kind != T_DEV
      modifies this`data, this`icache, this`owner, this`logged, this`dinode, bits, bits.bytes
      ensures old(icache[inum].size) <= MAXBYTES && old(icache[jnum].size) <= MAXBYTES
      ensures ok ==> Sound() && (w == -1 <==> BadRange(off, |src|, old(icache[inum].size)))
      ensures ok ==>
                var c := old(Content(icache[jnum], data));
                var c' := After(c, jnum == inum && w != -1, off, src);
                && (r == -1 <==> at > |c'| || at + n >= UINT_LIMIT)
                && (r != -1 ==> dst == c'[at..if at + n > |c'| then |c'| else at + n])
      ensures ok && w != -1 && jnum == inum && at == off && n == |src| ==> r == |src| && dst == src
      ensures !ok ==> Full()
    {
      assert NoHoles(Table()[inum], data);
      ghost var c := Content(icache[inum], data);
      ok, w := WriteBeside(inum, off, src, jnum);
      r, dst := -1, [];
      if !ok { return; }
      assert NoHoles(Table()[jnum], data);
      r, dst := Readi(jnum, at, n);
      if w != -1 { SpliceReadsBack(c, off, src); }
    }

    /** itrunc has freed the blocks in the first k places of the inode. */
    ghost predicate Truncating(w: Start, used: set<nat>, inum: nat, k: nat)
      reads this, bits, bits.bytes
    {
      && Shape() && bits.Valid() && k <= NSLOTS && Owned(sb.datastart, data, w.table, owner) && inum < |w.table|
      && data == w.data && dinode == w.dinode && inum in w.icache && inum in icache && w.icache[inum] == w.table[inum]
      && icache == w.icache[inum := icache[inum]]
      && (forall b: nat :: b in used <==> b < sb.datastart || b in owner)
      && bits.used == used - BlocksUpTo(owner, inum, k)
      && logged == w.logged + MapBlocks(sb, BlocksUpTo(owner, inum, k))
    }

    // free the block in place k, if any
    method FreePlace(inum: nat, k: nat, b: nat, ghost w: Start, ghost used: set<nat>) returns (ok: bool)
      requires Truncating(w, used, inum, k) && k < NSLOTS && b == Slot(w.table[inum], w.data, k)
      modifies this`logged, bits, bits.bytes
      ensures ok && Truncating(w, used, inum, k + 1)
    {
      BlocksStep(sb.datastart, data, w.table, owner, inum, k);
      SlotInRange(sb.datastart, data, w.table, owner, inum, k);
      MapBlocksMore(sb, BlocksUpTo(owner, inum, k), b);
      ok := true;
      if b != 0 {
        ok := Bfree(b);
      }
    }

    // the direct addresses are freed and cleared
    method FreeDirect(inum: nat, ghost w: Start, ghost used: set<nat>) returns (ok: bool)
      requires Truncating(w, used, inum, 0) && icache == w.icache
      modifies this`icache, this`logged, bits, bits.bytes
      ensures ok && Truncating(w, used, inum, NDIRECT) && SameAttributes(icache[inum], w.table[inum])
      ensures forall j :: 0 <= j < NDIRECT ==> icache[inum].addrs[j] == 0
      ensures icache[inum].addrs[NDIRECT] == w.table[inum].addrs[NDIRECT]
    {
      ok := true;
      var i := 0;
      while i < NDIRECT
        invariant 0 <= i <= NDIRECT && Truncating(w, used, inum, i) && ok
        invariant SameAttributes(icache[inum], w.table[inum])
        invariant forall j :: 0 <= j < i ==> icache[inum].addrs[j] == 0
        invariant forall j :: i <= j <= NDIRECT ==> icache[inum].addrs[j] == w.table[inum].addrs[j]
      {
        var d := icache[inum];
        ok := FreePlace(inum, i, d.addrs[i], w, used);
        icache := icache[inum := d.(addrs := d.addrs[i := 0])];
        i := i + 1;
      }
    }

    // the blocks that the indirect block lists, and the indirect block
    method FreeIndirect(inum: nat, ghost w: Start, ghost used: set<nat>) returns (ok: bool)
      requires Truncating(w, used, inum, NDIRECT) && icache[inum].addrs[NDIRECT] == w.table[inum].addrs[NDIRECT]
      modifies this`logged, bits, bits.bytes
      ensures ok && Truncating(w, used, inum, NSLOTS)
    {
      ok := true;
      var a := icache[inum].addrs[NDIRECT];
      IndirectOwner(sb.datastart, data, w.table, owner, inum);
      var j: nat := 0;
      while j < NINDIRECT
        invariant 0 <= j <= NINDIRECT && Truncating(w, used, inum, NDIRECT + j) && ok
        invariant inum in icache && icache[inum].addrs[NDIRECT] == a
      {
        ok := FreePlace(inum, NDIRECT + j, if a == 0 then 0 else GetWord(data[a], j), w, used);
        j := j + 1;
      }
      ok := FreePlace(inum, INDIRECT, a, w, used);
    }

    // the last address and the size are cleared, and the inode is written back
    method ClearInode(inum: nat, ghost w: Start, ghost used: set<nat>)
      requires Truncating(w, used, inum, NSLOTS) && w.table == TableOf(dinode, w.icache)
      requires forall j :: 0 <= j < NDIRECT ==> icache[inum].addrs[j] == 0
      modifies this`icache, this`dinode, this`owner, this`logged
      ensures Valid() && inum in icache && icache == w.icache[inum := icache[inum]]
      ensures NoAddrs(icache[inum])
      ensures icache[inum] == old(icache[inum]).(size := 0, addrs := icache[inum].addrs)
      ensures inum < |old(dinode)| && dinode == old(dinode)[inum := icache[inum]]
      ensures owner == WithoutInode(old(owner), inum) && logged == old(logged) + {sb.IBlock(inum)}
      ensures Table() == w.table[inum := icache[inum]]
    {
      var d := icache[inum].(addrs := icache[inum].addrs[NDIRECT := 0], size := 0);
      icache := icache[inum := d];
      assert icache == w.icache[inum := d];
      TableUpdate(dinode, w.icache, inum, d);
      BlocksAll(sb.datastart, data, w.table, owner, inum);
      TruncateOwned(sb.datastart, data, w.table, owner, inum, d);
      ghost var keys := owner.Keys;
      owner := WithoutInode(owner, inum);
      assert forall b: nat :: b in owner <==> b in keys && b !in BlocksUpTo(old(owner), inum, NSLOTS);
      Iupdate(inum);
    }

    /**
     itrunc gives back exactly the blocks of its inode; the panic "freeing free block" is not
     reachable from it, every block it frees being marked in the bit map.
     */
    method Itrunc(inum: nat) returns (ok: bool)
      requires Valid() && inum in icache
      modifies this`data, this`icache, this`owner, this`logged, this`dinode, bits, bits.bytes
      ensures ok && Valid() && inum in icache && icache == old(icache)[inum := icache[inum]]
      ensures NoAddrs(icache[inum])
      ensures icache[inum] == old(icache[inum]).(size := 0, addrs := icache[inum].addrs)
      ensures data == old(data) && inum < |old(dinode)| && dinode == old(dinode)[inum := icache[inum]]
      ensures owner == WithoutInode(old(owner), inum)
      ensures bits.used == old(bits.used) - BlocksUpTo(old(owner), inum, NSLOTS)
      ensures logged == old(logged) + (MapBlocks(sb, BlocksUpTo(old(owner), inum, NSLOTS)) + {sb.IBlock(inum)})
      ensures old(Sound()) ==> Sound()
    {
      ghost var w, used := Now(), bits.used;
      assert BlocksUpTo(owner, inum, 0) == {};
      MapBlocksMore(sb, {}, 0);
      ok := FreeDirect(inum, w, used);
      ok := FreeIndirect(inum, w, used);
      ClearInode(inum, w, used);
      if AllNoHoles(w.data, w.table) { EmptiedHoles(data, w.table, inum, icache[inum]); }
      if Tidy(w.dinode, w.icache) { TidyUpdate(w.dinode, w.icache, inum, icache[inum]); }
    }

    // new links and device numbers, and iupdate
    method Relabel(inum: nat, d: Dinode)
      requires Sound() && inum in icache && ShortsFit(d)
      requires d.kind == icache[inum].kind && d.size == icache[inum].size && d.addrs == icache[inum].addrs
      modifies this`icache, this`dinode, this`logged
      ensures Sound() && icache == old(icache)[inum := d]
      ensures inum < |old(dinode)| && dinode == old(dinode)[inum := d] && Table() == old(Table())[inum := d]
      ensures logged == old(logged) + {sb.IBlock(inum)}
    {
      ghost var t := Table();
      TableUpdate(dinode, icache, inum, d);
      icache := icache[inum := d];
      Iupdate(inum);
      assert Table() == t[inum := d];
      RelabelOwned(sb.datastart, data, t, owner, inum, d);
      RelabelContent(t[inum], d, data);
      TidyUpdate(old(dinode), old(icache), inum, d);
    }

    // type 0, and out of the cache
    method MarkFree(inum: nat)
      requires Sound() && inum in icache && NoAddrs(icache[inum]) && icache[inum].size == 0
      modifies this`icache, this`dinode, this`logged
      ensures Sound() && icache == old(icache) - {inum} && logged == old(logged) + {sb.IBlock(inum)}
      ensures inum < |old(dinode)| && dinode == old(dinode)[inum := old(icache[inum]).(kind := 0)]
    {
      ghost var t := Table();
      var d := icache[inum].(kind := 0);
      TableUpdate(dinode, icache, inum, d);
      icache := icache[inum := d];
      Iupdate(inum);
      assert Table() == t[inum := d];
      TruncateOwned(sb.datastart, data, t, owner, inum, d);
      NothingLeft(sb.datastart, data, t, owner, inum);
      ghost var t' := Table();
      icache := icache - {inum};
      assert Table() == t';
    }

    method DropInode(inum: nat) returns (ok: bool)
      requires Sound() && inum in icache
      modifies this`data, this`icache, this`owner, this`logged, this`dinode, bits, bits.bytes
      ensures ok && Sound() && icache == old(icache) - {inum}
      ensures inum < |old(dinode)| == |dinode| && dinode == old(dinode)[inum := dinode[inum]] && dinode[inum].kind == 0
      ensures dinode[inum].nlink == old(icache[inum].nlink)
      ensures data == old(data) && owner == WithoutInode(old(owner), inum)
      ensures logged == old(logged) + (MapBlocks(sb, BlocksUpTo(old(owner), inum, NSLOTS)) + {sb.IBlock(inum)})
    {
      ok := Itrunc(inum);
      MarkFree(inum);
    }

    /**
     What iput does with an inode that has no links and no other reference: free it.  It logs
     the inode's block and the bit map blocks of its blocks, which fits into one operation on
     a disk of fewer than 36864 blocks, (MAXOPBLOCKS - 1) * BPB.
     */
    method FreeInode(inum: nat) returns (ok: bool)
      requires Sound() && inum in icache
      modifies this`data, this`icache, this`owner, this`logged, this`dinode, bits, bits.bytes
      ensures ok && Sound() && icache == old(icache) - {inum}
      ensures inum < |old(dinode)| == |dinode| && dinode == old(dinode)[inum := dinode[inum]] && dinode[inum].kind == 0
      ensures dinode[inum].nlink == old(icache[inum].nlink)
      ensures data == old(data) && owner == WithoutInode(old(owner), inum)
      ensures logged == old(logged) + (MapBlocks(sb, BlocksUpTo(old(owner), inum, NSLOTS)) + {sb.IBlock(inum)})
      ensures |logged - old(logged)| <= sb.size / BPB + 2
      ensures sb.size < 36864 ==> |logged - old(logged)| <= MAXOPBLOCKS
    {
      BlocksAll(sb.datastart, data, Table(), owner, inum);
      TruncateCost(sb, BlocksUpTo(owner, inum, NSLOTS), sb.IBlock(inum), logged);
      ok := DropInode(inum);
    }

    /** ialloc: the lowest free inode, zeroed and marked with the kind; None is the panic "no inodes". */
    method Ialloc(kind: nat) returns (r: Option<nat>)
      requires Sound() && 0 < kind < 0x1_0000
      modifies this`dinode, this`logged
      ensures r.None? ==> dinode == old(dinode) && logged == old(logged)
      ensures r.None? ==> forall i :: 1 <= i < |dinode| ==> dinode[i].kind != 0
      ensures r.Some? ==> 1 <= r.value < |old(dinode)| && old(dinode[r.value].kind) == 0
      ensures r.Some? ==> forall i :: 1 <= i < r.value ==> old(dinode[i].kind) != 0
      ensures r.Some? ==> dinode == old(dinode)[r.value := Dinode(kind, 0, 0, 0, 0, old(dinode[r.value]).addrs)]
      ensures r.Some? ==> logged == old(logged) + {sb.IBlock(r.value)}
      ensures Sound()
    {
      var inum := 1;
      while inum < sb.ninodes
        invariant 1 <= inum && forall i :: 1 <= i < inum && i < |dinode| ==> dinode[i].kind != 0
      {
        if dinode[inum].kind == 0 {
          ghost var t := Table();
          var d := Dinode(kind, 0, 0, 0, 0, seq(NDIRECT + 1, _ => 0));
          assert d.addrs == dinode[inum].addrs;
          CoverInode(sb, base, Disk(), logged, inum, d);
          dinode := dinode[inum := d];
          logged := logged + {sb.IBlock(inum)};
          assert Table() == t[inum := d];
          NothingLeft(sb.datastart, data, t, owner, inum);
          TruncateOwned(sb.datastart, data, t, owner, inum, d);
          return Some(inum);
        }
        inum := inum + 1;
      }
      return None;
    }

    // begin_op, as far as the file system sees it: nothing is logged yet
    method Begin()
      requires Shape()
      modifies this`logged, this`base
      ensures Shape() && logged == {} && base == Disk()
    {
      logged, base := {}, Disk();
      CoverNothing(sb, base);
    }

    // one transaction that frees an inode
    method FreeOp(inum: nat) returns (ok: bool)
      requires Sound() && inum in icache
      modifies this, bits, bits.bytes
      ensures ok && Sound() && inum < |dinode| && dinode[inum].kind == 0 && owner == WithoutInode(old(owner), inum)
      ensures Covers(sb, old(Disk()), Disk(), logged) && |logged| <= sb.size / BPB + 2
    {
      Begin();
      ok := FreeInode(inum);
      assert logged - {} == logged;
    }

    // one transaction of filewrite
    method WriteOp(inum: nat, off: Word, src: seq<Byte>) returns (ok: bool, r: int)
      requires Sound() && inum in icache && icache[inum].kind != T_DEV && |src| <= CHUNK
      modifies this, bits, bits.bytes
      ensures ok ==> Sound() && inum in icache && icache[inum].kind == old(icache[inum].kind)
      ensures ok ==> icache[inum].size <= MAXBYTES && old(icache[inum].size) <= MAXBYTES
      ensures ok ==> (r == -1 <==> BadRange(off, |src|, old(icache[inum].size))) && (r != -1 ==> r == |src|)
      ensures ok && r == -1 ==> data == old(data) && icache == old(icache)
      ensures ok && r != -1 ==>
                && off <= old(icache[inum].size)
                && Content(icache[inum], data) == Splice(old(Content(icache[inum], data)), off, src)
      ensures ok ==> OthersSame(old(data), old(Table()), data, Table(), inum)
      ensures ok ==> |logged| <= MAXOPBLOCKS && Covers(sb, old(Disk()), Disk(), logged)
      ensures !ok ==> Full()
    {
      assert NoHoles(Table()[inum], data);
      Begin();
      ghost var size := icache[inum].size;
      ok, r := Writei(inum, off, src);
      if ok && r != -1 {
        ChunkFits(off, |src|, size);
        assert logged - {} == logged;
      }
    }

    // file inum held c and now holds c with the first done bytes of src written at off; from
    // beyond the end nothing gets written; the other files are as in w
    ghost predicate Wrote(inum: nat, w: Start, c: seq<Byte>, off: nat, src: seq<Byte>, done: nat)
      reads this, bits, bits.bytes
    {
      && Sound() && inum in icache && icache[inum].kind != T_DEV && icache[inum].size <= MAXBYTES && done <= |src|
      && OthersSame(w.data, w.table, data, Table(), inum)
      && if off <= |c| then Content(icache[inum], data) == Splice(c, off, src[..done])
         else done == 0 && Content(icache[inum], data) == c
    }

    // the size of the next chunk
    function NextChunk(left: nat): (n1: nat)
      ensures n1 <= left && n1 <= CHUNK && (left > 0 ==> n1 > 0)
    {
      if left > CHUNK then CHUNK else left
    }

    // one round of filewrite's loop
    method WriteNext(inum: nat, off: Word, src: seq<Byte>, done: nat, ghost w: Start, ghost c: seq<Byte>)
      returns (ok: bool, r: int, done': nat)
      requires Wrote(inum, w, c, off, src, done) && done < |src| && off + done < UINT_LIMIT
      modifies this, bits, bits.bytes
      ensures ok && r == -1 ==>
                && done' == done && Wrote(inum, w, c, off, src, done)
                && BadRange(off + done, NextChunk(|src| - done), icache[inum].size)
      ensures ok && r != -1 ==>
                r >= 0 && done < done' <= |src| && Wrote(inum, w, c, off, src, done') && off + done' < UINT_LIMIT
      ensures ok ==> |logged| <= MAXOPBLOCKS
      ensures !ok ==> Full()
    {
      var n1 := NextChunk(|src| - done);
      ghost var d1, t1 := data, Table();
      ok, r := WriteOp(inum, off + done, src[done..done + n1]);
      done' := if r == -1 then done else done + n1;
      if ok { OthersSameTrans(w.data, w.table, d1, t1, data, Table(), inum); }
      if off <= |c| {
        SpliceTwice(c, off, src[..done], src[done..done + n1]);
        assert src[..done] + src[done..done + n1] == src[..done + n1];
      }
    }

    /**
     filewrite on an inode, from offset off: chunk by chunk, one transaction each.  The file
     is spliced with everything, or, when a chunk is rejected, with the chunks before it; the
     other files are as before, and no transaction logs more than MAXOPBLOCKS blocks.  ok is
     false for a panic.
     */
    method Filewrite(inum: nat, off: Word, src: seq<Byte>)
      returns (ok: bool, r: int, off': Word, done: nat, ghost most: nat)
      requires Sound() && inum in icache && icache[inum].kind != T_DEV && |src| < UINT_LIMIT
      modifies this, bits, bits.bytes
      ensures most <= MAXOPBLOCKS && done <= |src| && old(icache[inum].size) <= MAXBYTES
      ensures ok ==> Wrote(inum, old(Now()), old(Content(icache[inum], data)), off, src, done)
      ensures ok ==> r == (if done == |src| then |src| else -1) && off' == off + done
      ensures ok && done < |src| ==> BadRange(off', NextChunk(|src| - done), icache[inum].size)
      ensures !ok ==> Full()
    {
      assert NoHoles(Table()[inum], data);
      ghost var w, c := Now(), Content(icache[inum], data);
      NothingWritten(data, Table(), inum, off, src);
      WrittenOthers(data, Table(), data, Table(), inum, off, src, 0);
      done, off', most, r := 0, off, 0, 0;
      while done < |src|
        invariant 0 <= done <= |src| && off' == off + done && most <= MAXOPBLOCKS
        invariant Wrote(inum, w, c, off, src, done)
      {
        ok, r, done := WriteNext(inum, off, src, done, w, c);
        if !ok { return false, r, off, 0, most; }
        most := if |logged| > most then |logged| else most;
        if r < 0 {
          return true, -1, off', done, most;
        }
        off' := off + done;
      }
      return true, |src|, off', done, most;
    }
  }
}
