/**
 File-system operations on the log.  Files keeps the blocks that an operation changes in
 `logged`; here the contents of those blocks go through begin_op, log_write and end_op.  A
 crash then leaves the file system as it was before the operation or as it is after it.
 */
module Atomic {
  import opened Blocks
  import opened Wrappers
  import opened Bitmap
  import opened Inodes
  import opened LogMachine
  import opened Commit
  import opened Log
  import opened FileBytes
  import opened Files

  // ---------------------------------------------------------------- the layout of the blocks

  // struct dinode: four shorts, the size, thirteen addresses, all low byte first
  function InodeByte(d: Dinode, p: nat): Byte
    requires |d.addrs| == NDIRECT + 1 && p < 64
  {
    if p < 8 then
      var f := if p < 2 then d.kind else if p < 4 then d.major else if p < 6 then d.minor else d.nlink;
      if p % 2 == 0 then f % 0x100 else f / 0x100 % 0x100
    else
      var w := if p < 12 then d.size else d.addrs[(p - 12) / 4];
      if p % 4 == 0 then w % 0x100 else if p % 4 == 1 then w / 0x100 % 0x100
      else if p % 4 == 2 then w / 0x1_0000 % 0x100 else w / 0x100_0000 % 0x100
  }

  function InodeBlock(t: seq<Dinode>, k: nat): Block
    requires AllShaped(t)
  {
    seq(BSIZE, o requires 0 <= o < BSIZE => if 8 * k + o / 64 < |t| then InodeByte(t[8 * k + o / 64], o % 64) else 0)
  }

  function BitBlock(bytes: seq<bv8>, k: nat): Block {
    seq(BSIZE, o requires 0 <= o < BSIZE => if 512 * k + o < |bytes| then bytes[512 * k + o] as int else 0)
  }

  /** Block b of the image of a file system. */
  function BlockOf(sb: Super, x: OnDisk, b: nat): Block
    requires AllShaped(x.dinode) && b < |x.data|
  {
    if sb.inodestart <= b <= sb.inodestart + sb.ninodes / IPB then InodeBlock(x.dinode, b - sb.inodestart)
    else if sb.bmapstart <= b <= sb.bmapstart + sb.size / BPB then BitBlock(x.bytes, b - sb.bmapstart)
    else x.data[b]
  }

  ghost function DiskOf(sb: Super, x: OnDisk): (d: Disk)
    requires AllShaped(x.dinode)
    ensures |d| == |x.data|
  {
    seq(|x.data|, b requires 0 <= b < |x.data| => BlockOf(sb, x, b))
  }

  // values that fit their fields
  ghost predicate InFields(d: Dinode) {
    Shaped(d) && ShortsFit(d) && d.size < UINT_LIMIT && forall a :: 0 <= a <= NDIRECT ==> d.addrs[a] < UINT_LIMIT
  }

  ghost predicate AllInFields(t: seq<Dinode>) {
    forall i :: 0 <= i < |t| ==> InFields(t[i])
  }

  // four bytes of an inode, as a word
  function InodeWord(d: Dinode, j: nat): nat
    requires |d.addrs| == NDIRECT + 1 && j < 16
  {
    InodeByte(d, 4 * j) + 0x100 * InodeByte(d, 4 * j + 1)
    + 0x1_0000 * InodeByte(d, 4 * j + 2) + 0x100_0000 * InodeByte(d, 4 * j + 3)
  }

  lemma BlockByte(t: seq<Dinode>, k: nat, m: nat, p: nat)
    requires AllShaped(t) && m < IPB && 8 * k + m < |t| && p < 64
    ensures InodeBlock(t, k)[64 * m + p] == InodeByte(t[8 * k + m], p)
  {
    assert (64 * m + p) / 64 == m && (64 * m + p) % 64 == p;
  }

  lemma BlockWord(t: seq<Dinode>, k: nat, m: nat, j: nat)
    requires AllShaped(t) && m < IPB && 8 * k + m < |t| && j < 16
    ensures GetWord(InodeBlock(t, k), 16 * m + j) == InodeWord(t[8 * k + m], j)
  {
    BlockByte(t, k, m, 4 * j);
    BlockByte(t, k, m, 4 * j + 1);
    BlockByte(t, k, m, 4 * j + 2);
    BlockByte(t, k, m, 4 * j + 3);
  }

  lemma ShortBytes(a: nat, b: nat)
    requires a < 0x1_0000 && b < 0x1_0000
    ensures a % 0x100 + 0x100 * (a / 0x100 % 0x100) + 0x1_0000 * (b % 0x100) + 0x100_0000 * (b / 0x100 % 0x100)
            == a + 0x1_0000 * b
  {
  }

  /** The sixteen words of an inode. */
  function FieldWord(d: Dinode, j: nat): nat
    requires |d.addrs| == NDIRECT + 1 && j < 16
  {
    if j == 0 then d.kind + 0x1_0000 * d.major
    else if j == 1 then d.minor + 0x1_0000 * d.nlink
    else if j == 2 then d.size
    else d.addrs[j - 3]
  }

  lemma ShortWord(d: Dinode, j: nat)
    requires InFields(d) && j < 2
    ensures InodeWord(d, j) == FieldWord(d, j)
  {
    if j == 0 { ShortBytes(d.kind, d.major); } else { ShortBytes(d.minor, d.nlink); }
  }

  lemma LongWord(d: Dinode, j: nat)
    requires InFields(d) && 2 <= j < 16
    ensures InodeWord(d, j) == FieldWord(d, j)
  {
    var w := FieldWord(d, j);
    WordBytes(w);
    assert w / 0x100_0000 % 0x100 == w / 0x100_0000;
    BytePlace(j, 0);
    BytePlace(j, 1);
    BytePlace(j, 2);
    BytePlace(j, 3);
  }

  // byte r of word j, counted from the first address
  lemma BytePlace(j: nat, r: nat)
    requires r < 4
    ensures (4 * j + r) % 4 == r && (j >= 3 ==> (4 * j + r - 12) / 4 == j - 3)
  {
    assert 4 * j + r - 12 == 4 * (j - 3) + r;
  }

  /** An inode reads back from its block, word by word. */
  lemma InodeReadsBack(t: seq<Dinode>, k: nat, m: nat, j: nat)
    requires AllShaped(t) && m < IPB && 8 * k + m < |t| && InFields(t[8 * k + m]) && j < 16
    ensures GetWord(InodeBlock(t, k), 16 * m + j) == FieldWord(t[8 * k + m], j)
  {
    BlockWord(t, k, m, j);
    if j < 2 { ShortWord(t[8 * k + m], j); } else { LongWord(t[8 * k + m], j); }
  }

  ghost predicate SameWord(d: Dinode, e: Dinode, j: nat)
    requires |d.addrs| == |e.addrs| == NDIRECT + 1
  {
    j < 16 ==> FieldWord(d, j) == FieldWord(e, j)
  }

  lemma SameFields(d: Dinode, e: Dinode)
    requires InFields(d) && InFields(e) && forall j: nat :: SameWord(d, e, j)
    ensures d == e
  {
    assert SameWord(d, e, 0) && SameWord(d, e, 1) && SameWord(d, e, 2);
    forall a: nat | a <= NDIRECT ensures d.addrs[a] == e.addrs[a] {
      assert SameWord(d, e, a + 3);
    }
  }

  // inodes of equal blocks are equal
  lemma SameInode(t: seq<Dinode>, u: seq<Dinode>, k: nat, m: nat)
    requires AllInFields(t) && AllInFields(u) && m < IPB && 8 * k + m < |t| == |u|
    requires InodeBlock(t, k) == InodeBlock(u, k)
    ensures t[8 * k + m] == u[8 * k + m]
  {
    var d, e := t[8 * k + m], u[8 * k + m];
    forall j: nat ensures SameWord(d, e, j) {
      if j < 16 {
        InodeReadsBack(t, k, m, j);
        InodeReadsBack(u, k, m, j);
      }
    }
    SameFields(d, e);
  }

  lemma SameByte(a: bv8, b: bv8)
    requires a as int == b as int
    ensures a == b
  {
    assert a == (a as int) as bv8 && b == (b as int) as bv8;
  }

  lemma SameBits(a: seq<bv8>, b: seq<bv8>, k: nat, o: nat)
    requires BitBlock(a, k) == BitBlock(b, k) && o < BSIZE && 512 * k + o < |a| == |b|
    ensures a[512 * k + o] == b[512 * k + o]
  {
    assert BitBlock(a, k)[o] == a[512 * k + o] as int;
    assert BitBlock(b, k)[o] == b[512 * k + o] as int;
    SameByte(a[512 * k + o], b[512 * k + o]);
  }

  // a file system of this layout, whose inodes fit their fields
  ghost predicate Fielded(sb: Super, x: OnDisk) {
    && |x.data| == sb.size && |x.dinode| == sb.ninodes && |x.bytes| == 512 * (sb.size / BPB + 1)
    && AllInFields(x.dinode)
  }

  ghost predicate SameFiles(sb: Super, x: OnDisk, y: OnDisk) {
    && x.dinode == y.dinode && x.bytes == y.bytes && |x.data| == |y.data|
    && forall b :: sb.datastart <= b < |x.data| ==> x.data[b] == y.data[b]
  }

  /** The blocks behind the log determine the file system: its inodes, its bit map and its data. */
  lemma ImageDetermines(g: Geometry, sb: Super, x: OnDisk, y: OnDisk)
    requires Behind(g, sb) && Fielded(sb, x) && Fielded(sb, y) && SameHome(g, DiskOf(sb, x), DiskOf(sb, y))
    ensures SameFiles(sb, x, y)
  {
    forall b: nat | sb.inodestart <= b < sb.size ensures BlockOf(sb, x, b) == BlockOf(sb, y, b) {
      assert g.Home(b) && DiskOf(sb, x)[b] == DiskOf(sb, y)[b];
    }
    forall i | 0 <= i < sb.ninodes ensures x.dinode[i] == y.dinode[i] {
      assert BlockOf(sb, x, sb.inodestart + i / 8) == BlockOf(sb, y, sb.inodestart + i / 8);
      SameInode(x.dinode, y.dinode, i / 8, i % 8);
    }
    forall j | 0 <= j < |x.bytes| ensures x.bytes[j] == y.bytes[j] {
      assert BlockOf(sb, x, sb.bmapstart + j / 512) == BlockOf(sb, y, sb.bmapstart + j / 512);
      SameBits(x.bytes, y.bytes, j / 512, j % 512);
    }
    forall b | sb.datastart <= b < sb.size ensures x.data[b] == y.data[b] {
      assert BlockOf(sb, x, b) == BlockOf(sb, y, b);
    }
  }

  // ---------------------------------------------------------------- what an operation changes

  lemma InodeBlockKept(sb: Super, x: OnDisk, y: OnDisk, logs: set<nat>, k: nat)
    requires Covers(sb, x, y, logs) && AllShaped(x.dinode) && AllShaped(y.dinode) && sb.inodestart + k !in logs
    ensures InodeBlock(y.dinode, k) == InodeBlock(x.dinode, k)
  {
    forall o: nat | o < BSIZE && 8 * k + o / 64 < |x.dinode|
      ensures y.dinode[8 * k + o / 64] == x.dinode[8 * k + o / 64]
    {
      assert KeptAt(sb, x, y, logs, 8 * k + o / 64);
      assert (8 * k + o / 64) / 8 == k;
    }
  }

  lemma BitBlockKept(sb: Super, x: OnDisk, y: OnDisk, logs: set<nat>, k: nat)
    requires Covers(sb, x, y, logs) && sb.bmapstart + k !in logs
    ensures BitBlock(y.bytes, k) == BitBlock(x.bytes, k)
  {
    var a, b := BitBlock(x.bytes, k), BitBlock(y.bytes, k);
    forall o: nat | o < BSIZE ensures b[o] == a[o] {
      assert KeptAt(sb, x, y, logs, 512 * k + o);
      assert (512 * k + o) / 512 == k;
    }
  }

  /** A block that was not logged is the same in the image. */
  lemma Unlogged(sb: Super, x: OnDisk, y: OnDisk, logs: set<nat>, b: nat)
    requires Covers(sb, x, y, logs) && AllShaped(x.dinode) && AllShaped(y.dinode) && b < |x.data| && b !in logs
    ensures BlockOf(sb, y, b) == BlockOf(sb, x, b)
  {
    if sb.inodestart <= b <= sb.inodestart + sb.ninodes / IPB {
      InodeBlockKept(sb, x, y, logs, b - sb.inodestart);
    } else if sb.bmapstart <= b <= sb.bmapstart + sb.size / BPB {
      BitBlockKept(sb, x, y, logs, b - sb.bmapstart);
    } else {
      assert KeptAt(sb, x, y, logs, b);
    }
  }

  // the stores are the blocks of y
  ghost predicate StoresOf(sb: Super, y: OnDisk, bns: seq<nat>, data: seq<Block>) {
    && AllShaped(y.dinode) && |bns| == |data|
    && forall i :: 0 <= i < |bns| ==> bns[i] < |y.data| && data[i] == BlockOf(sb, y, bns[i])
  }

  lemma {:induction false} StoredAt(sb: Super, y: OnDisk, bns: seq<nat>, data: seq<Block>, d: Disk, i: nat, b: nat)
    requires StoresOf(sb, y, bns, data) && i <= |bns| && b < |d| == |y.data|
    ensures AllStored(d, bns, data, i)[b] == if b in bns[..i] then BlockOf(sb, y, b) else d[b]
  {
    if i > 0 {
      StoredAt(sb, y, bns, data, d, i - 1, b);
      assert bns[..i] == bns[..i - 1] + [bns[i - 1]];
    }
  }

  /** Storing the logged blocks turns the image of x into that of y. */
  lemma StoresAddUp(g: Geometry, sb: Super, x: OnDisk, y: OnDisk, logs: set<nat>, bns: seq<nat>, data: seq<Block>,
                    d: Disk)
    requires Covers(sb, x, y, logs) && AllShaped(x.dinode) && StoresOf(sb, y, bns, data) && Elements(bns) == logs
    requires SameHome(g, d, DiskOf(sb, x))
    ensures SameHome(g, AllStored(d, bns, data, |bns|), DiskOf(sb, y))
  {
    assert bns[..|bns|] == bns;
    forall b: nat | b < g.nblocks && g.Home(b) ensures AllStored(d, bns, data, |bns|)[b] == DiskOf(sb, y)[b] {
      StoredAt(sb, y, bns, data, d, |bns|, b);
      if b !in bns {
        assert b !in Elements(bns);
        Unlogged(sb, x, y, logs, b);
      }
    }
  }

  // ---------------------------------------------------------------- on the log

  // the file system lies behind the log
  ghost predicate Behind(g: Geometry, sb: Super) {
    sb.Valid() && g.Valid() && g.nblocks == sb.size && g.start + g.size <= sb.inodestart
  }

  lemma DinodesShaped(fs: FileSystem)
    requires fs.Valid() && Tidy(fs.dinode, fs.icache)
    ensures AllShaped(fs.dinode) && fs.Table() == fs.dinode
  {
    assert forall i :: 0 <= i < |fs.dinode| ==> fs.Table()[i] == fs.dinode[i];
  }

  lemma AddressInRange(fs: FileSystem, i: nat, a: nat)
    requires fs.Valid() && i < |fs.Table()| && a <= NDIRECT
    ensures fs.Table()[i].addrs[a] < UINT_LIMIT
  {
    SlotInRange(fs.sb.datastart, fs.data, fs.Table(), fs.owner, i, if a < NDIRECT then a else INDIRECT);
  }

  /** Every operation of Files keeps the inodes within their fields. */
  lemma SoundInFields(fs: FileSystem)
    requires fs.Sound()
    ensures AllInFields(fs.dinode)
    ensures fs.bits.bytes.Length == 512 * (fs.sb.size / BPB + 1) ==> Fielded(fs.sb, fs.Disk())
  {
    DinodesShaped(fs);
    forall i | 0 <= i < |fs.dinode| ensures InFields(fs.dinode[i]) {
      assert NoHoles(fs.Table()[i], fs.data);
      forall a | 0 <= a <= NDIRECT ensures fs.dinode[i].addrs[a] < UINT_LIMIT { AddressInRange(fs, i, a); }
    }
  }

  lemma StoresMore(sb: Super, y: OnDisk, bns: seq<nat>, data: seq<Block>, b: nat)
    requires StoresOf(sb, y, bns, data) && b < |y.data|
    ensures StoresOf(sb, y, bns + [b], data + [BlockOf(sb, y, b)])
  {
  }

  // bns lists what has been taken out of logs, each block once
  ghost predicate Listed(logs: set<nat>, rest: set<nat>, bns: seq<nat>) {
    Distinct(bns) && Elements(bns) !! rest && Elements(bns) + rest == logs
  }

  lemma ListedMore(logs: set<nat>, rest: set<nat>, bns: seq<nat>, b: nat)
    requires Listed(logs, rest, bns) && b in rest
    ensures Listed(logs, rest - {b}, bns + [b])
  {
    assert b !in Elements(bns);
    assert Elements(bns + [b]) == Elements(bns) + {b};
  }

  // the logged blocks and what is in them now
  method Stores(fs: FileSystem) returns (bns: seq<nat>, data: seq<Block>)
    requires fs.Sound()
    ensures StoresOf(fs.sb, fs.Disk(), bns, data) && Elements(bns) == fs.logged && Distinct(bns)
  {
    DinodesShaped(fs);
    var x := OnDisk(fs.data, fs.dinode, fs.bits.bytes[..]);
    var rest := fs.logged;
    bns, data := [], [];
    while rest != {}
      invariant StoresOf(fs.sb, x, bns, data) && Listed(fs.logged, rest, bns)
      decreases |rest|
    {
      var b :| b in rest;
      assert KeptAt(fs.sb, fs.base, fs.Disk(), fs.logged, b);
      ListedMore(fs.logged, rest, bns, b);
      StoresMore(fs.sb, x, bns, data, b);
      bns, data, rest := bns + [b], data + [BlockOf(fs.sb, x, b)], rest - {b};
    }
  }

  /** The log is idle and shows the file system as it is in x. */
  ghost predicate Shows(log: Log, s: State, sb: Super, x: OnDisk)
    reads log, log.block, log.cache, log.cache.buf, log.cache.next, log.cache.prev
  {
    log.Calm(s) && Behind(log.g, sb) && AllShaped(x.dinode) && SameHome(log.g, s.view, DiskOf(sb, x))
  }

  // recovery after any number of the disk writes gives the image of x or, from the header on, that of y
  ghost predicate BeforeOrAfter(g: Geometry, sb: Super, x: OnDisk, y: OnDisk, trail: seq<State>) {
    && AllShaped(x.dinode) && AllShaped(y.dinode) && trail != []
    && forall k :: 0 <= k < |trail| ==>
         Restores(g, trail[k].head, trail[k].disk, if k <= |trail[0].lh| then DiskOf(sb, x) else DiskOf(sb, y))
  }

  lemma ImagesSwapped(g: Geometry, sb: Super, x: OnDisk, y: OnDisk, trail: seq<State>, d: Disk, e: Disk)
    requires AllShaped(x.dinode) && AllShaped(y.dinode) && trail != []
    requires SameHome(g, d, DiskOf(sb, x)) && SameHome(g, e, DiskOf(sb, y))
    requires forall k :: 0 <= k < |trail| ==>
               Restores(g, trail[k].head, trail[k].disk, if k <= |trail[0].lh| then d else e)
    ensures BeforeOrAfter(g, sb, x, y, trail)
  {
    forall k | 0 <= k < |trail|
      ensures Restores(g, trail[k].head, trail[k].disk, if k <= |trail[0].lh| then DiskOf(sb, x) else DiskOf(sb, y))
    {
      if k <= |trail[0].lh| {
        SwapImage(g, trail[k], d, DiskOf(sb, x));
      } else {
        SwapImage(g, trail[k], e, DiskOf(sb, y));
      }
    }
  }

  /** What is found after a crash is the file system of before or that of after, and no other. */
  lemma OneOrTheOther(g: Geometry, sb: Super, x: OnDisk, y: OnDisk, trail: seq<State>, k: nat, z: OnDisk)
    requires Behind(g, sb) && Fielded(sb, x) && Fielded(sb, y) && Fielded(sb, z)
    requires BeforeOrAfter(g, sb, x, y, trail) && k < |trail|
    requires Restores(g, trail[k].head, trail[k].disk, DiskOf(sb, z))
    ensures SameFiles(sb, z, if k <= |trail[0].lh| then x else y)
  {
    var w := if k <= |trail[0].lh| then x else y;
    assert Restores(g, trail[k].head, trail[k].disk, DiskOf(sb, w));
    ImageDetermines(g, sb, z, w);
  }

  // the blocks in which y differs from x go through the log
  method PerformStores(log: Log, bns: seq<nat>, data: seq<Block>, pid: nat,
                       ghost sb: Super, ghost x: OnDisk, ghost y: OnDisk, ghost s: State)
    returns (ok: bool, ghost trail: seq<State>, ghost s': State)
    requires Shows(log, s, sb, x) && pid != 0 && StoresOf(sb, y, bns, data) && Covers(sb, x, y, Elements(bns))
    modifies log, log.block, log.cache, log.cache.buf, log.cache.next, log.cache.prev
    ensures Trail(log.g, trail) && log.cache.history == old(log.cache.history) + Disks(trail)
    ensures BeforeOrAfter(log.g, sb, x, y, trail)
    ensures ok ==> Shows(log, s', sb, y)
    ensures old(log.Stock([])) ==> (ok <==> Feasible(log.g, bns)) && (ok ==> log.Stock([]))
  {
    forall i | 0 <= i < |bns| ensures log.g.Home(bns[i]) {
      assert bns[i] in Elements(bns) && KeptAt(sb, x, y, Elements(bns), bns[i]);
    }
    StoresAddUp(log.g, sb, x, y, Elements(bns), bns, data, s.view);
    ok, trail, s' := log.Operation(bns, data, pid, s);
    ImagesSwapped(log.g, sb, x, y, trail, s.view, AllStored(s.view, bns, data, |bns|));
  }

  /**
   Any operation of Files, once it is done: its logged blocks go through the log, and a crash
   after any of the disk writes leaves, after recovery, the file system of before or of after.
   If nobody else refers to a buffer it gets through exactly when these blocks leave one.
   */
  method Perform(log: Log, fs: FileSystem, pid: nat, ghost x: OnDisk, ghost s: State)
    returns (ok: bool, ghost trail: seq<State>, ghost s': State)
    requires Shows(log, s, fs.sb, x) && pid != 0 && fs.Sound() && Covers(fs.sb, x, fs.Disk(), fs.logged)
    modifies log, log.block, log.cache, log.cache.buf, log.cache.next, log.cache.prev
    ensures Trail(log.g, trail) && log.cache.history == old(log.cache.history) + Disks(trail)
    ensures BeforeOrAfter(log.g, fs.sb, x, old(fs.Disk()), trail)
    ensures ok ==> Shows(log, s', fs.sb, old(fs.Disk()))
    ensures old(log.Stock([])) ==>
              (ok <==> fs.logged == {} || |fs.logged| < log.g.nbuf) && (ok ==> log.Stock([]))
  {
    var bns, data := Stores(fs);
    DistinctSize(bns);
    DistinctFeasible(log.g, bns);
    ok, trail, s' := PerformStores(log, bns, data, pid, fs.sb, x, fs.Disk(), s);
  }

  // the bit map is none of the log's arrays
  ghost predicate Apart(log: Log, fs: FileSystem) {
    var b: object := fs.bits.bytes;
    b != log.block && b != log.cache.buf && b != log.cache.next && b != log.cache.prev
  }

  /**
   A chunk of filewrite as a transaction: the file is spliced or, after a crash, nothing has
   happened.  With more than MAXOPBLOCKS buffers, none of which anybody else refers to, it
   fails only for want of a disk block.
   */
  method WriteChunk(log: Log, fs: FileSystem, inum: nat, off: Word, src: seq<Byte>, pid: nat, ghost s: State)
    returns (ok: bool, r: int, ghost trail: seq<State>, ghost s': State)
    requires fs.Sound() && Shows(log, s, fs.sb, fs.Disk()) && Apart(log, fs) && pid != 0
    requires inum in fs.icache && fs.icache[inum].kind != T_DEV && |src| <= CHUNK
    modifies fs, fs.bits, fs.bits.bytes, log, log.block, log.cache, log.cache.buf, log.cache.next, log.cache.prev
    ensures !ok && trail == [] ==> fs.Full()
    ensures trail != [] ==>
              && fs.Sound() && Trail(log.g, trail) && log.cache.history == old(log.cache.history) + Disks(trail)
              && BeforeOrAfter(log.g, fs.sb, old(fs.Disk()), fs.Disk(), trail)
              && inum in fs.icache && fs.icache[inum].size <= MAXBYTES && old(fs.icache[inum].size) <= MAXBYTES
              && (r == -1 <==> fs.BadRange(off, |src|, old(fs.icache[inum].size)))
              && (r != -1 ==> off <= old(fs.icache[inum].size) && Content(fs.icache[inum], fs.data)
                              == Splice(old(Content(fs.icache[inum], fs.data)), off, src))
    ensures ok ==> trail != [] && Shows(log, s', fs.sb, fs.Disk())
    ensures old(log.Stock([])) && MAXOPBLOCKS < log.g.nbuf ==> (ok || trail == []) && (ok ==> log.Stock([]))
  {
    ghost var x := fs.Disk();
    trail, s' := [], s;
    ok, r := fs.WriteOp(inum, off, src);
    if ok {
      ok, trail, s' := Perform(log, fs, pid, x, s);
    }
  }

  /** Freeing an inode as a transaction, which needs buffers for the whole bit map at worst. */
  method FreeFile(log: Log, fs: FileSystem, inum: nat, pid: nat, ghost s: State)
    returns (ok: bool, ghost trail: seq<State>, ghost s': State)
    requires fs.Sound() && Shows(log, s, fs.sb, fs.Disk()) && Apart(log, fs) && pid != 0 && inum in fs.icache
    modifies fs, fs.bits, fs.bits.bytes, log, log.block, log.cache, log.cache.buf, log.cache.next, log.cache.prev
    ensures fs.Sound() && inum < |fs.dinode| && fs.dinode[inum].kind == 0
            && fs.owner == WithoutInode(old(fs.owner), inum)
    ensures Trail(log.g, trail) && log.cache.history == old(log.cache.history) + Disks(trail)
    ensures BeforeOrAfter(log.g, fs.sb, old(fs.Disk()), fs.Disk(), trail)
    ensures ok ==> Shows(log, s', fs.sb, fs.Disk())
    ensures old(log.Stock([])) && fs.sb.size / BPB + 2 < log.g.nbuf ==> ok
    ensures ok && old(log.Stock([])) ==> log.Stock([])
  {
    ghost var x := fs.Disk();
    ok := fs.FreeOp(inum);
    ok, trail, s' := Perform(log, fs, pid, x, s);
  }
}
