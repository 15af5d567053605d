/**
 link, create and unlink on the bytes.  What they store is the change of the tree that Links
 describes and Naming works with, and each of them fits into one operation of the log.
 */
module Calls {
  import opened Blocks
  import opened Wrappers
  import opened Bitmap
  import opened Inodes
  import opened FileBytes
  import opened Files
  import opened Dirs
  import opened Links
  import opened Trees

  /** The tree that the file system holds. */
  ghost function TreeIn(fs: FileSystem): seq<Node>
    reads fs
  {
    TreeOf(fs.data, fs.Table())
  }

  // what is on disk is what it was at begin_op, but for the logged blocks, and these are few
  ghost predicate OneOperation(fs: FileSystem, x: OnDisk)
    reads fs, fs.bits, fs.bits.bytes
  {
    fs.Sound() && Covers(fs.sb, x, fs.Disk(), fs.logged) && |fs.logged| <= MAXOPBLOCKS
  }

  // ---------------------------------------------------------------- link counts

  // ip->nlink++ and ip->nlink-- on a short
  function Up(nlink: nat): nat { (nlink + 1) % 0x1_0000 }

  function Down(nlink: nat): nat { (nlink + 0xFFFF) % 0x1_0000 }

  lemma RelabelTree(data: seq<Block>, table: seq<Dinode>, i: nat, d: Dinode)
    requires i < |table| && Shaped(table[i])
    requires d.kind == table[i].kind && d.size == table[i].size && d.addrs == table[i].addrs
    ensures TreeOf(data, table[i := d]) == Counted(TreeOf(data, table), i, d.nlink)
  {
    RelabelContent(table[i], d, data);
  }

  lemma NodeIn(fs: FileSystem, i: nat)
    requires fs.Shape() && i in fs.icache
    ensures i < |TreeIn(fs)| && TreeIn(fs)[i] == NodeOf(fs.icache[i], fs.data)
  {
    assert fs.Table()[i] == fs.icache[i];
  }

  // a new link count, and iupdate
  method Relink(fs: FileSystem, inum: nat, nlink: nat)
    requires fs.Sound() && inum in fs.icache && nlink < 0x1_0000
    modifies fs`icache, fs`dinode, fs`logged
    ensures fs.Sound() && inum < |TreeIn(fs)| == |old(TreeIn(fs))|
    ensures fs.icache == old(fs.icache)[inum := old(fs.icache[inum]).(nlink := nlink)]
    ensures inum < |old(fs.dinode)| && fs.dinode == old(fs.dinode)[inum := fs.icache[inum]]
    ensures TreeIn(fs) == Counted(old(TreeIn(fs)), inum, nlink) && fs.logged == old(fs.logged) + {fs.sb.IBlock(inum)}
  {
    assert fs.icache[inum] == fs.Table()[inum] && fs.dinode[inum] == fs.icache[inum];
    RelabelTree(fs.data, fs.Table(), inum, fs.icache[inum].(nlink := nlink));
    fs.Relabel(inum, fs.icache[inum].(nlink := nlink));
  }

  // ---------------------------------------------------------------- the log

  // what one more entry adds to it beside the block of the directory's inode
  lemma EntryCost(sb: Super, dp: nat, k: nat, d: Dinode, e: Dinode, logged0: set<nat>, logged: set<nat>)
    requires FewLogged(sb, dp, ENTRY * k, ENTRY, d, e, logged0, logged)
    ensures var more := logged - logged0 - {sb.IBlock(dp)};
            && |more| <= 4
            && (d.addrs[NDIRECT] == 0 && k < 2 ==> e.addrs[NDIRECT] == 0 && |more| <= if d.size == 0 then 2 else 1)
  {
    assert (16 * k + 15) / 512 == (16 * k) / 512;
  }

  lemma LogSum(a: set<nat>, b: set<nat>, c: set<nat>, i: nat)
    ensures |c - a - {i}| <= |b - a - {i}| + |c - b - {i}|
    ensures |c - a| <= |c - a - {i}| + 1
  {
    SubsetSize(c - a - {i}, (b - a - {i}) + (c - b - {i}));
    SubsetSize(c - a, (c - a - {i}) + {i});
  }

  // ---------------------------------------------------------------- a new entry

  // the entries of a directory that is in memory
  ghost function List(fs: FileSystem, dp: nat): seq<Dirent>
    requires dp in fs.icache
    reads fs
  {
    Entries(Bytes(fs.icache[dp], fs.data))
  }

  // dirlink cannot go on: the directory is damaged or full, or the disk is
  ghost predicate NoRoom(fs: FileSystem, size: nat, es: seq<Dirent>)
    reads fs, fs.bits
  {
    size % ENTRY != 0 || ENTRY * (FreeSlot(es) + 1) > MAXBYTES || fs.Full()
  }

  /** dirlink, on the tree. */
  method Enter(fs: FileSystem, dp: nat, name: seq<Byte>, inum: nat) returns (r: LinkResult)
    requires fs.Sound() && dp in fs.icache && fs.icache[dp].kind == T_DIR && 0 !in name
    modifies fs`data, fs`icache, fs`owner, fs`logged, fs`dinode, fs.bits, fs.bits.bytes
    ensures r.Linked? ==>
              && fs.Sound() && dp in fs.icache && fs.icache == old(fs.icache)[dp := fs.icache[dp]]
              && fs.icache[dp].kind == T_DIR && fs.icache[dp].nlink == old(fs.icache[dp].nlink)
              && fs.icache[dp].size == ENTRY * |List(fs, dp)|
              && dp < |old(TreeIn(fs))|
              && TreeIn(fs) == Entered(old(TreeIn(fs)), dp, Dirent(inum % 0x1_0000, Cut(name)))
              && FewLogged(fs.sb, dp, ENTRY * FreeSlot(old(List(fs, dp))), ENTRY, old(fs.icache[dp]), fs.icache[dp],
                           old(fs.logged), fs.logged)
    ensures r.NameTaken? <==> Find(old(List(fs, dp)), Cut(name)).Some?
    ensures r.NameTaken? ==>
              && fs.Sound() && fs.data == old(fs.data) && fs.icache == old(fs.icache) && fs.dinode == old(fs.dinode)
              && fs.logged == old(fs.logged)
    ensures r.LinkPanic? ==> NoRoom(fs, old(fs.icache[dp].size), old(List(fs, dp)))
  {
    ghost var snap, table := SnapOf(fs), fs.Table();
    SizeOf(fs, dp);
    r := Dirlink(fs, dp, name, inum, snap);
    if r.Linked? {
      StoredTree(fs, dp, Dirent(inum % 0x1_0000, Cut(name)), snap, table);
      SizeOf(fs, dp);
    }
  }

  // ---------------------------------------------------------------- link

  // begin_op leaves the tree alone
  method Start(fs: FileSystem)
    requires fs.Sound()
    modifies fs`logged, fs`base
    ensures fs.Sound() && fs.logged == {} && fs.base == old(fs.Disk()) && TreeIn(fs) == old(TreeIn(fs))
  {
    fs.Begin();
  }

  lemma LinkCost(sb: Super, i: nat, dp: nat, k: nat, d: Dinode, e: Dinode, logged: set<nat>)
    requires FewLogged(sb, dp, ENTRY * k, ENTRY, d, e, {i}, logged)
    ensures |logged| <= 6
  {
    EntryCost(sb, dp, k, d, e, {i}, logged);
    SubsetSize(logged, (logged - {i} - {sb.IBlock(dp)}) + {i, sb.IBlock(dp)});
  }

  lemma LinkedTree(n: seq<Node>, n1: seq<Node>, n2: seq<Node>, ip: nat, dp: nat, name: seq<Byte>)
    requires ip < |n| && dp < |n| && n1 == Counted(n, ip, Up(n[ip].nlink))
    requires n2 == Entered(n1, dp, Dirent(ip % 0x1_0000, name))
    ensures ip < 0x1_0000 && n[ip].nlink < 0xFFFF ==> n2 == FileLinked(n, dp, ip, name)
  {
  }

  // the count goes up and dirlink is called
  method CountAndEnter(fs: FileSystem, ip: nat, dp: nat, name: seq<Byte>) returns (r: LinkResult)
    requires fs.Sound() && ip in fs.icache && dp in fs.icache && 0 !in name && fs.logged == {}
    requires fs.icache[ip].kind != T_DIR && fs.icache[dp].kind == T_DIR
    modifies fs`data, fs`icache, fs`owner, fs`logged, fs`dinode, fs.bits, fs.bits.bytes
    ensures !r.LinkPanic? ==> fs.Sound() && |fs.logged| <= 6
    ensures r.Linked? && ip < 0x1_0000 && old(fs.icache[ip].nlink) < 0xFFFF ==>
              && ip < |old(TreeIn(fs))| && dp < |old(TreeIn(fs))|
              && TreeIn(fs) == FileLinked(old(TreeIn(fs)), dp, ip, Cut(name))
    ensures r.NameTaken? <==> Find(old(List(fs, dp)), Cut(name)).Some?
    ensures r.NameTaken? ==>
              && fs.icache == old(fs.icache)[ip := old(fs.icache[ip]).(nlink := Up(old(fs.icache[ip].nlink)))]
              && ip < |old(TreeIn(fs))| && TreeIn(fs) == Counted(old(TreeIn(fs)), ip, Up(old(fs.icache[ip].nlink)))
              && fs.logged == {fs.sb.IBlock(ip)}
    ensures r.LinkPanic? ==> NoRoom(fs, old(fs.icache[dp].size), old(List(fs, dp)))
  {
    ghost var n, es := TreeIn(fs), List(fs, dp);
    var nlink := fs.icache[ip].nlink;
    NodeIn(fs, ip);
    Relink(fs, ip, Up(nlink));
    assert List(fs, dp) == es;
    ghost var d, k, n1 := fs.icache[dp], FreeSlot(es), TreeIn(fs);
    r := Enter(fs, dp, name, ip);
    if r.Linked? {
      LinkedTree(n, n1, TreeIn(fs), ip, dp, Cut(name));
      LinkCost(fs.sb, fs.sb.IBlock(ip), dp, k, d, fs.icache[dp], fs.logged);
    }
  }

  // up and down again
  lemma Recounted(n: seq<Node>, ip: nat, m: map<nat, Dinode>)
    requires ip < |n| && ip in m && n[ip].nlink == m[ip].nlink < 0x1_0000
    ensures Down(Up(m[ip].nlink)) == m[ip].nlink
    ensures Counted(Counted(n, ip, Up(m[ip].nlink)), ip, m[ip].nlink) == n
    ensures m[ip := m[ip].(nlink := Up(m[ip].nlink))][ip := m[ip]] == m
  {
  }

  /**
   sys_link, once both inodes are known: the count goes up and the entry is made, or the
   count goes down again because the name is there.
   */
  method LinkFile(fs: FileSystem, ip: nat, dp: nat, name: seq<Byte>) returns (r: LinkResult)
    requires fs.Sound() && ip in fs.icache && dp in fs.icache && 0 !in name
    requires fs.icache[ip].kind != T_DIR && fs.icache[dp].kind == T_DIR
    modifies fs, fs.bits, fs.bits.bytes
    ensures !r.LinkPanic? ==> OneOperation(fs, old(fs.Disk()))
    ensures r.Linked? && ip < 0x1_0000 && old(fs.icache[ip].nlink) < 0xFFFF ==>
              && ip < |old(TreeIn(fs))| && dp < |old(TreeIn(fs))|
              && TreeIn(fs) == FileLinked(old(TreeIn(fs)), dp, ip, Cut(name))
    ensures r.NameTaken? <==> Find(old(List(fs, dp)), Cut(name)).Some?
    ensures r.NameTaken? ==> TreeIn(fs) == old(TreeIn(fs)) && fs.icache == old(fs.icache)
    ensures r.LinkPanic? ==> NoRoom(fs, old(fs.icache[dp].size), old(List(fs, dp)))
  {
    NodeIn(fs, ip);
    assert ShortsFit(fs.dinode[ip]);
    Recounted(TreeIn(fs), ip, fs.icache);
    Start(fs);
    r := CountAndEnter(fs, ip, dp, name);
    if r.NameTaken? {
      Relink(fs, ip, Down(fs.icache[ip].nlink));
    }
  }

  // ---------------------------------------------------------------- create

  // the lowest free inode, or |n| if there is none
  ghost predicate FirstFree(n: seq<Node>, i: nat) {
    1 <= i <= |n| && (i < |n| ==> n[i].kind == 0) && forall j :: 1 <= j < i ==> n[j].kind != 0
  }

  lemma KindsIn(fs: FileSystem)
    requires fs.Shape() && Tidy(fs.dinode, fs.icache)
    ensures |TreeIn(fs)| == |fs.dinode| && forall i :: 0 <= i < |fs.dinode| ==> TreeIn(fs)[i].kind == fs.dinode[i].kind
  {
  }

  // an empty inode in a table
  lemma EmptyNode(data: seq<Block>, table: seq<Dinode>, i: nat, d: Dinode)
    requires i < |table| && Shaped(d) && d.size == 0
    ensures TreeOf(data, table[i := d]) == TreeOf(data, table)[i := Node(d.kind, d.nlink, [])]
  {
    assert Content(d, data) == [];
  }

  // ialloc, ilock, and the new inode's fields
  method NewInode(fs: FileSystem, kind: nat, major: nat, minor: nat) returns (r: Option<nat>)
    requires fs.Sound() && 0 < kind < 0x1_0000 && major < 0x1_0000 && minor < 0x1_0000
    modifies fs`icache, fs`dinode, fs`logged
    ensures r.None? && old(TreeIn(fs)) != [] ==> FirstFree(old(TreeIn(fs)), |old(TreeIn(fs))|)
    ensures r.Some? ==>
              && fs.Sound() && FirstFree(old(TreeIn(fs)), r.value) && r.value < |old(TreeIn(fs))|
              && r.value !in old(fs.icache)
              && r.value in fs.icache && fs.icache == old(fs.icache)[r.value := fs.icache[r.value]]
              && fs.icache[r.value].kind == kind && fs.icache[r.value].size == 0
              && fs.icache[r.value].addrs[NDIRECT] == 0
              && TreeIn(fs) == old(TreeIn(fs))[r.value := Node(kind, 1, [])]
              && fs.logged == old(fs.logged) + {fs.sb.IBlock(r.value)}
  {
    ghost var t := fs.Table();
    KindsIn(fs);
    r := fs.Ialloc(kind);
    if r.None? { return; }
    var ok := fs.Ilock(r.value);
    var d := fs.icache[r.value].(major := major, minor := minor, nlink := 1);
    fs.Relabel(r.value, d);
    assert fs.Table() == t[r.value := d];
    EmptyNode(fs.data, t, r.value, d);
  }

  // one entry of a new directory
  method Dot(fs: FileSystem, ip: nat, name: seq<Byte>, inum: nat) returns (ok: bool)
    requires fs.Sound() && ip in fs.icache && fs.icache[ip].kind == T_DIR && 0 !in name && Cut(name) == name
    requires fs.icache[ip].addrs[NDIRECT] == 0 && fs.icache[ip].size == ENTRY * |List(fs, ip)|
    requires |List(fs, ip)| < 2 && Find(List(fs, ip), name).None?
    modifies fs`data, fs`icache, fs`owner, fs`logged, fs`dinode, fs.bits, fs.bits.bytes
    ensures !ok ==> fs.Full()
    ensures ok ==>
              && fs.Sound() && ip in fs.icache && fs.icache == old(fs.icache)[ip := fs.icache[ip]]
              && fs.icache[ip].kind == T_DIR && fs.icache[ip].addrs[NDIRECT] == 0
              && fs.icache[ip].size == ENTRY * |List(fs, ip)|
              && List(fs, ip) == Link(old(List(fs, ip)), Dirent(inum % 0x1_0000, name))
              && ip < |old(TreeIn(fs))| && TreeIn(fs) == Entered(old(TreeIn(fs)), ip, Dirent(inum % 0x1_0000, name))
              && |fs.logged - old(fs.logged) - {fs.sb.IBlock(ip)}| <= if old(List(fs, ip)) == [] then 2 else 1
  {
    ghost var d, es, logged := fs.icache[ip], List(fs, ip), fs.logged;
    NodeIn(fs, ip);
    var r := Enter(fs, ip, name, inum);
    ok := r.Linked?;
    if ok {
      EntryCost(fs.sb, ip, FreeSlot(es), d, fs.icache[ip], logged, fs.logged);
      NodeIn(fs, ip);
    }
  }

  // . and ..
  method Dots(fs: FileSystem, ip: nat, dp: nat) returns (ok: bool)
    requires fs.Sound() && ip in fs.icache && fs.icache[ip].kind == T_DIR
    requires fs.icache[ip].addrs[NDIRECT] == 0 && fs.icache[ip].size == 0
    modifies fs`data, fs`icache, fs`owner, fs`logged, fs`dinode, fs.bits, fs.bits.bytes
    ensures !ok ==> fs.Full()
    ensures ok ==>
              && fs.Sound() && ip in fs.icache && fs.icache == old(fs.icache)[ip := fs.icache[ip]]
              && ip < |old(TreeIn(fs))|
              && TreeIn(fs) == Entered(Entered(old(TreeIn(fs)), ip, Dirent(ip % 0x1_0000, DOT)), ip,
                                       Dirent(dp % 0x1_0000, DOTDOT))
              && |fs.logged - old(fs.logged) - {fs.sb.IBlock(ip)}| <= 3
  {
    ghost var logged, m := fs.logged, fs.icache;
    ok := Dot(fs, ip, DOT, ip);
    if !ok { return; }
    ghost var logged1, d := fs.logged, fs.icache[ip];
    ok := Dot(fs, ip, DOTDOT, dp);
    if ok {
      UpdatedTwice(m, ip, d, fs.icache[ip]);
      LogSum(logged, logged1, fs.logged, fs.sb.IBlock(ip));
    }
  }

  lemma DotEntries(n: seq<Node>, i: nat, e: Dirent, f: Dirent)
    requires i < |n| && n[i].entries == [] && e.inum != 0
    ensures Entered(Entered(n, i, e), i, f) == n[i := n[i].(entries := [e, f])]
  {
    assert FreeSlot([e]) == 1;
    assert Link([], e) == [e] && Link([e], f) == [e, f];
  }

  // the new inode on the tree, with its dots and the parent's count if it is a directory
  lemma MadeTree(n: seq<Node>, n1: seq<Node>, n2: seq<Node>, d: nat, i: nat, kind: nat)
    requires d < |n| && i < |n| && d != i && n1 == n[i := Node(kind, 1, [])]
    requires if kind != T_DIR then n2 == n1
             else n2 == Entered(Entered(Counted(n1, d, Up(n1[d].nlink)), i, Dirent(i % 0x1_0000, DOT)), i,
                                Dirent(d % 0x1_0000, DOTDOT))
    ensures |n| <= 0x1_0000 && 0 < i && n[d].nlink < 0xFFFF ==> n2 == Made(n, d, i, kind)
  {
    if kind == T_DIR && |n| <= 0x1_0000 && 0 < i && n[d].nlink < 0xFFFF {
      var c := Counted(n1, d, n[d].nlink + 1);
      DotEntries(c, i, Dirent(i, DOT), Dirent(d, DOTDOT));
      assert c[i].(entries := [Dirent(i, DOT), Dirent(d, DOTDOT)]) == NewNode(d, i, kind);
      assert n[i := NewNode(d, i, kind)][d := c[d]] == c[i := NewNode(d, i, kind)];
    }
  }

  lemma PrepareCost(a: nat, b: nat, logged: set<nat>, logged': set<nat>)
    requires logged == {a} + {b} && |logged' - logged - {a}| <= 3
    ensures |logged' - {a, b}| <= 3
  {
    assert logged' - {a, b} == logged' - logged - {a};
  }

  // what a new directory needs
  method AddDots(fs: FileSystem, ip: nat, dp: nat) returns (ok: bool)
    requires fs.Sound() && ip in fs.icache && fs.icache[ip].kind == T_DIR && fs.logged == {fs.sb.IBlock(ip)}
    requires fs.icache[ip].addrs[NDIRECT] == 0 && fs.icache[ip].size == 0 && dp in fs.icache && dp != ip
    modifies fs`data, fs`icache, fs`owner, fs`logged, fs`dinode, fs.bits, fs.bits.bytes
    ensures !ok ==> fs.Full()
    ensures ok ==>
              && fs.Sound() && dp in fs.icache && fs.icache[dp].kind == old(fs.icache[dp].kind)
              && fs.icache[dp].size == old(fs.icache[dp].size)
              && ip < |old(TreeIn(fs))| && dp < |old(TreeIn(fs))|
              && TreeIn(fs) == Entered(Entered(Counted(old(TreeIn(fs)), dp, Up(old(fs.icache[dp].nlink))), ip,
                                               Dirent(ip % 0x1_0000, DOT)), ip, Dirent(dp % 0x1_0000, DOTDOT))
              && |fs.logged - {fs.sb.IBlock(ip), fs.sb.IBlock(dp)}| <= 3
  {
    Relink(fs, dp, Up(fs.icache[dp].nlink));
    ghost var logged := fs.logged;
    ok := Dots(fs, ip, dp);
    if ok {
      PrepareCost(fs.sb.IBlock(ip), fs.sb.IBlock(dp), logged, fs.logged);
    }
  }

  // a new inode, and for a directory its dots
  method Prepare(fs: FileSystem, dp: nat, kind: nat, major: nat, minor: nat) returns (r: Option<nat>)
    requires fs.Sound() && dp in fs.icache && fs.icache[dp].kind == T_DIR && fs.logged == {}
    requires 0 < kind < 0x1_0000 && major < 0x1_0000 && minor < 0x1_0000
    modifies fs`data, fs`icache, fs`owner, fs`logged, fs`dinode, fs.bits, fs.bits.bytes
    ensures r.None? ==> FirstFree(old(TreeIn(fs)), |old(TreeIn(fs))|) || fs.Full()
    ensures r.Some? ==>
              && fs.Sound() && dp in fs.icache && dp < |old(TreeIn(fs))|
              && fs.icache[dp].kind == T_DIR && fs.icache[dp].size == old(fs.icache[dp].size)
              && FirstFree(old(TreeIn(fs)), r.value) && r.value < |old(TreeIn(fs))| == |TreeIn(fs)|
              && List(fs, dp) == old(List(fs, dp))
              && (|old(TreeIn(fs))| <= 0x1_0000 && old(fs.icache[dp].nlink) < 0xFFFF ==>
                    TreeIn(fs) == Made(old(TreeIn(fs)), dp, r.value, kind))
              && |fs.logged - {fs.sb.IBlock(r.value), fs.sb.IBlock(dp)}| <= 3
  {
    ghost var n := TreeIn(fs);
    NodeIn(fs, dp);
    r := NewInode(fs, kind, major, minor);
    if r.None? { return; }
    ghost var n1 := TreeIn(fs);
    if kind == T_DIR {
      var ok := AddDots(fs, r.value, dp);
      if !ok { return None; }
    }
    NodeIn(fs, dp);
    MadeTree(n, n1, TreeIn(fs), dp, r.value, kind);
  }

  lemma CreateCost(sb: Super, i: nat, dp: nat, k: nat, d: Dinode, e: Dinode, logged0: set<nat>, logged: set<nat>)
    requires |logged0 - {i, sb.IBlock(dp)}| <= 3 && FewLogged(sb, dp, ENTRY * k, ENTRY, d, e, logged0, logged)
    ensures |logged| <= 9
  {
    var b := sb.IBlock(dp);
    EntryCost(sb, dp, k, d, e, logged0, logged);
    SubsetSize(logged, (logged0 - {i, b}) + (logged - logged0 - {b}) + {i, b});
    assert |(logged0 - {i, b}) + (logged - logged0 - {b})| <= 7;
  }

  lemma NamedTree(n: seq<Node>, n1: seq<Node>, n2: seq<Node>, d: nat, i: nat, kind: nat, name: seq<Byte>)
    requires d < |n| == |n1| && i < |n| && n2 == Entered(n1, d, Dirent(i % 0x1_0000, name))
    ensures |n| <= 0x1_0000 && n1 == Made(n, d, i, kind) ==> n2 == Created(n, d, i, kind, name)
  {
  }

  /**
   create, once the name is known to be new: the first free inode is made and named, all in
   one operation, on the tree as Links.Created says; None is a panic.
   */
  method CreateNode(fs: FileSystem, dp: nat, name: seq<Byte>, kind: nat, major: nat, minor: nat)
    returns (r: Option<nat>)
    requires fs.Sound() && dp in fs.icache && fs.icache[dp].kind == T_DIR && 0 !in name
    requires 0 < kind < 0x1_0000 && major < 0x1_0000 && minor < 0x1_0000 && Find(List(fs, dp), Cut(name)).None?
    modifies fs, fs.bits, fs.bits.bytes
    ensures r.Some? ==> OneOperation(fs, old(fs.Disk()))
    ensures r.Some? ==>
              && FirstFree(old(TreeIn(fs)), r.value) && r.value < |old(TreeIn(fs))| && dp < |old(TreeIn(fs))|
              && (|old(TreeIn(fs))| <= 0x1_0000 && old(fs.icache[dp].nlink) < 0xFFFF ==>
                    TreeIn(fs) == Created(old(TreeIn(fs)), dp, r.value, kind, Cut(name)))
    ensures r.None? ==> FirstFree(old(TreeIn(fs)), |old(TreeIn(fs))|)
                        || NoRoom(fs, old(fs.icache[dp].size), old(List(fs, dp)))
  {
    ghost var n := TreeIn(fs);
    Start(fs);
    r := Prepare(fs, dp, kind, major, minor);
    if r.None? { return; }
    ghost var d, k, logged, n1 := fs.icache[dp], FreeSlot(List(fs, dp)), fs.logged, TreeIn(fs);
    var l := Enter(fs, dp, name, r.value);
    if !l.Linked? { return None; }
    CreateCost(fs.sb, fs.sb.IBlock(r.value), dp, k, d, fs.icache[dp], logged, fs.logged);
    NamedTree(n, n1, TreeIn(fs), dp, r.value, kind, Cut(name));
  }

  // ---------------------------------------------------------------- unlink

  datatype UnlinkResult = Gone | Refused | UnlinkPanic

  // the entry is overwritten with zeros
  method Erase(fs: FileSystem, dp: nat, k: nat) returns (ok: bool)
    requires fs.Sound() && dp in fs.icache && fs.icache[dp].kind == T_DIR && fs.icache[dp].size % ENTRY == 0
    requires k < |List(fs, dp)|
    modifies fs`data, fs`icache, fs`owner, fs`logged, fs`dinode, fs.bits, fs.bits.bytes
    ensures !ok ==> fs.Full()
    ensures ok ==>
              && fs.Sound() && dp in fs.icache && fs.icache == old(fs.icache)[dp := fs.icache[dp]]
              && fs.icache[dp].kind == T_DIR && fs.icache[dp].nlink == old(fs.icache[dp].nlink)
              && dp < |old(TreeIn(fs))| && k < |old(TreeIn(fs))[dp].entries|
              && TreeIn(fs) == Dropped(old(TreeIn(fs)), dp, k)
              && |fs.logged - old(fs.logged) - {fs.sb.IBlock(dp)}| <= 4
  {
    ghost var snap, table := SnapOf(fs), fs.Table();
    SizeOf(fs, dp);
    NodeIn(fs, dp);
    ok := WriteAt(fs, dp, ENTRY * k, Dirent(0, []), k, snap);
    if ok {
      ErasedTree(fs, dp, k, snap, table);
      EntryCost(fs.sb, dp, k, snap.icache[dp], fs.icache[dp], snap.logged, fs.logged);
    }
  }

  lemma UnnamedTree(n: seq<Node>, n1: seq<Node>, n2: seq<Node>, n3: seq<Node>, d: nat, k: nat, i: nat)
    requires d < |n| && i < |n| && d != i && k < |n[d].entries| && n[d].entries[k].inum == i && n1 == Dropped(n, d, k)
    requires n2 == if n[i].kind == T_DIR then Counted(n1, d, Down(n[d].nlink)) else n1
    requires n3 == Counted(n2, i, Down(n[i].nlink))
    ensures 0 < n[i].nlink < 0x1_0000 && (n[i].kind == T_DIR ==> 0 < n[d].nlink < 0x1_0000) ==> n3 == Unlinked(n, d, k)
  {
  }

  lemma UnnameCost(logged: set<nat>, a: nat, b: nat)
    requires |logged - {a}| <= 4
    ensures |logged + {b}| <= 6 && |logged + {a} + {b}| <= 6
  {
    SubsetSize(logged + {a} + {b}, (logged - {a}) + {a, b});
    SubsetSize(logged + {b}, logged + {a} + {b});
  }

  // the entry goes, and the counts of the inode and, for a directory, of the parent go down
  method Unname(fs: FileSystem, dp: nat, k: nat, ip: nat) returns (ok: bool)
    requires fs.Sound() && dp in fs.icache && ip in fs.icache && dp != ip && fs.logged == {}
    requires fs.icache[dp].kind == T_DIR && fs.icache[dp].size % ENTRY == 0
    requires k < |List(fs, dp)| && List(fs, dp)[k].inum == ip && 0 < fs.icache[ip].nlink
    modifies fs`data, fs`icache, fs`owner, fs`logged, fs`dinode, fs.bits, fs.bits.bytes
    ensures !ok ==> fs.Full()
    ensures ok ==>
              && fs.Sound() && ip in fs.icache && |fs.logged| <= 6
              && ip < |old(TreeIn(fs))| && dp < |old(TreeIn(fs))| && k < |old(TreeIn(fs))[dp].entries|
              && old(TreeIn(fs))[dp].entries[k].inum == ip
              && ((old(fs.icache[ip].kind) == T_DIR ==> 0 < old(fs.icache[dp].nlink)) ==>
                    TreeIn(fs) == Unlinked(old(TreeIn(fs)), dp, k))
  {
    ghost var n := TreeIn(fs);
    assert ShortsFit(fs.dinode[ip]) && ShortsFit(fs.dinode[dp]);
    NodeIn(fs, dp);
    NodeIn(fs, ip);
    ok := Erase(fs, dp, k);
    if !ok { return; }
    UnnameCost(fs.logged, fs.sb.IBlock(dp), fs.sb.IBlock(ip));
    ghost var n1 := TreeIn(fs);
    if fs.icache[ip].kind == T_DIR {
      Relink(fs, dp, Down(fs.icache[dp].nlink));
    }
    ghost var n2 := TreeIn(fs);
    Relink(fs, ip, Down(fs.icache[ip].nlink));
    UnnamedTree(n, n1, n2, TreeIn(fs), dp, k, ip);
  }

  // the checks of unlink, on a directory that is to go
  method MayGo(fs: FileSystem, ip: nat) returns (r: UnlinkResult)
    requires fs.Sound() && ip in fs.icache
    modifies fs`data, fs`icache, fs`owner, fs`logged, fs.bits, fs.bits.bytes
    ensures fs.Sound() && fs.data == old(fs.data) && fs.icache == old(fs.icache) && fs.logged == old(fs.logged)
    ensures r.UnlinkPanic? ==>
              fs.icache[ip].nlink == 0 || (fs.icache[ip].kind == T_DIR && fs.icache[ip].size % ENTRY != 0)
    ensures r.Refused? ==> fs.icache[ip].kind == T_DIR && !DotsOnly(List(fs, ip))
    ensures r.Gone? ==> 0 < fs.icache[ip].nlink && (fs.icache[ip].kind == T_DIR ==> DotsOnly(List(fs, ip)))
  {
    if fs.icache[ip].nlink < 1 {
      return UnlinkPanic;
    }
    if fs.icache[ip].kind != T_DIR {
      return Gone;
    }
    SizeOf(fs, ip);
    var e := IsDirEmpty(fs, ip, SnapOf(fs));
    return if e.None? then UnlinkPanic else if e.value then Gone else Refused;
  }

  // iput of an inode that nothing names and nobody else refers to
  method Collect(fs: FileSystem, ip: nat)
    requires fs.Sound() && ip in fs.icache && fs.icache[ip].nlink == 0
    modifies fs`data, fs`icache, fs`owner, fs`logged, fs`dinode, fs.bits, fs.bits.bytes
    ensures fs.Sound() && ip < |old(TreeIn(fs))| && TreeIn(fs) == old(TreeIn(fs))[ip := FreeNode]
    ensures |fs.logged| <= |old(fs.logged)| + fs.sb.size / BPB + 2
  {
    ghost var t := fs.Table();
    var ok := fs.FreeInode(ip);
    assert fs.Table() == t[ip := fs.dinode[ip]];
    EmptyNode(fs.data, t, ip, fs.dinode[ip]);
    SubsetSize(fs.logged, old(fs.logged) + (fs.logged - old(fs.logged)));
  }

  /** Entry k of directory d is off the tree, and so is its inode if that is free now. */
  ghost predicate TakenOff(n: seq<Node>, n': seq<Node>, d: nat, k: nat, last: bool) {
    && d < |n| && k < |n[d].entries| && n[d].entries[k].inum < |n|
    && var i, n1 := n[d].entries[k].inum, Unlinked(n, d, k);
       n' == if last && n1[i].nlink == 0 then n1[i := FreeNode] else n1
  }

  /**
   sys_unlink, once the entry and its inode are known, to the end of its iput: last says that
   nobody else refers to the inode.  On the tree it is Links.Unlinked, and it is one
   operation on a disk of fewer than 12288 blocks, which is three blocks of bit map.
   */
  method UnlinkFile(fs: FileSystem, dp: nat, k: nat, ip: nat, last: bool) returns (r: UnlinkResult)
    requires fs.Sound() && dp in fs.icache && ip in fs.icache && dp != ip
    requires fs.icache[dp].kind == T_DIR && fs.icache[dp].size % ENTRY == 0
    requires k < |List(fs, dp)| && List(fs, dp)[k].inum == ip
    modifies fs, fs.bits, fs.bits.bytes
    ensures r.Refused? ==> old(fs.icache[ip].kind) == T_DIR && !DotsOnly(old(List(fs, ip)))
    ensures r.Refused? ==> fs.logged == {} && TreeIn(fs) == old(TreeIn(fs))
    ensures r.UnlinkPanic? ==> old(fs.icache[ip].nlink) == 0 || fs.Full()
                               || (old(fs.icache[ip].kind) == T_DIR && old(fs.icache[ip].size) % ENTRY != 0)
    ensures r.Gone? ==> 0 < old(fs.icache[ip].nlink)
    ensures r.Gone? && old(fs.icache[ip].kind) == T_DIR ==> DotsOnly(old(List(fs, ip)))
    ensures !r.UnlinkPanic? ==> fs.Sound() && Covers(fs.sb, old(fs.Disk()), fs.Disk(), fs.logged)
    ensures r.Gone? ==> |fs.logged| <= fs.sb.size / BPB + 8 && (fs.sb.size < 12288 ==> |fs.logged| <= MAXOPBLOCKS)
    ensures r.Gone? && (old(fs.icache[ip].kind) == T_DIR ==> 0 < old(fs.icache[dp].nlink)) ==>
              TakenOff(old(TreeIn(fs)), TreeIn(fs), dp, k, last)
  {
    Start(fs);
    r := MayGo(fs, ip);
    if !r.Gone? { return; }
    var ok := Unname(fs, dp, k, ip);
    if !ok { return UnlinkPanic; }
    NodeIn(fs, ip);
    if last && fs.icache[ip].nlink == 0 {
      Collect(fs, ip);
    }
  }
}
