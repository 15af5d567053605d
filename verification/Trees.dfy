/**
 The tree of names that a file system's blocks spell out: what the directory code does to the
 bytes is what Links and Naming say of the tree, and the image that mkfs makes is a tree.
 */
module Trees {
  import opened Wrappers
  import opened Blocks
  import opened Inodes
  import opened FileBytes
  import Files
  import opened Dirs
  import opened Links
  import Paths
  import Naming
  import Mkfs

  ghost function NodeOf(d: Dinode, data: seq<Block>): Node {
    Node(d.kind, d.nlink, if d.kind == T_DIR then Entries(Bytes(d, data)) else [])
  }

  /** Every inode with its links and, if it is a directory, its entries. */
  ghost function TreeOf(data: seq<Block>, table: seq<Dinode>): (n: seq<Node>)
    ensures |n| == |table|
  {
    seq(|table|, i requires 0 <= i < |table| => NodeOf(table[i], data))
  }

  // ---------------------------------------------------------------- dirlink

  // an entry has been stored in place k or behind the last one
  lemma StoredAt(fs: Files.FileSystem, dp: nat, k: nat, e: Dirent, snap: Snap, table: seq<Dinode>)
    requires e.inum < 0x1_0000 && |e.name| <= DIRSIZ && dp < |table| == |fs.Table()| && dp in snap.icache
             && table[dp] == snap.icache[dp]
    requires table[dp].kind == T_DIR && AllNoHoles(snap.data, table) && Stored(fs, dp, k, e, snap, table)
    ensures var n := TreeOf(snap.data, table);
            var es := n[dp].entries;
            TreeOf(fs.data, fs.Table()) == n[dp := n[dp].(entries := if k < |es| then es[k := e] else es + [e])]
  {
    var n, n' := TreeOf(snap.data, table), TreeOf(fs.data, fs.Table());
    assert fs.Table()[dp] == fs.icache[dp];
    forall i: nat | i < |table| && i != dp ensures n'[i] == n[i] {
      assert SameAt(snap.data, table, fs.data, fs.Table(), i) && NoHoles(table[i], snap.data);
    }
  }

  /** What dirlink has stored is one entry more in the tree, and nothing else. */
  lemma StoredTree(fs: Files.FileSystem, dp: nat, e: Dirent, snap: Snap, table: seq<Dinode>)
    requires e.inum < 0x1_0000 && |e.name| <= DIRSIZ && dp < |table| == |fs.Table()| && dp in snap.icache
             && table[dp] == snap.icache[dp]
    requires table[dp].kind == T_DIR && AllNoHoles(snap.data, table)
    requires Stored(fs, dp, FreeSlot(Entries(Bytes(snap.icache[dp], snap.data))), e, snap, table)
    ensures TreeOf(fs.data, fs.Table()) == Entered(TreeOf(snap.data, table), dp, e)
  {
    StoredAt(fs, dp, FreeSlot(Entries(Bytes(snap.icache[dp], snap.data))), e, snap, table);
  }

  /** What unlink has stored takes an entry off the tree. */
  lemma ErasedTree(fs: Files.FileSystem, dp: nat, k: nat, snap: Snap, table: seq<Dinode>)
    requires dp < |table| == |fs.Table()| && dp in snap.icache && table[dp] == snap.icache[dp]
    requires table[dp].kind == T_DIR && AllNoHoles(snap.data, table) && Stored(fs, dp, k, Dirent(0, []), snap, table)
    requires k < |Entries(Bytes(snap.icache[dp], snap.data))|
    ensures TreeOf(fs.data, fs.Table()) == Links.Dropped(TreeOf(snap.data, table), dp, k)
  {
    StoredAt(fs, dp, k, Dirent(0, []), snap, table);
  }

  // ---------------------------------------------------------------- mkfs

  // entry k of the root directory of a new image
  lemma {:induction false} RootListAt(files: seq<Mkfs.Input>, k: nat)
    requires k < |files| + 2
    ensures Mkfs.RootList(files)[k] ==
            if k == 0 then Dirent(ROOT, DOT) else if k == 1 then Dirent(ROOT, DOTDOT)
            else Dirent(k, Cut(files[k - 2].name))
  {
    if files != [] && k < |files| + 1 {
      RootListAt(files[..|files| - 1], k);
    }
  }

  // zeros behind the entries are entries that are not in use
  lemma PaddedEntries(c: seq<Byte>, b: seq<Byte>)
    requires |b| % ENTRY == 0 && |c| % ENTRY == 0 && |b| <= |c| && c[..|b|] == b && forall o :: |b| <= o < |c| ==>
               c[o] == 0
    ensures |Entries(b)| <= |Entries(c)| && Entries(c)[..|Entries(b)|] == Entries(b)
    ensures forall k :: |Entries(b)| <= k < |Entries(c)| ==> Entries(c)[k].inum == 0
  {
    forall k: nat | k < |Entries(b)| ensures Entries(c)[k] == Entries(b)[k] {
      assert c[16 * k..16 * k + 16] == b[16 * k..16 * k + 16];
    }
  }

  // the tree of an image: the root with its entries, one inode for each file, and free inodes
  ghost predicate IsImageTree(n: seq<Node>, files: seq<Mkfs.Input>) {
    && |files| + 2 <= |n| && n[0] == FreeNode
    && n[ROOT].kind == T_DIR && n[ROOT].nlink == 1 && |files| + 2 <= |n[ROOT].entries|
    && n[ROOT].entries[..|files| + 2] == Mkfs.RootList(files)
    && (forall k :: |files| + 2 <= k < |n[ROOT].entries| ==> n[ROOT].entries[k].inum == 0)
    && (forall i :: 2 <= i < |files| + 2 ==> n[i] == Node(T_FILE, 1, []))
    && (forall i :: |files| + 2 <= i < |n| ==> n[i] == FreeNode)
  }

  lemma {:induction false} ImageRoot(data: seq<Block>, table: seq<Dinode>, files: seq<Mkfs.Input>)
    requires Mkfs.RootHeld(data, table, files) && forall k :: 0 <= k < |files| ==> 0 !in files[k].name
    ensures var r := NodeOf(table[ROOT], data);
            && r.kind == T_DIR && r.nlink == 1 && |files| + 2 <= |r.entries|
            && r.entries[..|files| + 2] == Mkfs.RootList(files)
            && forall k :: |files| + 2 <= k < |r.entries| ==> r.entries[k].inum == 0
  {
    Mkfs.RootEntries(files);
    PaddedEntries(Content(table[ROOT], data), Mkfs.RootBytes(files));
  }

  lemma {:induction false} ImageIsTree(data: seq<Block>, table: seq<Dinode>, files: seq<Mkfs.Input>)
    requires Mkfs.RootHeld(data, table, files) && Mkfs.FilesHeld(data, table, files, |files|)
             && Mkfs.RestBlank(table, files)
    requires forall k :: 0 <= k < |files| ==> 0 !in files[k].name
    ensures IsImageTree(TreeOf(data, table), files)
  {
    var n := TreeOf(data, table);
    ImageRoot(data, table, files);
    forall i | 2 <= i < |files| + 2 ensures n[i] == Node(T_FILE, 1, []) {
      assert Mkfs.Held(data, table, i - 2 + 2, T_FILE, files[i - 2].contents);
    }
  }

  lemma {:induction false} ImageEntry(n: seq<Node>, files: seq<Mkfs.Input>, k: nat)
    requires IsImageTree(n, files) && k < |n[ROOT].entries|
    ensures n[ROOT].entries[k].inum == if k >= |files| + 2 then 0 else if k < 2 then ROOT else k
    ensures k < |files| + 2 ==> n[ROOT].entries[k] == Mkfs.RootList(files)[k]
    ensures k == 0 ==> n[ROOT].entries[k].name == DOT
    ensures k == 1 ==> n[ROOT].entries[k].name == DOTDOT
  {
    if k < |files| + 2 {
      RootListAt(files, k);
      assert n[ROOT].entries[k] == n[ROOT].entries[..|files| + 2][k];
    }
  }

  // unique names, here and with the unused entries behind them
  lemma {:induction false} ImageNames(n: seq<Node>, files: seq<Mkfs.Input>)
    requires IsImageTree(n, files)
    ensures UniqueNames(n[ROOT].entries) <==> UniqueNames(Mkfs.RootList(files))
  {
    var es, l := n[ROOT].entries, Mkfs.RootList(files);
    forall k: nat | k < |es| ensures k < |l| ==> es[k] == l[k]
      ensures k >= |l| ==> es[k].inum == 0
    {
      ImageEntry(n, files, k);
    }
    assert forall k :: 0 <= k < |l| ==> l[k] == es[k];
  }

  // inode i is named once
  lemma {:induction false} ImageLinks(n: seq<Node>, files: seq<Mkfs.Input>, i: nat)
    requires IsImageTree(n, files) && UniqueNames(n[ROOT].entries) && 0 < i < |files| + 2
    ensures LinksTo(n, i) == {(ROOT, i)}
  {
    forall d: nat, k: nat ensures Names(n, d, k, i) <==> d == ROOT && k == i {
      if IsLinked(n, d) && k < |n[d].entries| {
        ImageEntry(n, files, k);
        ImageEntry(n, files, 0);
      }
      ImageEntry(n, files, i);
      ImageEntry(n, files, 0);
    }
    assert forall x: (nat, nat) :: x in LinksTo(n, i) ==> x == (x.0, x.1);
  }

  lemma {:induction false} ImageUnnamed(n: seq<Node>, files: seq<Mkfs.Input>, i: nat)
    requires IsImageTree(n, files) && |files| + 2 <= i
    ensures LinksTo(n, i) == {}
  {
    forall d: nat, k: nat ensures !Names(n, d, k, i) {
      if IsLinked(n, d) && k < |n[d].entries| { ImageEntry(n, files, k); }
    }
    assert forall x: (nat, nat) :: x in LinksTo(n, i) ==> x == (x.0, x.1);
  }

  lemma {:induction false} ImageTreeOk(n: seq<Node>, files: seq<Mkfs.Input>)
    requires IsImageTree(n, files) && UniqueNames(n[ROOT].entries)
    ensures TreeOk(n, map[])
  {
    forall i: nat ensures NodeOk(n, i) {
      if 0 < i < |files| + 2 { ImageLinks(n, files, i); } else if i < |n| && i != 0 { ImageUnnamed(n, files, i); }
    }
    forall d: nat ensures DirOk(n, d) && UpOk(n, map[], d) {
      ImageEntry(n, files, 0);
      ImageEntry(n, files, 1);
    }
    forall d: nat, k: nat ensures EntryOk(n, d, k) && UpOnly(n, map[], d, k) {
      if IsLinked(n, d) && k < |n[d].entries| {
        ImageEntry(n, files, k);
        ImageEntry(n, files, 0);
        ImageEntry(n, files, 1);
      }
    }
  }

  /**
   The image that mkfs makes is a tree with right link counts exactly if no two of the names,
   cut to DIRSIZ, are the same, and none is . or ..; mkfs does not check that.
   */
  lemma {:induction false} MkfsTree(data: seq<Block>, table: seq<Dinode>, files: seq<Mkfs.Input>)
    requires Mkfs.RootHeld(data, table, files) && Mkfs.FilesHeld(data, table, files, |files|)
             && Mkfs.RestBlank(table, files)
    requires forall k :: 0 <= k < |files| ==> 0 !in files[k].name
    ensures (exists up :: TreeOk(TreeOf(data, table), up)) <==> UniqueNames(Mkfs.RootList(files))
  {
    var n := TreeOf(data, table);
    ImageIsTree(data, table, files);
    ImageNames(n, files);
    if UniqueNames(Mkfs.RootList(files)) {
      ImageTreeOk(n, files);
    }
    forall up | TreeOk(n, up) ensures UniqueNames(n[ROOT].entries) {
      assert DirOk(n, ROOT);
    }
  }

  // ---------------------------------------------------------------- reaching the files

  // an earlier entry has the name of file j
  ghost predicate Hidden(files: seq<Mkfs.Input>, j: nat)
    requires j < |files|
  {
    exists k :: 0 <= k < j + 2 && Mkfs.RootList(files)[k].name == Cut(files[j].name)
  }

  // where a name leads in the root directory
  lemma {:induction false} ImageBinding(n: seq<Node>, files: seq<Mkfs.Input>, j: nat)
    requires IsImageTree(n, files) && j < |files|
    ensures Binding(n[ROOT].entries, Cut(files[j].name)) == Some(j + 2) <==> !Hidden(files, j)
  {
    var es, name := n[ROOT].entries, Cut(files[j].name);
    RootListAt(files, j + 2);
    ImageEntry(n, files, j + 2);
    var k := Find(es, name).value;
    ImageEntry(n, files, k);
    if k < j + 2 {
      assert Mkfs.RootList(files)[k].name == name;
    }
    if i :| 0 <= i < j + 2 && Mkfs.RootList(files)[i].name == name {
      ImageEntry(n, files, i);
      assert Live(es[i], name);
    }
  }

  // an inode is named under its own name only
  lemma {:induction false} BoundName(n: seq<Node>, files: seq<Mkfs.Input>, name: seq<Byte>, j: nat)
    requires IsImageTree(n, files) && j < |files| && Binding(n[ROOT].entries, name) == Some(j + 2)
    ensures name == Cut(files[j].name)
  {
    ImageEntry(n, files, Find(n[ROOT].entries, name).value);
    RootListAt(files, j + 2);
  }

  // the root is the only directory, so the last component has led to the file
  lemma {:induction false} WalkToFile(n: seq<Node>, files: seq<Mkfs.Input>, ip: nat, comps: seq<seq<Byte>>, j: nat)
    requires IsImageTree(n, files) && j < |files| && ip != j + 2
    requires Naming.Walk(n, ip, comps, false) == Naming.At(j + 2, [])
    ensures Cut(files[j].name) in comps && !Hidden(files, j)
    decreases |comps|
  {
    assert ip == ROOT;
    var next := Binding(n[ROOT].entries, comps[0]).value;
    if next == j + 2 {
      BoundName(n, files, comps[0], j);
      ImageBinding(n, files, j);
    } else {
      WalkToFile(n, files, next, comps[1..], j);
    }
  }

  // a name without slashes is a path of one component
  lemma OneComponent(name: seq<Byte>)
    requires name != [] && Paths.SLASH !in name
    ensures Paths.Components(name) == [Cut(name)]
  {
    assert name[..|name|] == name;
    Paths.UpToSlashEnds(name, |name|);
    Paths.SplitFirst(name, |name|);
    Paths.NoComponents();
  }

  ghost predicate LeadsTo(n: seq<Node>, path: seq<Byte>, i: nat) {
    Naming.Resolve(n, path, ROOT, false) == Naming.At(i, [])
  }

  lemma {:induction false} NameLeads(n: seq<Node>, files: seq<Mkfs.Input>, j: nat)
    requires IsImageTree(n, files) && j < |files| && !Hidden(files, j)
    requires files[j].name != [] && Paths.SLASH !in files[j].name
    ensures LeadsTo(n, files[j].name, j + 2)
  {
    OneComponent(files[j].name);
    ImageBinding(n, files, j);
    assert Naming.Walk(n, j + 2, [], false) == Naming.At(j + 2, []);
  }

  lemma {:induction false} LeadsByName(n: seq<Node>, files: seq<Mkfs.Input>, path: seq<Byte>, j: nat)
    requires IsImageTree(n, files) && j < |files| && LeadsTo(n, path, j + 2)
    ensures !Hidden(files, j) && files[j].name != []
  {
    WalkToFile(n, files, ROOT, Paths.Components(path), j);
    Naming.ComponentsCut(Paths.Split(path), Cut(files[j].name));
  }

  ghost predicate Reached(n: seq<Node>, i: nat) {
    exists path :: LeadsTo(n, path, i)
  }

  /**
   A path leads from the root to a file of a new image exactly if no entry before it has its
   name, cut to DIRSIZ, and the name is not empty, as that of the host's file _ is.
   */
  lemma {:induction false} FileReached(data: seq<Block>, table: seq<Dinode>, files: seq<Mkfs.Input>, j: nat)
    requires Mkfs.RootHeld(data, table, files) && Mkfs.FilesHeld(data, table, files, |files|)
             && Mkfs.RestBlank(table, files)
    requires forall k :: 0 <= k < |files| ==> 0 !in files[k].name
    requires j < |files| && Paths.SLASH !in files[j].name
    ensures Reached(TreeOf(data, table), j + 2) <==> !Hidden(files, j) && files[j].name != []
  {
    var n := TreeOf(data, table);
    ImageIsTree(data, table, files);
    if !Hidden(files, j) && files[j].name != [] {
      NameLeads(n, files, j);
    }
    if Reached(n, j + 2) {
      var path :| LeadsTo(n, path, j + 2);
      LeadsByName(n, files, path, j);
    }
  }

  lemma {:induction false} TwoListed(files: seq<Mkfs.Input>)
    requires |files| == 2 && Cut(files[0].name) == Cut(files[1].name) && !IsDots(Cut(files[0].name))
    ensures !UniqueNames(Mkfs.RootList(files)) && !Hidden(files, 0) && Hidden(files, 1)
  {
    RootListAt(files, 0);
    RootListAt(files, 1);
    RootListAt(files, 2);
    RootListAt(files, 3);
    assert Mkfs.RootList(files)[2].name == Mkfs.RootList(files)[3].name;
  }

  lemma {:induction false} TwoFit(files: seq<Mkfs.Input>)
    requires |files| == 2 && |files[0].contents| == |files[1].contents| == 1
    ensures Mkfs.Buildable(Mkfs.MkfsSuper, files) && |Mkfs.RootBytes(files)| == 64
  {
    assert files[..1][..0] == [];
    assert Mkfs.FilesCost(files[..1]) == 1;
  }

  // two files whose names differ behind DIRSIZ bytes
  method Namesakes() returns (files: seq<Mkfs.Input>)
    ensures |files| == 2 && files[0].name != files[1].name && files[0].contents == [1] && files[1].contents == [2]
    ensures forall k :: 0 <= k < 2 ==> files[k].name != [] && 0 !in files[k].name && Paths.SLASH !in files[k].name
    ensures Cut(files[0].name) == Cut(files[1].name) && !IsDots(Cut(files[0].name))
  {
    var stem: seq<Byte> := [97, 97, 97, 97, 97, 97, 97, 97, 97, 97, 97, 97, 97, 97];
    var name, other := stem + [98], stem + [99];
    assert name[14] != other[14] && Cut(name) == stem && Cut(other) == stem;
    assert 0 !in stem && Paths.SLASH !in stem;
    files := [Mkfs.Input(name, [1]), Mkfs.Input(other, [2])];
  }

  /**
   mkfs makes an image of them, which is no tree, and no path leads to the second file
   although its contents and its entry are there.
   */
  method NamesakeImage() returns (fs: Files.FileSystem)
    ensures fs.sb == Mkfs.MkfsSuper && fs.Sound() && fs.icache == map[]
    ensures !exists up :: TreeOk(TreeOf(fs.data, fs.dinode), up)
    ensures Mkfs.Held(fs.data, fs.dinode, 3, T_FILE, [2])
    ensures Reached(TreeOf(fs.data, fs.dinode), 2) && !Reached(TreeOf(fs.data, fs.dinode), 3)
  {
    var files := Namesakes();
    TwoListed(files);
    TwoFit(files);
    var ok;
    ok, fs := Mkfs.MakeImage(Mkfs.MkfsSuper, files);
    MkfsTree(fs.data, fs.dinode, files);
    FileReached(fs.data, fs.dinode, files, 0);
    FileReached(fs.data, fs.dinode, files, 1);
    assert Mkfs.Held(fs.data, fs.dinode, 1 + 2, T_FILE, files[1].contents);
  }
}
