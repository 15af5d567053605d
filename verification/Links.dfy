// Link counts.  The tree of inodes, with directories as their entries (see Dirs for the bytes), and
// the reference counts of the inode cache; namex, link, unlink and create work on it step by step.
module Links {
  import opened Wrappers
  import opened Blocks
  import opened Inodes
  import opened Dirs

  const ROOT: nat := 1

  const DOT: seq<Byte> := [46]
  const DOTDOT: seq<Byte> := [46, 46]

  // kind 0 is a free inode; only directories have entries
  datatype Node = Node(kind: nat, nlink: nat, entries: seq<Dirent>)

  const FreeNode: Node := Node(0, 0, [])

  ghost predicate IsDir(n: seq<Node>, d: nat) {
    d < |n| && n[d].kind == T_DIR
  }

  ghost predicate IsLinked(n: seq<Node>, d: nat) {
    IsDir(n, d) && n[d].nlink > 0
  }

  /** Entry k of the linked directory d names inode i, and is not its own dot. */
  ghost predicate Names(n: seq<Node>, d: nat, k: nat, i: nat) {
    IsLinked(n, d) && k < |n[d].entries| && n[d].entries[k].inum == i && n[d].entries[k].name != DOT
  }

  /** All entries that count as links to i. */
  ghost function LinksTo(n: seq<Node>, i: nat): (r: set<(nat, nat)>)
    ensures forall d: nat, k: nat {:trigger (d, k) in r} :: (d, k) in r <==> Names(n, d, k, i)
  {
    set d: nat, k: nat | d < |n| && k < |n[d].entries| && Names(n, d, k, i) :: (d, k)
  }

  ghost predicate NodeOk(n: seq<Node>, i: nat) {
    0 < i < |n| ==>
      && n[i].nlink == |LinksTo(n, i)|
      && (n[i].kind != T_DIR ==> n[i].entries == [])
      && (n[i].kind == 0 ==> n[i].nlink == 0)
  }

  predicate IsDots(name: seq<Byte>) {
    name == DOT || name == DOTDOT
  }

  // a directory begins with its dots and has no two entries of the same name; an unlinked one has no more
  ghost predicate DirOk(n: seq<Node>, d: nat) {
    IsDir(n, d) ==>
      var es := n[d].entries;
      && |es| >= 2 && es[0] == Dirent(d, DOT) && es[1].name == DOTDOT && 0 < es[1].inum < |n|
      && UniqueNames(es) && (n[d].nlink == 0 ==> forall k :: 2 <= k < |es| ==> es[k].inum == 0)
      && (d == ROOT ==> es[1].inum == ROOT)
  }

  // what a linked directory names is an inode in use; its dots come first
  ghost predicate EntryOk(n: seq<Node>, d: nat, k: nat) {
    IsLinked(n, d) && k < |n[d].entries| && n[d].entries[k].inum != 0 ==>
      n[d].entries[k].inum < |n| && n[n[d].entries[k].inum].kind != 0 && (k >= 2 ==> !IsDots(n[d].entries[k].name))
  }

  // up says where each linked directory but the root is named
  ghost predicate UpOk(n: seq<Node>, up: map<nat, (nat, nat)>, c: nat) {
    IsLinked(n, c) && c != ROOT ==>
      && c in up && up[c].1 >= 2 && IsLinked(n, up[c].0) && up[c].1 < |n[up[c].0].entries|
      && n[up[c].0].entries[up[c].1].inum == c && |n[c].entries| >= 2 && n[c].entries[1].inum == up[c].0
  }

  // and it is named nowhere else
  ghost predicate UpOnly(n: seq<Node>, up: map<nat, (nat, nat)>, d: nat, k: nat) {
    IsLinked(n, d) && 2 <= k < |n[d].entries| && IsDir(n, n[d].entries[k].inum) ==>
      var c := n[d].entries[k].inum;
      c != ROOT && IsLinked(n, c) && c in up && up[c] == (d, k)
  }

  /** Every link count is the number of entries that name the inode, and the directories form a tree. */
  ghost predicate TreeOk(n: seq<Node>, up: map<nat, (nat, nat)>) {
    && ROOT < |n| && IsLinked(n, ROOT) && n[0] == FreeNode
    && (forall i: nat {:trigger NodeOk(n, i)} :: NodeOk(n, i))
    && (forall d: nat {:trigger DirOk(n, d)} :: DirOk(n, d))
    && (forall d: nat, k: nat {:trigger EntryOk(n, d, k)} :: EntryOk(n, d, k))
    && (forall c: nat {:trigger UpOk(n, up, c)} :: UpOk(n, up, c))
    && (forall d: nat, k: nat {:trigger UpOnly(n, up, d, k)} :: UpOnly(n, up, d, k))
  }

  // an inode without links is in use only while someone refers to it
  ghost predicate RefOk(n: seq<Node>, ref: seq<nat>, i: nat) {
    i < |n| == |ref| && n[i].kind != 0 && n[i].nlink == 0 ==> ref[i] > 0
  }

  ghost predicate RefsOk(n: seq<Node>, ref: seq<nat>) {
    |ref| == |n| && forall i: nat {:trigger RefOk(n, ref, i)} :: RefOk(n, ref, i)
  }

  // ---------------------------------------------------------------- named inodes are linked

  lemma NamedIsLinked(n: seq<Node>, up: map<nat, (nat, nat)>, d: nat, k: nat)
    requires TreeOk(n, up) && IsLinked(n, d) && k < |n[d].entries| && n[d].entries[k].inum != 0
    ensures n[d].entries[k].inum < |n| && n[n[d].entries[k].inum].kind != 0 && n[n[d].entries[k].inum].nlink > 0
  {
    var i := n[d].entries[k].inum;
    assert EntryOk(n, d, k) && DirOk(n, d) && NodeOk(n, i);
    if k > 0 {
      assert n[d].entries[0].name == DOT;
      assert Names(n, d, k, i);
      assert (d, k) in LinksTo(n, i);
    }
  }

  /** An empty directory has one link, the entry in its parent. */
  lemma EmptyHasOneLink(n: seq<Node>, up: map<nat, (nat, nat)>, d: nat, k: nat)
    requires TreeOk(n, up) && IsLinked(n, d) && 2 <= k < |n[d].entries|
    requires IsDir(n, n[d].entries[k].inum) && DotsOnly(n[n[d].entries[k].inum].entries)
    ensures var c := n[d].entries[k].inum;
            LinksTo(n, c) == {(d, k)} && n[c].nlink == 1 && c != ROOT && c != d && |n[c].entries| >= 2
            && n[c].entries[1].inum == d
  {
    var c := n[d].entries[k].inum;
    assert UpOnly(n, up, d, k) && UpOk(n, up, c) && NodeOk(n, c) && DirOk(n, c) && DirOk(n, d) && EntryOk(n, d, k);
    assert Names(n, d, k, c);
    forall p: nat, j: nat | Names(n, p, j, c) ensures (p, j) == (d, k) {
      assert DirOk(n, p) && UpOk(n, up, p) && UpOnly(n, up, p, j);
    }
    assert LinksTo(n, c) == {(d, k)};
  }

  // ---------------------------------------------------------------- counting

  ghost predicate AddsAt(n: seq<Node>, n': seq<Node>, j: nat, more: set<(nat, nat)>, p: nat, m: nat) {
    (Names(n', p, m, j) <==> Names(n, p, m, j) || (p, m) in more) && !(Names(n, p, m, j) && (p, m) in more)
  }

  lemma LinksGrow(n: seq<Node>, n': seq<Node>, j: nat, more: set<(nat, nat)>)
    requires forall p: nat, m: nat {:trigger AddsAt(n, n', j, more, p, m)} :: AddsAt(n, n', j, more, p, m)
    ensures |LinksTo(n', j)| == |LinksTo(n, j)| + |more|
  {
    forall x: (nat, nat) ensures x in LinksTo(n', j) <==> x in LinksTo(n, j) || x in more
      ensures !(x in LinksTo(n, j) && x in more)
    {
      assert AddsAt(n, n', j, more, x.0, x.1) && x == (x.0, x.1);
    }
    assert LinksTo(n', j) == LinksTo(n, j) + more;
  }

  ghost predicate LosesAt(n: seq<Node>, n': seq<Node>, j: nat, less: set<(nat, nat)>, p: nat, m: nat) {
    (Names(n', p, m, j) <==> Names(n, p, m, j) && (p, m) !in less) && ((p, m) in less ==> Names(n, p, m, j))
  }

  lemma LinksShrink(n: seq<Node>, n': seq<Node>, j: nat, less: set<(nat, nat)>)
    requires forall p: nat, m: nat {:trigger LosesAt(n, n', j, less, p, m)} :: LosesAt(n, n', j, less, p, m)
    ensures |LinksTo(n', j)| == |LinksTo(n, j)| - |less|
  {
    forall x: (nat, nat) ensures x in LinksTo(n', j) <==> x in LinksTo(n, j) && x !in less
      ensures x in less ==> x in LinksTo(n, j)
    {
      assert LosesAt(n, n', j, less, x.0, x.1) && x == (x.0, x.1);
    }
    assert LinksTo(n', j) == LinksTo(n, j) - less && less <= LinksTo(n, j);
  }

  // ---------------------------------------------------------------- changes of the tree

  function Entered(n: seq<Node>, d: nat, e: Dirent): seq<Node>
    requires d < |n|
  {
    n[d := n[d].(entries := Link(n[d].entries, e))]
  }

  function Counted(n: seq<Node>, i: nat, nlink: nat): seq<Node>
    requires i < |n|
  {
    n[i := n[i].(nlink := nlink)]
  }

  /** sys_link: one more entry for the file i. */
  ghost function FileLinked(n: seq<Node>, d: nat, i: nat, name: seq<Byte>): seq<Node>
    requires d < |n| && i < |n|
  {
    Entered(Counted(n, i, n[i].nlink + 1), d, Dirent(i, name))
  }

  // a name that can be entered
  ghost predicate CanEnter(n: seq<Node>, up: map<nat, (nat, nat)>, d: nat, name: seq<Byte>) {
    TreeOk(n, up) && IsDir(n, d) && Find(n[d].entries, name) == None
  }

  /** Every link count is the number of entries that name the inode. */
  ghost predicate CountsOk(n: seq<Node>) {
    forall i: nat {:trigger NodeOk(n, i)} :: NodeOk(n, i)
  }

  // where it goes, and that it is not one of the dots
  lemma EnterAt(n: seq<Node>, up: map<nat, (nat, nat)>, d: nat, e: Dirent, m: nat)
    requires CanEnter(n, up, d, e.name) && e.inum != 0
    ensures var es, es', k := n[d].entries, Link(n[d].entries, e), FreeSlot(n[d].entries);
            && 2 <= k <= |es| && k < |es'| && |es| <= |es'| && es'[k] == e && !IsDots(e.name) && UniqueNames(es')
            && (k < |es| ==> es[k].inum == 0) && (m < |es'| && m != k ==> m < |es| && es'[m] == es[m])
  {
    assert DirOk(n, d);
    LinkBinding(n[d].entries, e, e.name);
    assert !Live(n[d].entries[0], e.name) && !Live(n[d].entries[1], e.name);
  }

  ghost predicate CanLink(n: seq<Node>, up: map<nat, (nat, nat)>, d: nat, i: nat, name: seq<Byte>) {
    CanEnter(n, up, d, name) && 0 < i < |n| && n[i].kind != 0 && n[i].kind != T_DIR
  }

  // the new entry counts if its directory does
  lemma FileLinkedNames(n: seq<Node>, up: map<nat, (nat, nat)>, d: nat, i: nat, name: seq<Byte>, p: nat, m: nat, j: nat)
    requires CanLink(n, up, d, i, name) && j != 0
    ensures Names(FileLinked(n, d, i, name), p, m, j) <==>
            Names(n, p, m, j) || (IsLinked(n, d) && p == d && m == FreeSlot(n[d].entries) && j == i)
    ensures !Names(n, d, FreeSlot(n[d].entries), j)
  {
    EnterAt(n, up, d, Dirent(i, name), m);
  }

  lemma FileLinkedNode(n: seq<Node>, up: map<nat, (nat, nat)>, d: nat, i: nat, name: seq<Byte>, j: nat)
    requires CanLink(n, up, d, i, name)
    ensures NodeOk(FileLinked(n, d, i, name), j) <==> j != i || IsLinked(n, d)
  {
    var n', k := FileLinked(n, d, i, name), FreeSlot(n[d].entries);
    assert NodeOk(n, j);
    if 0 < j < |n| {
      var more := if j == i && IsLinked(n, d) then {(d, k)} else {};
      forall p: nat, m: nat ensures AddsAt(n, n', j, more, p, m) {
        FileLinkedNames(n, up, d, i, name, p, m, j);
      }
      LinksGrow(n, n', j, more);
    }
  }

  /** A new link keeps the counts right exactly if its directory has not been removed. */
  lemma FileLinkedCounts(n: seq<Node>, up: map<nat, (nat, nat)>, d: nat, i: nat, name: seq<Byte>)
    requires CanLink(n, up, d, i, name)
    ensures CountsOk(FileLinked(n, d, i, name)) <==> IsLinked(n, d)
  {
    forall j: nat ensures NodeOk(FileLinked(n, d, i, name), j) <==> j != i || IsLinked(n, d) {
      FileLinkedNode(n, up, d, i, name, j);
    }
    assert CountsOk(FileLinked(n, d, i, name)) ==> NodeOk(FileLinked(n, d, i, name), i);
  }

  lemma FileLinkedOk(n: seq<Node>, up: map<nat, (nat, nat)>, d: nat, i: nat, name: seq<Byte>)
    requires CanLink(n, up, d, i, name) && IsLinked(n, d)
    ensures TreeOk(FileLinked(n, d, i, name), up)
  {
    var n', e := FileLinked(n, d, i, name), Dirent(i, name);
    forall j: nat ensures NodeOk(n', j) {
      FileLinkedNode(n, up, d, i, name, j);
    }
    EnterAt(n, up, d, e, 0);
    forall c: nat ensures DirOk(n', c) && UpOk(n', up, c) {
      assert DirOk(n, c) && UpOk(n, up, c);
      EnterAt(n, up, d, e, 1);
      if IsLinked(n, c) && c != ROOT { EnterAt(n, up, d, e, up[c].1); }
    }
    forall p: nat, m: nat ensures EntryOk(n', p, m) && UpOnly(n', up, p, m) {
      assert EntryOk(n, p, m) && UpOnly(n, up, p, m);
      EnterAt(n, up, d, e, m);
    }
  }

  // ---------------------------------------------------------------- create

  function NewNode(d: nat, i: nat, kind: nat): Node {
    Node(kind, 1, if kind == T_DIR then [Dirent(i, DOT), Dirent(d, DOTDOT)] else [])
  }

  // the inode, and the parent's count for its ..
  function Made(n: seq<Node>, d: nat, i: nat, kind: nat): seq<Node>
    requires d < |n| && i < |n|
  {
    var n1 := n[i := NewNode(d, i, kind)];
    if kind == T_DIR then Counted(n1, d, n1[d].nlink + 1) else n1
  }

  /** create: a new inode i of the kind, named in d. */
  function Created(n: seq<Node>, d: nat, i: nat, kind: nat, name: seq<Byte>): seq<Node>
    requires d < |n| && i < |n|
  {
    Entered(Made(n, d, i, kind), d, Dirent(i, name))
  }

  ghost predicate CanCreate(n: seq<Node>, up: map<nat, (nat, nat)>, d: nat, i: nat, kind: nat, name: seq<Byte>) {
    CanEnter(n, up, d, name) && 0 < i < |n| && n[i].kind == 0 && kind != 0
  }

  ghost function CreatedUp(n: seq<Node>, up: map<nat, (nat, nat)>, d: nat, i: nat, kind: nat): map<nat, (nat, nat)>
    requires d < |n|
  {
    if kind == T_DIR then up[i := (d, FreeSlot(n[d].entries))] else up
  }

  // the new entries that count
  ghost predicate NewName(n: seq<Node>, d: nat, i: nat, kind: nat, p: nat, m: nat, j: nat)
    requires d < |n|
  {
    || ((IsLinked(n, d) || kind == T_DIR) && p == d && m == FreeSlot(n[d].entries) && j == i)
    || (kind == T_DIR && p == i && m == 1 && j == d)
    || Revived(n, d, kind, p, m, j)
  }

  // a removed directory counts again when a directory is made in it, and with it its entry ..
  ghost predicate Revived(n: seq<Node>, d: nat, kind: nat, p: nat, m: nat, j: nat) {
    && IsDir(n, d) && n[d].nlink == 0 && kind == T_DIR && p == d && m == 1
    && |n[d].entries| >= 2 && j == n[d].entries[1].inum
  }

  lemma CreatedNames(n: seq<Node>, up: map<nat, (nat, nat)>, d: nat, i: nat, kind: nat, name: seq<Byte>, p: nat, m: nat,
                     j: nat)
    requires CanCreate(n, up, d, i, kind, name) && j != 0
    ensures Names(Created(n, d, i, kind, name), p, m, j) <==> Names(n, p, m, j) || NewName(n, d, i, kind, p, m, j)
    ensures !(Names(n, p, m, j) && NewName(n, d, i, kind, p, m, j))
  {
    assert DirOk(n, d);
    EnterAt(n, up, d, Dirent(i, name), m);
    EnterAt(n, up, d, Dirent(i, name), 1);
  }

  // the new entries that name j
  ghost function NewNames(n: seq<Node>, d: nat, i: nat, kind: nat, j: nat): set<(nat, nat)>
    requires IsDir(n, d) && |n[d].entries| >= 2
  {
    (if (IsLinked(n, d) || kind == T_DIR) && j == i then {(d, FreeSlot(n[d].entries))} else {})
    + (if kind == T_DIR && j == d then {(i, 1)} else {})
    + (if kind == T_DIR && n[d].nlink == 0 && j == n[d].entries[1].inum then {(d, 1)} else {})
  }

  lemma CreatedLinks(n: seq<Node>, up: map<nat, (nat, nat)>, d: nat, i: nat, kind: nat, name: seq<Byte>, j: nat)
    requires CanCreate(n, up, d, i, kind, name) && j != 0
    ensures |n[d].entries| >= 2
    ensures |LinksTo(Created(n, d, i, kind, name), j)| == |LinksTo(n, j)| + |NewNames(n, d, i, kind, j)|
  {
    var n' := Created(n, d, i, kind, name);
    assert DirOk(n, d);
    var more := NewNames(n, d, i, kind, j);
    forall p: nat, m: nat ensures AddsAt(n, n', j, more, p, m) {
      CreatedNames(n, up, d, i, kind, name, p, m, j);
    }
    LinksGrow(n, n', j, more);
  }

  lemma CreatedNode(n: seq<Node>, up: map<nat, (nat, nat)>, d: nat, i: nat, kind: nat, name: seq<Byte>, j: nat)
    requires CanCreate(n, up, d, i, kind, name) && IsLinked(n, d)
    ensures NodeOk(Created(n, d, i, kind, name), j)
  {
    assert NodeOk(n, j);
    if 0 < j < |n| {
      CreatedLinks(n, up, d, i, kind, name, j);
    }
  }

  // how many of the new entries of a removed directory name what its .. names
  lemma NewNamesUp(n: seq<Node>, d: nat, i: nat)
    requires IsDir(n, d) && n[d].nlink == 0 && |n[d].entries| >= 2 && FreeSlot(n[d].entries) >= 2 && i != d
    ensures var j := n[d].entries[1].inum;
            |NewNames(n, d, i, T_DIR, j)| == if j == i || j == d then 2 else 1
  {
    var j, k := n[d].entries[1].inum, FreeSlot(n[d].entries);
    assert j == i ==> NewNames(n, d, i, T_DIR, j) == {(d, k), (d, 1)};
    assert j == d ==> NewNames(n, d, i, T_DIR, j) == {(i, 1), (d, 1)};
    assert j != i && j != d ==> NewNames(n, d, i, T_DIR, j) == {(d, 1)};
  }

  // the count of the new file is wrong, or that of what .. of the directory names
  lemma CreatedWrong(n: seq<Node>, up: map<nat, (nat, nat)>, d: nat, i: nat, kind: nat, name: seq<Byte>)
    requires CanCreate(n, up, d, i, kind, name) && n[d].nlink == 0
    ensures !CountsOk(Created(n, d, i, kind, name))
  {
    assert DirOk(n, d);
    var j := if kind == T_DIR then n[d].entries[1].inum else i;
    EnterAt(n, up, d, Dirent(i, name), 0);
    assert NodeOk(n, j);
    CreatedLinks(n, up, d, i, kind, name, j);
    NewNamesUp(n, d, i);
    CreatedCount(n, d, i, kind, name, j);
    assert !NodeOk(Created(n, d, i, kind, name), j);
  }

  lemma CreatedCount(n: seq<Node>, d: nat, i: nat, kind: nat, name: seq<Byte>, j: nat)
    requires d < |n| && i < |n| && j < |n| && d != i
    ensures var n' := Created(n, d, i, kind, name);
            |n'| == |n| && n'[j].nlink == if j == i then 1 else if j == d && kind == T_DIR then n[d].nlink + 1
            else n[j].nlink
  {
  }

  /** A new inode keeps the counts right exactly if its directory has not been removed. */
  lemma CreatedCounts(n: seq<Node>, up: map<nat, (nat, nat)>, d: nat, i: nat, kind: nat, name: seq<Byte>)
    requires CanCreate(n, up, d, i, kind, name)
    ensures CountsOk(Created(n, d, i, kind, name)) <==> IsLinked(n, d)
  {
    if IsLinked(n, d) {
      forall j: nat ensures NodeOk(Created(n, d, i, kind, name), j) {
        CreatedNode(n, up, d, i, kind, name, j);
      }
    } else {
      CreatedWrong(n, up, d, i, kind, name);
    }
  }

  lemma CreatedOk(n: seq<Node>, up: map<nat, (nat, nat)>, d: nat, i: nat, kind: nat, name: seq<Byte>)
    requires CanCreate(n, up, d, i, kind, name) && IsLinked(n, d)
    ensures TreeOk(Created(n, d, i, kind, name), CreatedUp(n, up, d, i, kind))
  {
    var n', up', e := Created(n, d, i, kind, name), CreatedUp(n, up, d, i, kind), Dirent(i, name);
    forall j: nat ensures NodeOk(n', j) {
      CreatedNode(n, up, d, i, kind, name, j);
    }
    forall c: nat ensures DirOk(n', c) && UpOk(n', up', c) {
      CreatedDir(n, up, d, i, kind, name, c);
      CreatedTree(n, up, d, i, kind, name, c);
    }
    forall p: nat, m: nat ensures EntryOk(n', p, m) && UpOnly(n', up', p, m) {
      CreatedEntry(n, up, d, i, kind, name, p, m);
      CreatedOnly(n, up, d, i, kind, name, p, m);
    }
  }

  lemma CreatedDir(n: seq<Node>, up: map<nat, (nat, nat)>, d: nat, i: nat, kind: nat, name: seq<Byte>, c: nat)
    requires CanCreate(n, up, d, i, kind, name) && IsLinked(n, d)
    ensures DirOk(Created(n, d, i, kind, name), c)
  {
    assert DirOk(n, c) && DirOk(n, d);
    EnterAt(n, up, d, Dirent(i, name), 0);
    EnterAt(n, up, d, Dirent(i, name), 1);
  }

  lemma CreatedTree(n: seq<Node>, up: map<nat, (nat, nat)>, d: nat, i: nat, kind: nat, name: seq<Byte>, c: nat)
    requires CanCreate(n, up, d, i, kind, name) && IsLinked(n, d)
    ensures UpOk(Created(n, d, i, kind, name), CreatedUp(n, up, d, i, kind), c)
  {
    var n', e := Created(n, d, i, kind, name), Dirent(i, name);
    if c == i {
      EnterAt(n, up, d, e, 0);
    } else if IsLinked(n, c) && c != ROOT {
      assert UpOk(n, up, c);
      EnterAt(n, up, d, e, 1);
      EnterAt(n, up, d, e, up[c].1);
      assert n'[c].entries[1] == n[c].entries[1] && n'[up[c].0].entries[up[c].1] == n[up[c].0].entries[up[c].1];
    }
  }

  lemma CreatedEntry(n: seq<Node>, up: map<nat, (nat, nat)>, d: nat, i: nat, kind: nat, name: seq<Byte>, p: nat, m: nat)
    requires CanCreate(n, up, d, i, kind, name) && IsLinked(n, d)
    ensures EntryOk(Created(n, d, i, kind, name), p, m)
  {
    assert EntryOk(n, p, m);
    EnterAt(n, up, d, Dirent(i, name), m);
  }

  lemma CreatedOnly(n: seq<Node>, up: map<nat, (nat, nat)>, d: nat, i: nat, kind: nat, name: seq<Byte>, p: nat, m: nat)
    requires CanCreate(n, up, d, i, kind, name) && IsLinked(n, d)
    ensures UpOnly(Created(n, d, i, kind, name), CreatedUp(n, up, d, i, kind), p, m)
  {
    assert EntryOk(n, p, m) && UpOnly(n, up, p, m);
    EnterAt(n, up, d, Dirent(i, name), m);
  }

  // ---------------------------------------------------------------- unlink

  function Dropped(n: seq<Node>, d: nat, k: nat): seq<Node>
    requires d < |n| && k < |n[d].entries|
  {
    n[d := n[d].(entries := Unlink(n[d].entries, k))]
  }

  function Less(x: nat): nat {
    if x > 0 then x - 1 else 0
  }

  /** unlink: entry k of d is gone, and with it a link of the inode, and of d if that was a directory. */
  function Unlinked(n: seq<Node>, d: nat, k: nat): seq<Node>
    requires d < |n| && k < |n[d].entries| && n[d].entries[k].inum < |n|
  {
    var i, n1 := n[d].entries[k].inum, Dropped(n, d, k);
    var n2 := if n[i].kind == T_DIR then Counted(n1, d, Less(n1[d].nlink)) else n1;
    Counted(n2, i, Less(n2[i].nlink))
  }

  ghost predicate CanUnlink(n: seq<Node>, up: map<nat, (nat, nat)>, d: nat, k: nat) {
    && TreeOk(n, up) && IsLinked(n, d) && 2 <= k < |n[d].entries| && 0 < n[d].entries[k].inum < |n|
    && (IsDir(n, n[d].entries[k].inum) ==> DotsOnly(n[n[d].entries[k].inum].entries))
  }

  // the parent of a directory has another link
  lemma ParentHasMore(n: seq<Node>, up: map<nat, (nat, nat)>, d: nat, c: nat)
    requires TreeOk(n, up) && IsLinked(n, d) && IsLinked(n, c) && c != d && c != ROOT && |n[c].entries| >= 2
    requires n[c].entries[1].inum == d
    ensures d > 0 && (c, 1) in LinksTo(n, d) && n[d].nlink >= 2
  {
    assert DirOk(n, c) && DirOk(n, d) && UpOk(n, up, d) && NodeOk(n, d) && d != 0;
    assert Names(n, c, 1, d);
    var other := if d == ROOT then (ROOT, 1) else up[d];
    assert EntryOk(n, other.0, other.1);
    assert Names(n, other.0, other.1, d);
    assert {(c, 1), other} <= LinksTo(n, d);
    SubsetSize({(c, 1), other}, LinksTo(n, d));
  }

  // which entries count no more
  ghost predicate OldName(n: seq<Node>, d: nat, k: nat, p: nat, m: nat)
    requires d < |n| && k < |n[d].entries|
  {
    (p == d && m == k) || (p == n[d].entries[k].inum && IsDir(n, n[d].entries[k].inum) && m == 1)
  }

  lemma UnlinkFacts(n: seq<Node>, up: map<nat, (nat, nat)>, d: nat, k: nat)
    requires CanUnlink(n, up, d, k)
    ensures var i := n[d].entries[k].inum;
            && n[i].kind != 0 && n[i].nlink > 0 && i != d && (d, k) in LinksTo(n, i)
            && (IsDir(n, i) ==> n[i].nlink == 1 && i != ROOT && n[d].nlink >= 2 && (i, 1) in LinksTo(n, d)
                                && |n[i].entries| >= 2 && n[i].entries[1].inum == d)
  {
    var i := n[d].entries[k].inum;
    NamedIsLinked(n, up, d, k);
    assert EntryOk(n, d, k) && DirOk(n, d) && DirOk(n, i);
    assert Names(n, d, k, i);
    if IsDir(n, i) {
      EmptyHasOneLink(n, up, d, k);
      ParentHasMore(n, up, d, i);
    }
  }

  lemma UnlinkedNames(n: seq<Node>, up: map<nat, (nat, nat)>, d: nat, k: nat, p: nat, m: nat, j: nat)
    requires CanUnlink(n, up, d, k) && j != 0
    ensures Names(Unlinked(n, d, k), p, m, j) <==> Names(n, p, m, j) && !OldName(n, d, k, p, m)
  {
    UnlinkFacts(n, up, d, k);
    assert DirOk(n, p);
  }

  lemma UnlinkedNode(n: seq<Node>, up: map<nat, (nat, nat)>, d: nat, k: nat, j: nat)
    requires CanUnlink(n, up, d, k)
    ensures NodeOk(Unlinked(n, d, k), j)
  {
    var n', i := Unlinked(n, d, k), n[d].entries[k].inum;
    assert NodeOk(n, j);
    UnlinkFacts(n, up, d, k);
    if 0 < j < |n| {
      var less := if j == i then {(d, k)} else if j == d && IsDir(n, i) then {(i, 1)} else {};
      forall p: nat, m: nat ensures LosesAt(n, n', j, less, p, m) {
        UnlinkedNames(n, up, d, k, p, m, j);
      }
      LinksShrink(n, n', j, less);
    }
  }

  lemma UnlinkedDir(n: seq<Node>, up: map<nat, (nat, nat)>, d: nat, k: nat, c: nat)
    requires CanUnlink(n, up, d, k)
    ensures DirOk(Unlinked(n, d, k), c)
  {
    UnlinkFacts(n, up, d, k);
    assert DirOk(n, c);
  }

  lemma UnlinkedTree(n: seq<Node>, up: map<nat, (nat, nat)>, d: nat, k: nat, c: nat)
    requires CanUnlink(n, up, d, k)
    ensures UpOk(Unlinked(n, d, k), up, c)
  {
    UnlinkFacts(n, up, d, k);
    assert UpOk(n, up, c) && UpOnly(n, up, d, k);
  }

  lemma UnlinkedEntry(n: seq<Node>, up: map<nat, (nat, nat)>, d: nat, k: nat, p: nat, m: nat)
    requires CanUnlink(n, up, d, k)
    ensures EntryOk(Unlinked(n, d, k), p, m) && UpOnly(Unlinked(n, d, k), up, p, m)
  {
    UnlinkFacts(n, up, d, k);
    assert EntryOk(n, p, m) && UpOnly(n, up, p, m) && UpOnly(n, up, d, k);
  }

  lemma UnlinkedOk(n: seq<Node>, up: map<nat, (nat, nat)>, d: nat, k: nat)
    requires CanUnlink(n, up, d, k)
    ensures TreeOk(Unlinked(n, d, k), up)
  {
    var n' := Unlinked(n, d, k);
    UnlinkFacts(n, up, d, k);
    forall j: nat ensures NodeOk(n', j) {
      UnlinkedNode(n, up, d, k, j);
    }
    forall c: nat ensures DirOk(n', c) && UpOk(n', up, c) {
      UnlinkedDir(n, up, d, k, c);
      UnlinkedTree(n, up, d, k, c);
    }
    forall p: nat, m: nat ensures EntryOk(n', p, m) && UpOnly(n', up, p, m) {
      UnlinkedEntry(n, up, d, k, p, m);
    }
  }

  // ---------------------------------------------------------------- freeing an inode

  /** An inode without links can be freed: no linked directory names it. */
  lemma FreedOk(n: seq<Node>, up: map<nat, (nat, nat)>, i: nat)
    requires TreeOk(n, up) && i < |n| && n[i].nlink == 0
    ensures TreeOk(n[i := FreeNode], up)
  {
    var n' := n[i := FreeNode];
    forall p: nat, m: nat, j: nat ensures Names(n', p, m, j) <==> Names(n, p, m, j) {
    }
    forall j: nat ensures NodeOk(n', j) {
      assert NodeOk(n, j);
      assert LinksTo(n', j) == LinksTo(n, j);
    }
    forall c: nat ensures DirOk(n', c) && UpOk(n', up, c) {
      assert DirOk(n, c) && UpOk(n, up, c);
    }
    forall p: nat, m: nat ensures EntryOk(n', p, m) && UpOnly(n', up, p, m) {
      assert EntryOk(n, p, m) && UpOnly(n, up, p, m);
      if IsLinked(n, p) && m < |n[p].entries| && n[p].entries[m].inum != 0 {
        NamedIsLinked(n, up, p, m);
      }
    }
  }
}
