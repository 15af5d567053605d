/**
 What becomes of a removed directory that is still someone's current directory: mkdir a, mkdir
 a/b, cd a/b, rmdir a/b, rmdir a.  Its entry .. names a freed inode then, and a file made in it
 has a link that no linked directory holds.
 */
module Removed {
  import opened Wrappers
  import opened Blocks
  import Inodes
  import opened Dirs
  import opened Paths
  import opened Links
  import opened Naming

  const A: seq<Byte> := [97]
  const B: seq<Byte> := [98]

  // the path ../.
  const UPWARD: seq<Byte> := [46, 46, 47, 46]

  lemma OneComponent(name: seq<Byte>)
    requires 0 < |name| <= DIRSIZ && SLASH !in name
    ensures Components(name) == [name]
  {
    UpToSlashEnds(name, |name|);
    assert name[..|name|] == name;
    SplitFirst(name, |name|);
    NoComponents();
  }

  lemma UpwardComponents()
    ensures Components(UPWARD) == [DOTDOT, DOT]
  {
    assert UPWARD[..2] == DOTDOT && UPWARD[2..] == [47, 46] && UPWARD[2..][1..] == DOT;
    UpToSlashEnds(UPWARD, 2);
    SplitFirst(UPWARD, 2);
    SplitSlash(UPWARD[2..]);
    OneComponent(DOT);
  }

  // ---------------------------------------------------------------- the trees on the way

  function Root(nlink: nat, rest: seq<Dirent>): Node {
    Node(Inodes.T_DIR, nlink, [Dirent(ROOT, DOT), Dirent(ROOT, DOTDOT)] + rest)
  }

  // a, in the root, with inode 2, and b, in a, with inode 3
  function NodeA(nlink: nat, rest: seq<Dirent>): Node {
    Node(Inodes.T_DIR, nlink, [Dirent(2, DOT), Dirent(ROOT, DOTDOT)] + rest)
  }

  function NodeB(nlink: nat): Node {
    Node(Inodes.T_DIR, nlink, [Dirent(3, DOT), Dirent(2, DOTDOT)])
  }

  const Empty: seq<Node> := [FreeNode, Root(1, []), FreeNode, FreeNode]
  const WithA: seq<Node> := [FreeNode, Root(2, [Dirent(2, A)]), NodeA(1, []), FreeNode]
  const WithB: seq<Node> := [FreeNode, Root(2, [Dirent(2, A)]), NodeA(2, [Dirent(3, B)]), NodeB(1)]
  const WithoutB: seq<Node> := [FreeNode, Root(2, [Dirent(2, A)]), NodeA(1, [Dirent(0, [])]), NodeB(0)]
  const WithoutA: seq<Node> := [FreeNode, Root(1, [Dirent(0, [])]), FreeNode, NodeB(0)]

  lemma MakeA()
    ensures Resolve(Empty, A, ROOT, true) == At(ROOT, A) && Find(Empty[ROOT].entries, A) == None
    ensures FreeSlot(Empty[ROOT].entries) == 2 && Created(Empty, ROOT, 2, Inodes.T_DIR, A) == WithA
  {
    OneComponent(A);
    assert Find(Empty[ROOT].entries, A) == None;
    assert FreeSlot(Empty[ROOT].entries) == 2;
    assert Link(Empty[ROOT].entries, Dirent(2, A)) == WithA[ROOT].entries;
    assert NewNode(ROOT, 2, Inodes.T_DIR) == WithA[2];
  }

  lemma MakeB()
    ensures Resolve(WithA, B, 2, true) == At(2, B) && Find(WithA[2].entries, B) == None
    ensures FreeSlot(WithA[2].entries) == 2 && Created(WithA, 2, 3, Inodes.T_DIR, B) == WithB
  {
    OneComponent(B);
    assert Find(WithA[2].entries, B) == None;
    assert FreeSlot(WithA[2].entries) == 2;
    assert Link(WithA[2].entries, Dirent(3, B)) == WithB[2].entries;
    assert NewNode(2, 3, Inodes.T_DIR) == WithB[3];
  }

  lemma RemoveB()
    ensures Resolve(WithB, B, 2, true) == At(2, B) && Find(WithB[2].entries, B) == Some(2)
    ensures CanRemove(WithB, At(2, B)) && Removed(WithB, [0, 0, 0, 1], 2, B) == WithoutB
  {
    OneComponent(B);
    assert WithB[2].entries[2] == Dirent(3, B);
    assert Find(WithB[2].entries, B) == Some(2);
    assert Unlink(WithB[2].entries, 2) == WithoutB[2].entries;
  }

  lemma RemoveA()
    ensures Resolve(WithoutB, A, ROOT, true) == At(ROOT, A) && Find(WithoutB[ROOT].entries, A) == Some(2)
    ensures CanRemove(WithoutB, At(ROOT, A)) && Removed(WithoutB, [0, 0, 0, 1], ROOT, A) == WithoutA
  {
    OneComponent(A);
    assert WithoutB[ROOT].entries[2] == Dirent(2, A);
    assert Find(WithoutB[ROOT].entries, A) == Some(2);
    assert Unlink(WithoutB[ROOT].entries, 2) == WithoutA[ROOT].entries;
  }

  // ---------------------------------------------------------------- the calls

  // mkdir a, mkdir a/b, and b stays in use
  method MakeBoth() returns (t: FileTree)
    ensures fresh(t) && t.Valid() && t.nodes == WithB && t.ref == [0, 0, 0, 1]
  {
    t := new FileTree(4);
    assert Root(1, []).entries == [Dirent(ROOT, DOT), Dirent(ROOT, DOTDOT)];
    assert t.nodes == Empty;
    MakeA();
    var a := t.Create(A, Inodes.T_DIR, ROOT);
    assert Empty[2].kind == 0;
    assert a == Got(2);
    var freed := t.Iput(2);
    MakeB();
    assert WithA[3].kind == 0;
    var b := t.Create(B, Inodes.T_DIR, 2);
    assert b == Got(3);
  }

  /** Some sequence of calls removes a directory and its parent, while it is a current directory. */
  method MakeRemoved() returns (t: FileTree)
    ensures fresh(t) && t.Valid() && t.nodes == WithoutA && t.ref == [0, 0, 0, 1]
  {
    t := MakeBoth();
    RemoveB();
    var r := t.SysUnlink(B, 2);
    RemoveA();
    r := t.SysUnlink(A, ROOT);
  }

  /** A path from there meets the panic for a freed inode, in a tree whose counts are right. */
  method Stops() returns (t: FileTree)
    ensures t.Valid() && |t.nodes| == 4 && t.nodes[3].kind == Inodes.T_DIR && t.ref == [0, 0, 0, 1]
    ensures Resolve(t.nodes, UPWARD, 3, false) == Stop
  {
    t := MakeRemoved();
    UpwardComponents();
    FindIs(WithoutA[3].entries, DOTDOT, 1);
    assert [DOTDOT, DOT][1..] == [DOT];
  }

  /** A file made there has a wrong link count. */
  method Miscounts() returns (t: FileTree, i: nat)
    ensures i < |t.nodes| && t.nodes[i].kind == Inodes.T_FILE && !NodeOk(t.nodes, i)
  {
    t := MakeRemoved();
    ghost var up := t.up;
    OneComponent(A);
    assert Find(WithoutA[3].entries, A) == None && FreeSlot(WithoutA[3].entries) == 2;
    assert WithoutA[2].kind == 0 && Resolve(WithoutA, A, 3, true) == At(3, A);
    assert Binding(WithoutA[3].entries, A) == None;
    var r := t.Create(A, Inodes.T_FILE, 3);
    assert r == Got(2);
    i := 2;
    CreatedLinks(WithoutA, up, 3, 2, Inodes.T_FILE, A, 2);
    assert NodeOk(WithoutA, 2);
  }

  /** And so does create on its entry .., which names the freed inode: no result of create but the panic. */
  method StopsCreate() returns (t: FileTree, r: CreateResult)
    ensures r == CreateStopped
  {
    t := MakeRemoved();
    OneComponent(DOTDOT);
    FindIs(WithoutA[3].entries, DOTDOT, 1);
    assert Resolve(WithoutA, DOTDOT, 3, true) == At(3, DOTDOT) && LeadsToFree(WithoutA, At(3, DOTDOT));
    r := t.Create(DOTDOT, Inodes.T_FILE, 3);
  }
}
