// namex and the system calls that change names: link, unlink and create, with the references that they
// take and give back.  Sleep locks and the log are left out; false and Stopped stand for a panic.
module Naming {
  import opened Wrappers
  import opened Blocks
  import Inodes
  import opened Dirs
  import opened Paths
  import opened Links

  const MAX_ENTRIES: nat := 4480   // MAXFILE * BSIZE / sizeof(struct dirent)

  datatype Outcome = At(inum: nat, name: seq<Byte>) | NoEntry | Stop

  datatype CallResult = Done | Failed | Stopped

  datatype CreateResult = Got(inum: nat) | CreateFailed | CreateStopped

  /** The fold of directory lookup over the components, or over all but the last. */
  function Walk(n: seq<Node>, ip: nat, comps: seq<seq<Byte>>, parent: bool): Outcome
    decreases |comps|
  {
    if comps == [] then (if parent then NoEntry else At(ip, []))
    else if ip >= |n| || n[ip].kind == 0 then Stop
    else if n[ip].kind != Inodes.T_DIR then NoEntry
    else if parent && |comps| == 1 then At(ip, comps[0])
    else
      match Binding(n[ip].entries, comps[0])
      case None => NoEntry
      case Some(next) => Walk(n, next, comps[1..], parent)
  }

  function Start(path: seq<Byte>, cwd: nat): nat {
    if path != [] && path[0] == SLASH then ROOT else cwd
  }

  /** What a path leads to. */
  function Resolve(n: seq<Node>, path: seq<Byte>, cwd: nat, parent: bool): Outcome {
    Walk(n, Start(path, cwd), Components(path), parent)
  }

  // the entries of any directory lead to inodes
  ghost predicate LeadsAt(n: seq<Node>, d: nat, k: nat) {
    d < |n| && k < |n[d].entries| ==> n[d].entries[k].inum < |n|
  }

  ghost predicate InRange(n: seq<Node>) {
    ROOT < |n| && forall d: nat, k: nat {:trigger LeadsAt(n, d, k)} :: LeadsAt(n, d, k)
  }

  lemma TreeInRange(n: seq<Node>, up: map<nat, (nat, nat)>)
    requires TreeOk(n, up)
    ensures InRange(n)
  {
    forall d: nat, k: nat ensures LeadsAt(n, d, k) {
      assert DirOk(n, d) && EntryOk(n, d, k) && NodeOk(n, d);
    }
  }

  // the parent that a path leads to is a directory, and the last component is a cut name
  lemma {:induction false} WalkParent(n: seq<Node>, ip: nat, comps: seq<seq<Byte>>)
    requires Walk(n, ip, comps, true).At?
    ensures IsDir(n, Walk(n, ip, comps, true).inum) && Walk(n, ip, comps, true).name in comps
    decreases |comps|
  {
    if |comps| > 1 {
      WalkParent(n, Binding(n[ip].entries, comps[0]).value, comps[1..]);
    }
  }

  lemma {:induction false} ComponentsCut(parts: seq<seq<Byte>>, name: seq<Byte>)
    requires name in NonEmpty(parts)
    ensures |name| <= DIRSIZ && name != []
  {
    if name in NonEmpty(parts[1..]) {
      ComponentsCut(parts[1..], name);
    }
  }

  // a change of link counts does not change where paths lead
  lemma {:induction false} WalkCounts(n: seq<Node>, i: nat, nlink: nat, ip: nat, comps: seq<seq<Byte>>, parent: bool)
    requires i < |n|
    ensures Walk(Counted(n, i, nlink), ip, comps, parent) == Walk(n, ip, comps, parent)
    decreases |comps|
  {
    if comps != [] && ip < |n| && n[ip].kind == Inodes.T_DIR {
      var next := Binding(n[ip].entries, comps[0]);
      if next.Some? { WalkCounts(n, i, nlink, next.value, comps[1..], parent); }
    }
  }

  lemma ResolveParent(n: seq<Node>, path: seq<Byte>, cwd: nat)
    requires Resolve(n, path, cwd, true).At?
    ensures IsDir(n, Resolve(n, path, cwd, true).inum)
    ensures Cut(Resolve(n, path, cwd, true).name) == Resolve(n, path, cwd, true).name
  {
    WalkParent(n, Start(path, cwd), Components(path));
    ComponentsCut(Split(path), Resolve(n, path, cwd, true).name);
  }

  // ---------------------------------------------------------------- removed directories

  // the first free inode
  ghost predicate Lowest(n: seq<Node>, i: nat) {
    0 < i < |n| && n[i].kind == 0 && forall j :: 1 <= j < i ==> n[j].kind != 0
  }

  // an inode that some linked directory names
  ghost predicate Named(n: seq<Node>, i: nat) {
    0 < i < |n| && n[i].kind != 0 && n[i].nlink > 0
  }

  /** The path starts at the root or at a directory that has not been removed. */
  ghost predicate Anchored(n: seq<Node>, path: seq<Byte>, cwd: nat) {
    Named(n, Start(path, cwd))
  }

  // from a named inode a path leads to named inodes only
  lemma {:induction false} WalkNamed(n: seq<Node>, up: map<nat, (nat, nat)>, ip: nat, comps: seq<seq<Byte>>,
                                     parent: bool)
    requires TreeOk(n, up) && Named(n, ip)
    ensures var r := Walk(n, ip, comps, parent); !r.Stop? && (r.At? ==> Named(n, r.inum))
    decreases |comps|
  {
    if comps != [] && n[ip].kind == Inodes.T_DIR && Find(n[ip].entries, comps[0]).Some? {
      NamedIsLinked(n, up, ip, Find(n[ip].entries, comps[0]).value);
      WalkNamed(n, up, Binding(n[ip].entries, comps[0]).value, comps[1..], parent);
    }
  }

  // chain[m] is a removed directory whose entry .. names chain[m + 1]
  ghost predicate UpAt(n: seq<Node>, chain: seq<nat>, m: nat)
    requires m + 1 < |chain|
  {
    var d := chain[m];
    IsDir(n, d) && n[d].nlink == 0 && |n[d].entries| >= 2 && n[d].entries[1].inum == chain[m + 1]
  }

  /** Along the entries .. of removed directories one comes from ip to a freed inode. */
  ghost predicate Dangles(n: seq<Node>, ip: nat, chain: seq<nat>) {
    && chain != [] && chain[0] == ip
    && (forall m: nat {:trigger UpAt(n, chain, m)} :: m + 1 < |chain| ==> UpAt(n, chain, m))
    && var last := chain[|chain| - 1]; last >= |n| || n[last].kind == 0
  }

  lemma DanglesMore(n: seq<Node>, ip: nat, chain: seq<nat>)
    requires IsDir(n, ip) && n[ip].nlink == 0 && |n[ip].entries| >= 2 && Dangles(n, n[ip].entries[1].inum, chain)
    ensures Dangles(n, ip, [ip] + chain)
  {
    forall m: nat | m + 1 < |chain| + 1 ensures UpAt(n, [ip] + chain, m) {
      if m > 0 { assert UpAt(n, chain, m - 1); }
    }
  }

  lemma DanglesLess(n: seq<Node>, ip: nat, chain: seq<nat>)
    requires Dangles(n, ip, chain) && |chain| > 1
    ensures UpAt(n, chain, 0) && Dangles(n, chain[1], chain[1..])
  {
    forall m: nat | m + 1 < |chain| - 1 ensures UpAt(n, chain[1..], m) {
      assert UpAt(n, chain, m + 1);
    }
  }

  ghost predicate StopsOn(n: seq<Node>, ip: nat, comps: seq<seq<Byte>>, parent: bool) {
    Walk(n, ip, comps, parent).Stop?
  }

  lemma {:induction false} StopDangles(n: seq<Node>, up: map<nat, (nat, nat)>, ip: nat, comps: seq<seq<Byte>>,
                                       parent: bool)
    returns (chain: seq<nat>)
    requires TreeOk(n, up) && Walk(n, ip, comps, parent).Stop?
    ensures Dangles(n, ip, chain)
    decreases |comps|
  {
    if ip >= |n| || n[ip].kind == 0 {
      return [ip];
    }
    assert DirOk(n, ip);
    if n[ip].nlink > 0 {
      WalkNamed(n, up, ip, comps, parent);
    }
    var at := Find(n[ip].entries, comps[0]).value;
    chain := StopDangles(n, up, n[ip].entries[at].inum, comps[1..], parent);
    if at == 1 {
      DanglesMore(n, ip, chain);
      chain := [ip] + chain;
    }
  }

  // .. k times, and . once more
  function Upwards(k: nat): seq<seq<Byte>> {
    if k == 0 then [DOT] else [DOTDOT] + Upwards(k - 1)
  }

  lemma {:induction false} DangleStops(n: seq<Node>, up: map<nat, (nat, nat)>, ip: nat, chain: seq<nat>)
    requires TreeOk(n, up) && Dangles(n, ip, chain)
    ensures Walk(n, ip, Upwards(|chain| - 1), false).Stop?
    decreases |chain|
  {
    if |chain| > 1 {
      DanglesLess(n, ip, chain);
      assert DirOk(n, ip);
      FindIs(n[ip].entries, DOTDOT, 1);
      DangleStops(n, up, chain[1], chain[1..]);
      assert Upwards(|chain| - 1)[1..] == Upwards(|chain| - 2);
    }
  }

  /**
   Some path from ip meets the panic for a freed inode exactly if the entries .. lead from ip,
   through removed directories, to a freed inode.
   */
  lemma StopsExactly(n: seq<Node>, up: map<nat, (nat, nat)>, ip: nat)
    requires TreeOk(n, up)
    ensures (exists comps, parent :: StopsOn(n, ip, comps, parent)) <==> exists chain :: Dangles(n, ip, chain)
  {
    if comps, parent :| StopsOn(n, ip, comps, parent) {
      var chain := StopDangles(n, up, ip, comps, parent);
    }
    if chain :| Dangles(n, ip, chain) {
      DangleStops(n, up, ip, chain);
      assert StopsOn(n, ip, Upwards(|chain| - 1), false);
    }
  }

  // link counts do not matter for where entries lead
  lemma CountedInRange(n: seq<Node>, i: nat, nlink: nat)
    requires InRange(n) && i < |n|
    ensures InRange(Counted(n, i, nlink))
  {
    forall d: nat, k: nat ensures LeadsAt(Counted(n, i, nlink), d, k) {
      assert LeadsAt(n, d, k);
    }
  }

  // more links, or entries, or references do no harm
  ghost predicate NoLess(n: seq<Node>, n': seq<Node>) {
    |n'| == |n| && forall i: nat :: i < |n| ==> n'[i].kind == n[i].kind && n'[i].nlink >= n[i].nlink
  }

  lemma RefsMore(n: seq<Node>, n': seq<Node>, ref: seq<nat>, ref': seq<nat>)
    requires RefsOk(n, ref) && NoLess(n, n') && |ref'| == |ref| && forall i: nat :: i < |ref| ==> ref'[i] >= ref[i]
    ensures RefsOk(n', ref')
  {
    forall i: nat ensures RefOk(n', ref', i) {
      assert RefOk(n, ref, i);
    }
  }

  // one link more for a file: paths lead where they led
  lemma CountedFacts(n: seq<Node>, up: map<nat, (nat, nat)>, i: nat, ref0: seq<nat>, ref: seq<nat>, ip: nat,
                     comps: seq<seq<Byte>>)
    requires TreeOk(n, up) && i < |n| && RefsOk(n, ref0) && ref == ref0[i := ref0[i] + 1]
    ensures var n' := Counted(n, i, n[i].nlink + 1);
            InRange(n') && RefsOk(n', ref) && NoLess(n, n') && Walk(n', ip, comps, true) == Walk(n, ip, comps, true)
  {
    TreeInRange(n, up);
    CountedInRange(n, i, n[i].nlink + 1);
    RefsMore(n, Counted(n, i, n[i].nlink + 1), ref0, ref);
    WalkCounts(n, i, n[i].nlink + 1, ip, comps, true);
  }

  // what a path may lead to: a file; a freed inode; a place for a new name; a directory that is full
  ghost predicate IsFile(n: seq<Node>, a: Outcome) {
    a.At? && a.inum < |n| && n[a.inum].kind != 0 && n[a.inum].kind != Inodes.T_DIR
  }

  ghost predicate IsGone(n: seq<Node>, a: Outcome) {
    a.Stop? || (a.At? && (a.inum >= |n| || n[a.inum].kind == 0))
  }

  ghost predicate IsFree(n: seq<Node>, b: Outcome) {
    b.At? && b.inum < |n| && Find(n[b.inum].entries, b.name) == None
  }

  ghost predicate IsFull(n: seq<Node>, b: Outcome) {
    b.At? && b.inum < |n| && FreeSlot(n[b.inum].entries) >= MAX_ENTRIES
  }

  /** A path from the root, or from a directory that has not been removed, meets no freed inode. */
  lemma ResolveNamed(n: seq<Node>, up: map<nat, (nat, nat)>, path: seq<Byte>, cwd: nat, parent: bool)
    requires TreeOk(n, up) && Anchored(n, path, cwd)
    ensures var r := Resolve(n, path, cwd, parent);
            !r.Stop? && (r.At? ==> Named(n, r.inum) && (parent ==> IsLinked(n, r.inum)))
  {
    WalkNamed(n, up, Start(path, cwd), Components(path), parent);
    if parent && Resolve(n, path, cwd, true).At? { ResolveParent(n, path, cwd); }
  }

  // an entry is there, and the inode it names is free, or of some kind
  ghost predicate LeadsToKind(n: seq<Node>, b: Outcome, kind: nat) {
    && b.At? && b.inum < |n|
    && match Binding(n[b.inum].entries, b.name)
       case Some(i) => i < |n| && n[i].kind == kind
       case None => false
  }

  ghost predicate LeadsToFree(n: seq<Node>, b: Outcome) {
    LeadsToKind(n, b, 0)
  }

  // no inode is free
  ghost predicate NoneLeft(n: seq<Node>) {
    forall i :: 1 <= i < |n| ==> n[i].kind != 0
  }

  // what that means for create: what is found there is in use
  lemma CreateAnchored(n: seq<Node>, up: map<nat, (nat, nat)>, path: seq<Byte>, cwd: nat)
    requires TreeOk(n, up) && Anchored(n, path, cwd)
    ensures var b := Resolve(n, path, cwd, true); !b.Stop? && !LeadsToFree(n, b) && (b.At? ==> IsLinked(n, b.inum))
  {
    ResolveNamed(n, up, path, cwd, true);
    var b := Resolve(n, path, cwd, true);
    if b.At? && Find(n[b.inum].entries, b.name).Some? {
      NamedIsLinked(n, up, b.inum, Find(n[b.inum].entries, b.name).value);
    }
  }

  // what that means for sys_link
  lemma LinkAnchored(n: seq<Node>, up: map<nat, (nat, nat)>, oldPath: seq<Byte>, newPath: seq<Byte>, cwd: nat)
    requires TreeOk(n, up)
    ensures Anchored(n, oldPath, cwd) ==> !IsGone(n, Resolve(n, oldPath, cwd, false))
    ensures var b := Resolve(n, newPath, cwd, true);
            Anchored(n, newPath, cwd) ==> !b.Stop? && (b.At? ==> IsLinked(n, b.inum))
  {
    if Anchored(n, oldPath, cwd) { ResolveNamed(n, up, oldPath, cwd, false); }
    if Anchored(n, newPath, cwd) { ResolveNamed(n, up, newPath, cwd, true); }
  }

  // unlink's conditions
  ghost predicate CanRemove(n: seq<Node>, b: Outcome) {
    && b.At? && !IsDots(b.name) && b.inum < |n| && Find(n[b.inum].entries, b.name).Some?
    && var i := n[b.inum].entries[Find(n[b.inum].entries, b.name).value].inum;
       i < |n| && (n[i].kind == Inodes.T_DIR ==> DotsOnly(n[i].entries))
  }

  // an inode that has lost its links and has no references is freed
  function Collected(n: seq<Node>, ref: seq<nat>, i: nat): seq<Node>
    requires i < |n| == |ref|
  {
    if n[i].kind != 0 && n[i].nlink == 0 && ref[i] == 0 then n[i := FreeNode] else n
  }

  /** unlink's result: the entry of that name is gone, and what it named if nothing else keeps it. */
  ghost function Removed(n: seq<Node>, ref: seq<nat>, d: nat, name: seq<Byte>): seq<Node>
    requires CanRemove(n, At(d, name)) && |ref| == |n|
  {
    var k := Find(n[d].entries, name).value;
    Collected(Unlinked(n, d, k), ref, n[d].entries[k].inum)
  }

  lemma CollectedOk(n: seq<Node>, up: map<nat, (nat, nat)>, ref: seq<nat>, i: nat)
    requires TreeOk(n, up) && i < |n| == |ref|
    requires forall j: nat {:trigger RefOk(n, ref, j)} :: j == i || RefOk(n, ref, j)
    ensures TreeOk(Collected(n, ref, i), up) && RefsOk(Collected(n, ref, i), ref)
  {
    var n' := Collected(n, ref, i);
    if n' != n { FreedOk(n, up, i); }
    forall j: nat ensures RefOk(n', ref, j) {
      assert j == i || RefOk(n, ref, j);
    }
  }

  // a name other than the dots is found in linked directories only
  lemma FoundInLinked(n: seq<Node>, up: map<nat, (nat, nat)>, d: nat, name: seq<Byte>)
    requires TreeOk(n, up) && IsDir(n, d) && !IsDots(name) && Find(n[d].entries, name).Some?
    ensures var k := Find(n[d].entries, name).value;
            && IsLinked(n, d) && 2 <= k && 0 < n[d].entries[k].inum < |n|
            && n[n[d].entries[k].inum].kind != 0 && n[n[d].entries[k].inum].nlink > 0
  {
    var k := Find(n[d].entries, name).value;
    assert DirOk(n, d);
    NamedIsLinked(n, up, d, k);
  }

  lemma EnteredInRange(n: seq<Node>, d: nat, e: Dirent)
    requires InRange(n) && d < |n| && e.inum < |n|
    ensures InRange(Entered(n, d, e))
  {
    forall p: nat, k: nat ensures LeadsAt(Entered(n, d, e), p, k) {
      assert LeadsAt(n, p, k);
    }
  }

  lemma MadeInRange(n: seq<Node>, d: nat, i: nat, kind: nat)
    requires InRange(n) && d < |n| && i < |n|
    ensures InRange(Made(n, d, i, kind))
  {
    forall p: nat, k: nat ensures LeadsAt(Made(n, d, i, kind), p, k) {
      assert LeadsAt(n, p, k);
    }
  }

  lemma NewInRange(n: seq<Node>, i: nat, kind: nat)
    requires InRange(n) && i < |n|
    ensures InRange(n[i := Node(kind, 1, [])])
  {
    var n' := n[i := Node(kind, 1, [])];
    forall p: nat, k: nat ensures LeadsAt(n', p, k) {
      assert LeadsAt(n, p, k);
    }
  }

  class FileTree {
    var nodes: seq<Node>
    var ref: seq<nat>
    ghost var up: map<nat, (nat, nat)>

    /** Link counts are right, and an inode without links is in use only while it is referred to. */
    ghost predicate Valid()
      reads this
    {
      TreeOk(nodes, up) && RefsOk(nodes, ref) && |nodes| <= 0x1_0000
    }

    /** The tree that mkfs makes when it is given no files: a root directory that is its own parent, with one link. */
    constructor (ninodes: nat)
      requires 2 <= ninodes <= 0x1_0000
      ensures Valid() && |nodes| == ninodes && ref == seq(ninodes, _ => 0)
      ensures nodes[ROOT] == Node(Inodes.T_DIR, 1, [Dirent(ROOT, DOT), Dirent(ROOT, DOTDOT)])
      ensures forall i :: 0 <= i < ninodes && i != ROOT ==> nodes[i] == FreeNode
    {
      var root := Node(Inodes.T_DIR, 1, [Dirent(ROOT, DOT), Dirent(ROOT, DOTDOT)]);
      nodes := seq(ninodes, i => if i == ROOT then root else FreeNode);
      ref, up := seq(ninodes, _ => 0), map[];
      new;
      forall i: nat ensures NodeOk(nodes, i) {
        assert DOT != DOTDOT;
        assert i == ROOT ==> Names(nodes, ROOT, 1, ROOT);
        assert i > 0 ==> LinksTo(nodes, i) == if i == ROOT then {(ROOT, 1)} else {};
      }
    }

    method Iget(i: nat)
      requires i < |ref| == |nodes|
      modifies this`ref
      ensures ref == old(ref)[i := old(ref[i]) + 1]
    {
      ref := ref[i := ref[i] + 1];
    }

    /** iput: the last reference to an inode without links frees it. */
    method Iput(i: nat) returns (freed: bool)
      requires i < |ref| == |nodes| && ref[i] > 0
      modifies this`ref, this`nodes
      ensures ref == old(ref)[i := old(ref[i]) - 1]
      ensures freed <==> old(nodes[i].kind) != 0 && old(nodes[i].nlink) == 0 && old(ref[i]) == 1
      ensures nodes == if freed then old(nodes)[i := FreeNode] else old(nodes)
    {
      freed := nodes[i].kind != 0 && nodes[i].nlink == 0 && ref[i] == 1;
      if freed {
        nodes := nodes[i := FreeNode];
      }
      ref := ref[i := ref[i] - 1];
    }

    // a reference taken since ref0 is given back; whoever else has one keeps the inode alive
    method Drop(ip: nat, ghost ref0: seq<nat>)
      requires RefsOk(nodes, ref0) && ip < |ref0| && ref == ref0[ip := ref0[ip] + 1]
      modifies this`ref, this`nodes
      ensures nodes == old(nodes) && ref == ref0
    {
      assert RefOk(nodes, ref0, ip);
      var freed := Iput(ip);
    }

    // dirlookup in ip, and on to what it finds
    method Descend(ip: nat, name: seq<Byte>, ghost ref0: seq<nat>) returns (next: Option<nat>)
      requires RefsOk(nodes, ref0) && InRange(nodes) && ip < |ref0| && ref == ref0[ip := ref0[ip] + 1]
      modifies this`ref, this`nodes
      ensures nodes == old(nodes) && next == Binding(nodes[ip].entries, name) && (next.Some? ==> next.value < |nodes|)
      ensures ref == if next.None? then ref0 else ref0[next.value := ref0[next.value] + 1]
    {
      var k := Find(nodes[ip].entries, name);
      if k.None? {
        Drop(ip, ref0);
        return None;
      }
      assert LeadsAt(nodes, ip, k.value);
      var i := nodes[ip].entries[k.value].inum;
      Iget(i);
      assert RefOk(nodes, ref0, ip);
      var freed := Iput(ip);
      return Some(i);
    }

    /** namex: where the path leads, with one more reference to it and to nothing else. */
    method Namex(path: seq<Byte>, parent: bool, cwd: nat) returns (r: Outcome)
      requires RefsOk(nodes, ref) && InRange(nodes) && cwd < |nodes|
      modifies this`ref, this`nodes
      ensures nodes == old(nodes) && r == Resolve(nodes, path, cwd, parent)
      ensures r.At? ==> r.inum < |nodes| && ref == old(ref)[r.inum := old(ref)[r.inum] + 1]
      ensures r.NoEntry? ==> ref == old(ref)
    {
      ghost var n, ref0 := nodes, ref;
      var ip: nat := Start(path, cwd);
      Iget(ip);
      var rest := path;
      while true
        invariant nodes == n && ip < |n| == |ref0| && ref == ref0[ip := ref0[ip] + 1]
        invariant Walk(n, ip, Components(rest), parent) == Resolve(n, path, cwd, parent)
        decreases |rest|
      {
        var elem := Skipelem(rest);
        if elem.None? {
          if parent {
            Drop(ip, ref0);
            return NoEntry;
          }
          return At(ip, []);
        }
        var (name, tail) := elem.value;
        assert Components(rest)[1..] == Components(tail) && Components(rest)[0] == name;
        if nodes[ip].kind == 0 {
          return Stop;
        }
        if nodes[ip].kind != Inodes.T_DIR {
          Drop(ip, ref0);
          return NoEntry;
        }
        if parent && tail == [] {
          return At(ip, name);
        }
        var next := Descend(ip, name, ref0);
        if next.None? {
          return NoEntry;
        }
        ip, rest := next.value, tail;
      }
    }
  
    // dirlink in dp
    method DirLink(dp: nat, name: seq<Byte>, inum: nat) returns (r: CallResult)
      requires RefsOk(nodes, ref) && InRange(nodes) && IsDir(nodes, dp)
      modifies this`ref, this`nodes
      ensures r.Failed? <==> Find(old(nodes)[dp].entries, Cut(name)).Some?
      ensures r.Stopped? <==> Find(old(nodes)[dp].entries, Cut(name)).None?
                              && FreeSlot(old(nodes)[dp].entries) >= MAX_ENTRIES
      ensures nodes == if r.Done? then Entered(old(nodes), dp, Dirent(inum % 0x1_0000, Cut(name))) else old(nodes)
      ensures ref == old(ref)
    {
      var k := Find(nodes[dp].entries, Cut(name));
      if k.Some? {
        assert LeadsAt(nodes, dp, k.value);
        ghost var ref0 := ref;
        Iget(nodes[dp].entries[k.value].inum);
        Drop(nodes[dp].entries[k.value].inum, ref0);
        return Failed;
      }
      if FreeSlot(nodes[dp].entries) >= MAX_ENTRIES {
        return Stopped;
      }
      nodes := Entered(nodes, dp, Dirent(inum % 0x1_0000, Cut(name)));
      return Done;
    }

    // dirlink in dp, and dp is let go
    method EnterIn(dp: nat, name: seq<Byte>, inum: nat, ghost n: seq<Node>, ghost ref1: seq<nat>)
      returns (r: CallResult)
      requires nodes == n && RefsOk(n, ref1) && InRange(n) && IsDir(n, dp) && ref == ref1[dp := ref1[dp] + 1]
      requires Cut(name) == name && inum < |n| <= 0x1_0000
      modifies this`ref, this`nodes
      ensures r.Failed? <==> Find(n[dp].entries, name).Some?
      ensures r.Stopped? <==> Find(n[dp].entries, name).None? && FreeSlot(n[dp].entries) >= MAX_ENTRIES
      ensures nodes == if r.Done? then Entered(n, dp, Dirent(inum, name)) else n
      ensures !r.Stopped? ==> ref == ref1
    {
      RefsMore(n, n, ref1, ref);
      r := DirLink(dp, name, inum);
      if !r.Stopped? {
        RefsMore(n, nodes, ref1, ref1);
        Drop(dp, ref1);
      }
    }

    // the second half of sys_link: n and ref0 as they were at first, one link more for ip already
    method EnterLink(newPath: seq<Byte>, cwd: nat, ip: nat, ghost n: seq<Node>, ghost ref0: seq<nat>)
      returns (r: CallResult)
      requires TreeOk(n, up) && RefsOk(n, ref0) && |n| <= 0x1_0000 && 0 < ip < |n| && n[ip].kind != 0
      requires n[ip].kind != Inodes.T_DIR && cwd < |n|
      requires nodes == Counted(n, ip, n[ip].nlink + 1) && ref == ref0[ip := ref0[ip] + 1]
      modifies this`ref, this`nodes
      ensures !r.Stopped? ==> ref == old(ref)
      ensures var b := Resolve(n, newPath, cwd, true);
              && (r.Done? ==> IsFree(n, b) && !IsFull(n, b) && CanLink(n, up, b.inum, ip, b.name)
                              && nodes == FileLinked(n, b.inum, ip, b.name))
              && (r.Failed? ==> nodes == old(nodes) && !b.Stop? && !IsFree(n, b))
              && (r.Stopped? ==> b.Stop? || (IsFree(n, b) && IsFull(n, b)))
    {
      CountedFacts(n, up, ip, ref0, ref, Start(newPath, cwd), Components(newPath));
      ghost var ref1 := ref;
      var b := Namex(newPath, true, cwd);
      if b.Stop? {
        return Stopped;
      }
      if b.NoEntry? {
        return Failed;
      }
      ResolveParent(n, newPath, cwd);
      r := EnterIn(b.inum, b.name, ip, nodes, ref1);
    }

    // the end of sys_link: ip is let go, after the link count has been put back if there was no link
    method LeaveLink(done: bool, ip: nat, ghost n: seq<Node>, ghost ref0: seq<nat>, ghost b: Outcome)
      requires TreeOk(n, up) && RefsOk(n, ref0) && |n| <= 0x1_0000 && ip < |n| && ref == ref0[ip := ref0[ip] + 1]
      requires done ==> b.At? && CanLink(n, up, b.inum, ip, b.name) && nodes == FileLinked(n, b.inum, ip, b.name)
      requires !done ==> nodes == Counted(n, ip, n[ip].nlink + 1)
      modifies this`ref, this`nodes
      ensures ref == ref0 && (!done ==> nodes == n && Valid())
      ensures done ==> nodes == old(nodes) && (Valid() <==> IsLinked(n, b.inum))
    {
      if !done {
        nodes := Counted(nodes, ip, nodes[ip].nlink - 1);
        assert nodes == n;
      } else {
        FileLinkedCounts(n, up, b.inum, ip, b.name);
        if IsLinked(n, b.inum) { FileLinkedOk(n, up, b.inum, ip, b.name); }
        RefsMore(n, nodes, ref0, ref0);
      }
      Drop(ip, ref0);
    }

    // sys_link, once the file is found: n and ref0 as they were before
    method LinkTo(newPath: seq<Byte>, cwd: nat, ip: nat, ghost n: seq<Node>, ghost ref0: seq<nat>)
      returns (r: CallResult)
      requires TreeOk(n, up) && RefsOk(n, ref0) && |n| <= 0x1_0000 && 0 < ip < |n| && n[ip].kind != 0
      requires n[ip].kind != Inodes.T_DIR && cwd < |n| && nodes == n && ref == ref0[ip := ref0[ip] + 1]
      modifies this`ref, this`nodes
      ensures !r.Stopped? ==> ref == ref0
      ensures var b := Resolve(n, newPath, cwd, true);
              && (r.Done? <==> IsFree(n, b) && !IsFull(n, b))
              && (r.Stopped? <==> b.Stop? || (IsFree(n, b) && IsFull(n, b)))
              && (r.Done? ==> nodes == FileLinked(n, b.inum, ip, b.name) && (Valid() <==> IsLinked(n, b.inum)))
              && (r.Failed? ==> nodes == n && Valid())
    {
      nodes := Counted(nodes, ip, nodes[ip].nlink + 1);
      r := EnterLink(newPath, cwd, ip, n, ref0);
      if !r.Stopped? {
        LeaveLink(r.Done?, ip, n, ref0, Resolve(n, newPath, cwd, true));
      }
    }

    // the first half of sys_link: what the old path leads to, if it is not a directory, with a reference
    method FindFile(path: seq<Byte>, cwd: nat) returns (r: CallResult, ip: nat)
      requires TreeOk(nodes, up) && RefsOk(nodes, ref) && cwd < |nodes|
      modifies this`ref, this`nodes
      ensures nodes == old(nodes)
      ensures var a := Resolve(nodes, path, cwd, false);
              && (r.Done? ==> IsFile(nodes, a) && ip == a.inum > 0 && ref == old(ref)[ip := old(ref)[ip] + 1])
              && (r.Failed? ==> !IsFile(nodes, a) && !IsGone(nodes, a) && ref == old(ref))
              && (r.Stopped? ==> IsGone(nodes, a))
    {
      ghost var ref0 := ref;
      TreeInRange(nodes, up);
      var a := Namex(path, false, cwd);
      if a.Stop? {
        return Stopped, 0;
      }
      if a.NoEntry? {
        return Failed, 0;
      }
      ip := a.inum;
      if nodes[ip].kind == 0 {
        return Stopped, 0;
      }
      if nodes[ip].kind == Inodes.T_DIR {
        Drop(ip, ref0);
        return Failed, 0;
      }
      r := Done;
    }

    /**
     sys_link: one more entry and one more link for a file; on failure, the count is as before.
     The counts stay right exactly if the directory of the new name has not been removed.
     */
    method SysLink(oldPath: seq<Byte>, newPath: seq<Byte>, cwd: nat) returns (r: CallResult)
      requires Valid() && cwd < |nodes|
      modifies this`ref, this`nodes
      ensures !r.Stopped? ==> ref == old(ref)
      ensures var n, a, b := old(nodes), Resolve(old(nodes), oldPath, cwd, false),
                Resolve(old(nodes), newPath, cwd, true);
              && (r.Done? <==> IsFile(n, a) && IsFree(n, b) && !IsFull(n, b))
              && (r.Stopped? <==> IsGone(n, a) || (IsFile(n, a) && (b.Stop? || (IsFree(n, b) && IsFull(n, b)))))
              && (r.Done? ==>
                    && nodes == FileLinked(n, b.inum, a.inum, b.name)
                    && (Valid() <==> IsLinked(n, b.inum)) && (Anchored(n, newPath, cwd) ==> Valid()))
              && (r.Failed? ==> nodes == n && Valid())
              && (r.Stopped? && Anchored(n, oldPath, cwd) && Anchored(n, newPath, cwd) ==> IsFull(n, b))
    {
      ghost var n, ref0 := nodes, ref;
      LinkAnchored(n, up, oldPath, newPath, cwd);
      var ip;
      r, ip := FindFile(oldPath, cwd);
      if r.Done? {
        r := LinkTo(newPath, cwd, ip, n, ref0);
      }
    }

    // the first half of unlink's work: the entry is cleared, and dp let go
    method ClearEntry(dp: nat, k: nat, ghost n: seq<Node>, ghost ref0: seq<nat>, ghost ip: nat)
      requires nodes == n && CanUnlink(n, up, dp, k) && ip == n[dp].entries[k].inum && RefsOk(n, ref0) && dp != ip
      requires ref == ref0[dp := ref0[dp] + 1][ip := ref0[ip] + 1]
      modifies this`ref, this`nodes
      ensures ref == ref0[ip := ref0[ip] + 1] && |nodes| == |n| && nodes[ip] == n[ip]
      ensures Unlinked(n, dp, k) == Counted(nodes, ip, Less(n[ip].nlink))
    {
      UnlinkFacts(n, up, dp, k);
      var dir := nodes[nodes[dp].entries[k].inum].kind == Inodes.T_DIR;
      nodes := Dropped(nodes, dp, k);
      if dir {
        nodes := Counted(nodes, dp, nodes[dp].nlink - 1);
      }
      var freed := Iput(dp);
    }

    // and the second: ip has one link less, and is freed if nothing is left of it
    method DropLink(ip: nat, dp: nat, k: nat, ghost n: seq<Node>, ghost ref0: seq<nat>)
      requires CanUnlink(n, up, dp, k) && ip == n[dp].entries[k].inum && RefsOk(n, ref0) && dp != ip
      requires ref == ref0[ip := ref0[ip] + 1] && |nodes| == |n| && nodes[ip] == n[ip]
      requires Unlinked(n, dp, k) == Counted(nodes, ip, Less(n[ip].nlink))
      modifies this`ref, this`nodes
      ensures ref == ref0 && nodes == Collected(Unlinked(n, dp, k), ref0, ip) && TreeOk(nodes, up) && RefsOk(nodes, ref)
    {
      UnlinkFacts(n, up, dp, k);
      UnlinkedOk(n, up, dp, k);
      nodes := Counted(nodes, ip, nodes[ip].nlink - 1);
      forall j: nat ensures j == ip || RefOk(nodes, ref0, j) { assert RefOk(n, ref0, j); }
      CollectedOk(nodes, up, ref0, ip);
      var freed := Iput(ip);
    }

    // unlink in the directory dp, which has been found with a reference to it
    method RemoveFrom(dp: nat, name: seq<Byte>, ghost n: seq<Node>, ghost ref0: seq<nat>) returns (r: CallResult)
      requires nodes == n && TreeOk(n, up) && RefsOk(n, ref0) && IsDir(n, dp) && ref == ref0[dp := ref0[dp] + 1]
      modifies this`ref, this`nodes
      ensures !r.Stopped? && ref == ref0 && TreeOk(nodes, up) && RefsOk(nodes, ref)
      ensures r.Done? <==> CanRemove(n, At(dp, name))
      ensures nodes == if r.Done? then Removed(n, ref0, dp, name) else n
    {
      if name == DOT || name == DOTDOT {
        Drop(dp, ref0);
        return Failed;
      }
      var k := Find(nodes[dp].entries, name);
      if k.None? {
        Drop(dp, ref0);
        return Failed;
      }
      FoundInLinked(n, up, dp, name);
      var ip := nodes[dp].entries[k.value].inum;
      ghost var ref1 := ref;
      Iget(ip);
      if nodes[ip].kind == Inodes.T_DIR && !DotsOnly(nodes[ip].entries) {
        RefsMore(n, n, ref0, ref1);
        Drop(ip, ref1);
        Drop(dp, ref0);
        return Failed;
      }
      UnlinkFacts(n, up, dp, k.value);
      ClearEntry(dp, k.value, n, ref0, ip);
      DropLink(ip, dp, k.value, n, ref0);
      return Done;
    }

    /**
     sys_unlink: the entry and a link are gone, and the inode too if that was its last link and nobody
     refers to it.  The panic for an inode without links is never met.
     */
    method SysUnlink(path: seq<Byte>, cwd: nat) returns (r: CallResult)
      requires Valid() && cwd < |nodes|
      modifies this`ref, this`nodes
      ensures !r.Stopped? ==> Valid() && ref == old(ref)
      ensures var n, b := old(nodes), Resolve(old(nodes), path, cwd, true);
              && (r.Stopped? <==> b.Stop?)
              && (Anchored(n, path, cwd) ==> !r.Stopped?)
              && (r.Done? <==> CanRemove(n, b))
              && (r.Done? ==> nodes == Removed(n, ref, b.inum, b.name))
              && (r.Failed? ==> nodes == n)
    {
      ghost var n, ref0 := nodes, ref;
      TreeInRange(n, up);
      if Anchored(n, path, cwd) { ResolveNamed(n, up, path, cwd, true); }
      var b := Namex(path, true, cwd);
      if b.Stop? {
        return Stopped;
      }
      if b.NoEntry? {
        return Failed;
      }
      ResolveParent(n, path, cwd);
      r := RemoveFrom(b.inum, b.name, n, ref0);
    }

    /** ialloc: the lowest free inode, with a reference to it. */
    method Ialloc(kind: nat) returns (r: Option<nat>)
      requires |ref| == |nodes|
      modifies this`ref, this`nodes
      ensures r.None? ==> nodes == old(nodes) && ref == old(ref) && NoneLeft(nodes)
      ensures r.Some? ==>
                && Lowest(old(nodes), r.value)
                && nodes == old(nodes)[r.value := Node(kind, 0, [])]
                && ref == old(ref)[r.value := old(ref)[r.value] + 1]
    {
      var i := 1;
      while i < |nodes|
        invariant 1 <= i && nodes == old(nodes) && ref == old(ref)
        invariant forall j :: 1 <= j < i && j < |nodes| ==> nodes[j].kind != 0
      {
        if nodes[i].kind == 0 {
          nodes := nodes[i := Node(kind, 0, [])];
          Iget(i);
          return Some(i);
        }
        i := i + 1;
      }
      return None;
    }

    // the entries of a new directory i in dp; false for the panic, which is never met
    method MakeDots(i: nat, dp: nat) returns (ok: bool)
      requires RefsOk(nodes, ref) && InRange(nodes) && |nodes| <= 0x1_0000 && 0 < i < |nodes| && dp < |nodes|
      requires nodes[i] == Node(Inodes.T_DIR, 1, [])
      modifies this`ref, this`nodes
      ensures ok && ref == old(ref) && nodes == old(nodes)[i := NewNode(dp, i, Inodes.T_DIR)]
    {
      ghost var n := nodes;
      var r := DirLink(i, DOT, i);
      assert nodes[i].entries == [Dirent(i, DOT)];
      EnteredInRange(n, i, Dirent(i, DOT));
      RefsMore(n, nodes, ref, ref);
      assert Find(nodes[i].entries, DOTDOT) == None;
      r := DirLink(i, DOTDOT, dp);
      assert nodes[i].entries == [Dirent(i, DOT), Dirent(dp, DOTDOT)];
      return r.Done?;
    }

    // create's new inode, not yet named: n and ref0 as they were before the path was looked up
    method PrepareNode(dp: nat, kind: nat, ghost n: seq<Node>, ghost ref0: seq<nat>) returns (i: Option<nat>)
      requires nodes == n && InRange(n) && RefsOk(n, ref0) && |n| <= 0x1_0000 && kind != 0 && IsDir(n, dp)
      requires ref == ref0[dp := ref0[dp] + 1]
      modifies this`ref, this`nodes
      ensures i.None? <==> NoneLeft(n)
      ensures i.Some? ==>
                && Lowest(n, i.value)
                && nodes == Made(n, dp, i.value, kind) && ref == ref0[dp := ref0[dp] + 1][i.value := ref0[i.value] + 1]
    {
      i := Ialloc(kind);
      if i.None? {
        return;
      }
      nodes := Counted(nodes, i.value, 1);
      if kind == Inodes.T_DIR {
        ghost var n1 := n[i.value := Node(kind, 1, [])];
        assert nodes == n1;
        NewInRange(n, i.value, kind);
        CountedInRange(n1, dp, n1[dp].nlink + 1);
        forall j: nat ensures RefOk(n1, ref, j) { assert RefOk(n, ref0, j); }
        nodes := Counted(nodes, dp, nodes[dp].nlink + 1);
        RefsMore(n1, nodes, ref, ref);
        var ok := MakeDots(i.value, dp);
      }
    }

    lemma MadeRefs(n: seq<Node>, ref0: seq<nat>, d: nat, i: nat, kind: nat)
      requires RefsOk(n, ref0) && d < |n| && i < |n| && n[i].kind == 0
      ensures RefsOk(Made(n, d, i, kind), ref0)
    {
      forall j: nat ensures RefOk(Made(n, d, i, kind), ref0, j) { assert RefOk(n, ref0, j); }
    }

    // create, once the name is known to be new
    method MakeNode(dp: nat, name: seq<Byte>, kind: nat, ghost n: seq<Node>, ghost ref0: seq<nat>)
      returns (r: CreateResult)
      requires nodes == n && CanEnter(n, up, dp, name) && Cut(name) == name && kind != 0 && RefsOk(n, ref0)
      requires |n| <= 0x1_0000
      requires ref == ref0[dp := ref0[dp] + 1]
      modifies this
      ensures !r.CreateFailed?
      ensures r.CreateStopped? <==> NoneLeft(n) || FreeSlot(n[dp].entries) >= MAX_ENTRIES
      ensures r.Got? ==>
                && (Valid() <==> IsLinked(n, dp))
                && CanCreate(n, old(up), dp, r.inum, kind, name) && Lowest(n, r.inum)
                && nodes == Created(n, dp, r.inum, kind, name) && ref == ref0[r.inum := ref0[r.inum] + 1]
    {
      TreeInRange(n, up);
      var i := PrepareNode(dp, kind, n, ref0);
      if i.None? {
        return CreateStopped;
      }
      var ip := i.value;
      ghost var n1, ref1 := nodes, ref0[ip := ref0[ip] + 1];
      MadeInRange(n, dp, ip, kind);
      MadeRefs(n, ref0, dp, ip, kind);
      RefsMore(n1, n1, ref0, ref);
      var d := DirLink(dp, name, ip);
      if d.Stopped? {
        return CreateStopped;
      }
      CreatedCounts(n, up, dp, ip, kind, name);
      if IsLinked(n, dp) {
        CreatedOk(n, up, dp, ip, kind, name);
        up := CreatedUp(n, up, dp, ip, kind);
      }
      RefsMore(n1, nodes, ref0, ref1);
      Drop(dp, ref1);
      return Got(ip);
    }

    // create, when the name is there
    method OpenExisting(dp: nat, name: seq<Byte>, kind: nat, ghost ref0: seq<nat>) returns (r: CreateResult)
      requires RefsOk(nodes, ref0) && InRange(nodes) && dp < |ref0| && ref == ref0[dp := ref0[dp] + 1]
      requires Find(nodes[dp].entries, name).Some?
      modifies this`ref, this`nodes
      ensures nodes == old(nodes) && RefsOk(nodes, ref)
      ensures var i := Binding(nodes[dp].entries, name).value;
              && i < |nodes|
              && (r.CreateStopped? <==> nodes[i].kind == 0)
              && (r.Got? <==> kind == Inodes.T_FILE && nodes[i].kind == Inodes.T_FILE)
              && (r.Got? ==> r.inum == i && ref == ref0[i := ref0[i] + 1])
              && (r.CreateFailed? ==> ref == ref0)
    {
      var ip := Descend(dp, name, ref0);
      RefsMore(nodes, nodes, ref0, ref);
      if nodes[ip.value].kind == 0 {
        return CreateStopped;
      }
      if kind == Inodes.T_FILE && nodes[ip.value].kind == Inodes.T_FILE {
        return Got(ip.value);
      }
      Drop(ip.value, ref0);
      return CreateFailed;
    }

    /**
     create: a new inode of the kind, named in its directory, with one reference; or the file of that name if
     one was asked for and is there.  The counts stay right exactly if the directory has not been removed.
     */
    method Create(path: seq<Byte>, kind: nat, cwd: nat) returns (r: CreateResult)
      requires Valid() && cwd < |nodes| && kind != 0
      modifies this
      ensures r.Got? && Anchored(old(nodes), path, cwd) ==> Valid()
      ensures var n, b := old(nodes), Resolve(old(nodes), path, cwd, true);
              && (r.CreateStopped? <==>
                    b.Stop? || LeadsToFree(n, b) || (IsFree(n, b) && (NoneLeft(n) || IsFull(n, b))))
              && (r.CreateStopped? && Anchored(n, path, cwd) ==> IsFree(n, b) && (NoneLeft(n) || IsFull(n, b)))
              && (r.Got? <==> if IsFree(n, b) then !NoneLeft(n) && !IsFull(n, b)
                              else b.At? && b.inum < |n| && kind == Inodes.T_FILE && LeadsToKind(n, b, kind))
              && (r.CreateFailed? ==> Valid() && nodes == n && ref == old(ref))
              && (r.Got? ==>
                    && b.At? && b.inum < |n| && r.inum < |n| == |old(ref)|
                    && ref == old(ref)[r.inum := old(ref)[r.inum] + 1]
                    && match Binding(n[b.inum].entries, b.name)
                       case Some(i) => Valid() && nodes == n && r.inum == i
                       case None =>
                         && (Valid() <==> IsLinked(n, b.inum))
                         && nodes == Created(n, b.inum, r.inum, kind, b.name) && Lowest(n, r.inum))
    {
      ghost var n, ref0 := nodes, ref;
      TreeInRange(n, up);
      if Anchored(n, path, cwd) { CreateAnchored(n, up, path, cwd); }
      var b := Namex(path, true, cwd);
      if b.Stop? {
        return CreateStopped;
      }
      if b.NoEntry? {
        return CreateFailed;
      }
      ResolveParent(n, path, cwd);
      if Find(nodes[b.inum].entries, b.name).Some? {
        r := OpenExisting(b.inum, b.name, kind, ref0);
        return;
      }
      r := MakeNode(b.inum, b.name, kind, n, ref0);
    }
  }
}
