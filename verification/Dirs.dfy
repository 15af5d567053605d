// Directories: a directory is a file of 16-byte entries, and works as a map from names to inode numbers.
// Names are C strings without their NUL, of which at most DIRSIZ bytes count.
module Dirs {
  import opened Wrappers
  import opened Blocks
  import opened Inodes
  import opened FileBytes
  import opened Files

  const DIRSIZ: nat := 14
  const ENTRY: nat := 16

  // an entry with inode number 0 is not in use
  datatype Dirent = Dirent(inum: nat, name: seq<Byte>)

  function Cut(name: seq<Byte>): (r: seq<Byte>)
    ensures |r| <= DIRSIZ
  {
    if |name| > DIRSIZ then name[..DIRSIZ] else name
  }

  // the bytes before the first NUL
  function UpToNul(b: seq<Byte>): (r: seq<Byte>)
    ensures |r| <= |b| && r <= b && 0 !in r
    ensures |r| < |b| ==> b[|r|] == 0
  {
    if b == [] || b[0] == 0 then [] else [b[0]] + UpToNul(b[1..])
  }

  /** An entry as it is on disk: the number, low byte first, and the name padded with NULs. */
  function Encode(e: Dirent): (b: seq<Byte>)
    requires e.inum < 0x1_0000 && |e.name| <= DIRSIZ
    ensures |b| == ENTRY
  {
    [e.inum % 256, e.inum / 256] + e.name + seq(DIRSIZ - |e.name|, _ => 0)
  }

  function Decode(b: seq<Byte>): (e: Dirent)
    requires |b| == ENTRY
    ensures e.inum < 0x1_0000 && |e.name| <= DIRSIZ && 0 !in e.name
  {
    Dirent((b[0] as int) + 256 * (b[1] as int), UpToNul(b[2..]))
  }

  // what comes before the first NUL is determined by it
  lemma {:induction false} UpToNulIs(b: seq<Byte>, name: seq<Byte>)
    requires name <= b && 0 !in name && (|name| < |b| ==> b[|name|] == 0)
    ensures UpToNul(b) == name
  {
    if name != [] {
      assert b[0] == name[0] && name[0] in name;
      UpToNulIs(b[1..], name[1..]);
    }
  }

  lemma DecodeEncode(e: Dirent)
    requires e.inum < 0x1_0000 && |e.name| <= DIRSIZ && 0 !in e.name
    ensures Decode(Encode(e)) == e
  {
    var b := Encode(e)[2..];
    assert b == e.name + seq(DIRSIZ - |e.name|, _ => 0);
    UpToNulIs(b, e.name);
  }

  // ---------------------------------------------------------------- entries

  ghost function EntryAt(c: seq<Byte>, k: nat): Dirent
    requires ENTRY * (k + 1) <= |c|
  {
    Decode(c[16 * k..16 * k + 16])
  }

  /** The whole entries of a directory. */
  ghost function Entries(c: seq<Byte>): (es: seq<Dirent>)
    ensures |es| == |c| / ENTRY
    ensures forall k :: 0 <= k < |es| ==> es[k] == EntryAt(c, k)
  {
    seq(|c| / 16, k requires 0 <= k < |c| / 16 => EntryAt(c, k))
  }

  /** Writing an entry in place, or right behind the last one. */
  lemma WriteEntry(c: seq<Byte>, k: nat, e: Dirent)
    requires |c| % ENTRY == 0 && k <= |c| / ENTRY && e.inum < 0x1_0000 && |e.name| <= DIRSIZ && 0 !in e.name
    ensures var c' := Splice(c, ENTRY * k, Encode(e));
            |c'| % ENTRY == 0 && Entries(c') == if k < |Entries(c)| then Entries(c)[k := e] else Entries(c) + [e]
  {
    var c', es := Splice(c, 16 * k, Encode(e)), Entries(c);
    DecodeEncode(e);
    assert c'[16 * k..16 * k + 16] == Encode(e);
    forall j: nat | j < |es| && j != k ensures EntryAt(c', j) == es[j] {
      assert c'[16 * j..16 * j + 16] == c[16 * j..16 * j + 16];
    }
  }

  // ---------------------------------------------------------------- a directory as a map

  predicate Live(e: Dirent, name: seq<Byte>) {
    e.inum != 0 && e.name == name
  }

  /** The first entry in use with the name. */
  function Find(es: seq<Dirent>, name: seq<Byte>): (r: Option<nat>)
    ensures r.Some? ==> r.value < |es| && Live(es[r.value], name) && forall j :: 0 <= j < r.value ==> !Live(es[j], name)
    ensures r.None? ==> forall j :: 0 <= j < |es| ==> !Live(es[j], name)
  {
    if es == [] then None
    else if Live(es[0], name) then Some(0)
    else
      var r := Find(es[1..], name);
      assert forall j :: 0 < j < |es| ==> es[j] == es[1..][j - 1];
      if r.None? then None else Some(r.value + 1)
  }

  /** The first entry that is not in use, or the end. */
  function FreeSlot(es: seq<Dirent>): (k: nat)
    ensures k <= |es| && (k < |es| ==> es[k].inum == 0) && forall j :: 0 <= j < k ==> es[j].inum != 0
  {
    if es == [] || es[0].inum == 0 then 0 else 1 + FreeSlot(es[1..])
  }

  /** The inode number that a name stands for. */
  function Binding(es: seq<Dirent>, name: seq<Byte>): Option<nat> {
    var k := Find(es, name);
    if k.None? then None else Some(es[k.value].inum)
  }

  predicate UniqueNames(es: seq<Dirent>) {
    forall j, k :: 0 <= j < k < |es| && es[j].inum != 0 && es[k].inum != 0 ==> es[j].name != es[k].name
  }

  // dirlink's store
  function Link(es: seq<Dirent>, e: Dirent): seq<Dirent> {
    var k := FreeSlot(es);
    if k < |es| then es[k := e] else es + [e]
  }

  // unlink's store
  function Unlink(es: seq<Dirent>, k: nat): seq<Dirent>
    requires k < |es|
  {
    es[k := Dirent(0, [])]
  }

  lemma FindIs(es: seq<Dirent>, name: seq<Byte>, k: nat)
    requires UniqueNames(es) && k < |es| && Live(es[k], name)
    ensures Find(es, name) == Some(k)
  {
  }

  /** A new name is added to the map and nothing else changes. */
  lemma LinkBinding(es: seq<Dirent>, e: Dirent, name: seq<Byte>)
    requires UniqueNames(es) && e.inum != 0 && Find(es, e.name) == None
    ensures UniqueNames(Link(es, e))
    ensures Binding(Link(es, e), name) == if name == e.name then Some(e.inum) else Binding(es, name)
  {
    var es', k := Link(es, e), FreeSlot(es);
    assert es'[k] == e && forall j :: 0 <= j < |es| && j != k ==> es'[j] == es[j];
    if name == e.name {
      FindIs(es', name, k);
    } else if Find(es, name).Some? {
      FindIs(es', name, Find(es, name).value);
    }
  }

  /** A name is taken off the map and nothing else changes. */
  lemma UnlinkBinding(es: seq<Dirent>, gone: seq<Byte>, name: seq<Byte>)
    requires UniqueNames(es) && Find(es, gone).Some?
    ensures UniqueNames(Unlink(es, Find(es, gone).value))
    ensures Binding(Unlink(es, Find(es, gone).value), name) == if name == gone then None else Binding(es, name)
  {
    var k := Find(es, gone).value;
    var es' := Unlink(es, k);
    if name != gone && Find(es, name).Some? {
      FindIs(es', name, Find(es, name).value);
    }
  }

  // ---------------------------------------------------------------- on the file system

  datatype LookupResult = Found(inum: nat, off: nat) | Absent | LookupPanic

  datatype LinkResult = Linked | NameTaken | LinkPanic

  // the contents of a file whose inode is sound
  ghost function Bytes(d: Dinode, data: seq<Block>): seq<Byte> {
    if Shaped(d) && d.size <= MAXBYTES then Content(d, data) else []
  }

  // what looking at a directory leaves alone
  datatype Snap = Snap(data: seq<Block>, icache: map<nat, Dinode>, owner: map<nat, Place>, logged: set<nat>)

  ghost function SnapOf(fs: FileSystem): Snap
    reads fs
  {
    Snap(fs.data, fs.icache, fs.owner, fs.logged)
  }

  ghost predicate At(fs: FileSystem, snap: Snap)
    reads fs, fs.bits, fs.bits.bytes
  {
    fs.Sound() && SnapOf(fs) == snap
  }

  lemma SizeOf(fs: FileSystem, dp: nat)
    requires fs.Sound() && dp in fs.icache
    ensures |Bytes(fs.icache[dp], fs.data)| == fs.icache[dp].size <= MAXBYTES && fs.Readable(dp)
  {
    assert NoHoles(fs.Table()[dp], fs.data) && fs.Table()[dp] == fs.icache[dp];
  }

  // the entry at off, which readi delivers; None when it does not deliver a whole one
  method ReadEntry(fs: FileSystem, dp: nat, off: nat, ghost k: nat, ghost snap: Snap) returns (e: Option<Dirent>)
    requires At(fs, snap) && dp in snap.icache && snap.icache[dp].kind == T_DIR
    requires off == ENTRY * k < snap.icache[dp].size
    modifies fs`data, fs`icache, fs`owner, fs`logged, fs.bits, fs.bits.bytes
    ensures At(fs, snap)
    ensures var c := Bytes(snap.icache[dp], snap.data);
            |c| == snap.icache[dp].size && (e.Some? <==> off + ENTRY <= |c|) && (e.Some? ==> e.value == EntryAt(c, k))
  {
    SizeOf(fs, dp);
    var r, b := fs.Readi(dp, off, ENTRY);
    if r != ENTRY {
      return None;
    }
    return Some(Decode(b));
  }

  // dirlookup's answer
  ghost function LookupOf(c: seq<Byte>, name: seq<Byte>): LookupResult {
    match Find(Entries(c), name)
    case Some(k) => Found(Entries(c)[k].inum, ENTRY * k)
    case None => if |c| % ENTRY == 0 then Absent else LookupPanic
  }

  // the first k entries have been looked at in vain
  ghost predicate Scanned(c: seq<Byte>, name: seq<Byte>, k: nat) {
    k <= |Entries(c)| && forall j :: 0 <= j < k ==> !Live(Entries(c)[j], name)
  }

  lemma ScanNext(c: seq<Byte>, name: seq<Byte>, k: nat)
    requires Scanned(c, name, k) && ENTRY * k + ENTRY <= |c|
    ensures Live(EntryAt(c, k), name) ==> LookupOf(c, name) == Found(EntryAt(c, k).inum, ENTRY * k)
    ensures !Live(EntryAt(c, k), name) ==> Scanned(c, name, k + 1)
  {
    assert Entries(c)[k] == EntryAt(c, k);
  }

  lemma ScanEnd(c: seq<Byte>, name: seq<Byte>, k: nat)
    requires Scanned(c, name, k) && ENTRY * k <= |c| < ENTRY * k + ENTRY
    ensures LookupOf(c, name) == if |c| == ENTRY * k then Absent else LookupPanic
  {
  }

  /** dirlookup: the first entry in use with the name, or none. */
  method Dirlookup(fs: FileSystem, dp: nat, name: seq<Byte>, ghost snap: Snap) returns (r: LookupResult)
    requires At(fs, snap) && dp in snap.icache && 0 !in name
    modifies fs`data, fs`icache, fs`owner, fs`logged, fs.bits, fs.bits.bytes
    ensures At(fs, snap)
    ensures r == if snap.icache[dp].kind != T_DIR then LookupPanic
            else LookupOf(Bytes(snap.icache[dp], snap.data), Cut(name))
  {
    if fs.icache[dp].kind != T_DIR {
      return LookupPanic;
    }
    ghost var c, k := Bytes(snap.icache[dp], snap.data), 0;
    SizeOf(fs, dp);
    var size, off := fs.icache[dp].size, 0;
    while off < size
      invariant At(fs, snap) && off == ENTRY * k <= |c| && Scanned(c, Cut(name), k)
    {
      var e := ReadEntry(fs, dp, off, k, snap);
      if e.None? {
        ScanEnd(c, Cut(name), k);
        return LookupPanic;
      }
      ScanNext(c, Cut(name), k);
      if e.value.inum != 0 && e.value.name == Cut(name) {
        return Found(e.value.inum, off);
      }
      off, k := off + ENTRY, k + 1;
    }
    ScanEnd(c, Cut(name), k);
    return Absent;
  }

  // the first k entries are in use
  ghost predicate Busy(c: seq<Byte>, k: nat) {
    k <= |Entries(c)| && forall j :: 0 <= j < k ==> Entries(c)[j].inum != 0
  }

  lemma BusyNext(c: seq<Byte>, k: nat)
    requires Busy(c, k) && ENTRY * k + ENTRY <= |c|
    ensures EntryAt(c, k).inum == 0 ==> FreeSlot(Entries(c)) == k
    ensures EntryAt(c, k).inum != 0 ==> Busy(c, k + 1)
  {
    assert Entries(c)[k] == EntryAt(c, k);
  }

  lemma BusyEnd(c: seq<Byte>, k: nat)
    requires Busy(c, k) && ENTRY * k == |c|
    ensures FreeSlot(Entries(c)) == k
  {
  }

  // dirlink's search for a place, in a directory of whole entries
  method FindSlot(fs: FileSystem, dp: nat, ghost snap: Snap) returns (off: nat, ghost k: nat)
    requires At(fs, snap) && dp in snap.icache && snap.icache[dp].kind == T_DIR
    requires |Bytes(snap.icache[dp], snap.data)| % ENTRY == 0
    modifies fs`data, fs`icache, fs`owner, fs`logged, fs.bits, fs.bits.bytes
    ensures At(fs, snap) && off == ENTRY * k && k == FreeSlot(Entries(Bytes(snap.icache[dp], snap.data)))
  {
    ghost var c := Bytes(snap.icache[dp], snap.data);
    SizeOf(fs, dp);
    var size := fs.icache[dp].size;
    off, k := 0, 0;
    while off < size
      invariant At(fs, snap) && off == ENTRY * k <= |c| && Busy(c, k)
    {
      var e := ReadEntry(fs, dp, off, k, snap);
      BusyNext(c, k);
      if e.value.inum == 0 {
        return;
      }
      off, k := off + ENTRY, k + 1;
    }
    BusyEnd(c, k);
  }

  /** Entry k of directory dp is now e; no other file has changed. */
  ghost predicate Stored(fs: FileSystem, dp: nat, k: nat, e: Dirent, snap: Snap, table: seq<Dinode>)
    requires e.inum < 0x1_0000 && |e.name| <= DIRSIZ
    reads fs, fs.bits, fs.bits.bytes
  {
    && fs.Sound() && dp in fs.icache && dp in snap.icache && fs.icache == snap.icache[dp := fs.icache[dp]]
    && OthersSame(snap.data, table, fs.data, fs.Table(), dp)
    && fs.icache[dp].kind == T_DIR && fs.icache[dp].nlink == snap.icache[dp].nlink
    && var c, c' := Bytes(snap.icache[dp], snap.data), Bytes(fs.icache[dp], fs.data);
       |c'| % ENTRY == 0 && Entries(c') == if k < |Entries(c)| then Entries(c)[k := e] else Entries(c) + [e]
  }

  // writei of one entry; false for a panic
  method WriteAt(fs: FileSystem, dp: nat, off: nat, e: Dirent, ghost k: nat, ghost snap: Snap) returns (ok: bool)
    requires At(fs, snap) && dp in snap.icache && snap.icache[dp].kind == T_DIR
    requires e.inum < 0x1_0000 && |e.name| <= DIRSIZ && 0 !in e.name
    requires |Bytes(snap.icache[dp], snap.data)| % ENTRY == 0
    requires k <= |Entries(Bytes(snap.icache[dp], snap.data))| && off == ENTRY * k
    modifies fs`data, fs`icache, fs`owner, fs`logged, fs`dinode, fs.bits, fs.bits.bytes
    ensures ok ==> Stored(fs, dp, k, e, snap, old(fs.Table()))
    ensures ok ==> FewLogged(fs.sb, dp, ENTRY * k, ENTRY, snap.icache[dp], fs.icache[dp], snap.logged, fs.logged)
    ensures !ok ==> fs.Full() || ENTRY * (k + 1) > MAXBYTES
  {
    ghost var c := Bytes(snap.icache[dp], snap.data);
    SizeOf(fs, dp);
    var done, r := fs.Writei(dp, off, Encode(e));
    if !done || r != ENTRY {
      return false;
    }
    WriteEntry(c, k, e);
    return true;
  }

  /** dirlink: an error if the name is there, otherwise the entry is put into the first place that is free. */
  method Dirlink(fs: FileSystem, dp: nat, name: seq<Byte>, inum: nat, ghost snap: Snap) returns (r: LinkResult)
    requires At(fs, snap) && dp in snap.icache && 0 !in name
    modifies fs`data, fs`icache, fs`owner, fs`logged, fs`dinode, fs.bits, fs.bits.bytes
    ensures r.Linked? ==>
              && snap.icache[dp].kind == T_DIR && LookupOf(Bytes(snap.icache[dp], snap.data), Cut(name)) == Absent
              && Stored(fs, dp, FreeSlot(Entries(Bytes(snap.icache[dp], snap.data))),
                Dirent(inum % 0x1_0000, Cut(name)), snap, old(fs.Table()))
    ensures r.Linked? ==>
              Entries(Bytes(fs.icache[dp], fs.data))
                == Link(Entries(Bytes(snap.icache[dp], snap.data)), Dirent(inum % 0x1_0000, Cut(name)))
    ensures r.Linked? ==>
              FewLogged(fs.sb, dp, ENTRY * FreeSlot(Entries(Bytes(snap.icache[dp], snap.data))), ENTRY, snap.icache[dp],
                        fs.icache[dp], snap.logged, fs.logged)
    ensures r.NameTaken? <==> snap.icache[dp].kind == T_DIR
                              && LookupOf(Bytes(snap.icache[dp], snap.data), Cut(name)).Found?
    ensures r.NameTaken? ==> At(fs, snap) && fs.dinode == old(fs.dinode)
    ensures r.LinkPanic? ==>
              || snap.icache[dp].kind != T_DIR || |Bytes(snap.icache[dp], snap.data)| % ENTRY != 0
              || fs.Full() || ENTRY * (FreeSlot(Entries(Bytes(snap.icache[dp], snap.data))) + 1) > MAXBYTES
  {
    ghost var table := fs.Table();
    var ip := Dirlookup(fs, dp, name, snap);
    if ip.LookupPanic? {
      return LinkPanic;
    }
    if ip.Found? {
      return NameTaken;
    }
    var off, k := FindSlot(fs, dp, snap);
    assert fs.Table() == table;
    var ok := WriteAt(fs, dp, off, Dirent(inum % 0x1_0000, Cut(name)), k, snap);
    return if ok then Linked else LinkPanic;
  }

  /** isdirempty: no entry but the first two is in use; None for the panic. */
  method IsDirEmpty(fs: FileSystem, dp: nat, ghost snap: Snap) returns (r: Option<bool>)
    requires At(fs, snap) && dp in snap.icache && snap.icache[dp].kind == T_DIR
    modifies fs`data, fs`icache, fs`owner, fs`logged, fs.bits, fs.bits.bytes
    ensures At(fs, snap)
    ensures var c := Bytes(snap.icache[dp], snap.data);
            r == if !DotsOnly(Entries(c)) then Some(false) else if |c| % ENTRY == 0 || |c| < 2 * ENTRY then Some(true)
            else None
  {
    ghost var c, k := Bytes(snap.icache[dp], snap.data), 2;
    SizeOf(fs, dp);
    var size, off := fs.icache[dp].size, 2 * ENTRY;
    while off < size
      invariant At(fs, snap) && off == ENTRY * k && k >= 2 && (k > 2 ==> off <= |c|) && EmptyUpTo(c, k)
    {
      var e := ReadEntry(fs, dp, off, k, snap);
      if e.None? {
        EmptyEnd(c, k);
        return None;
      }
      EmptyNext(c, k);
      if e.value.inum != 0 {
        return Some(false);
      }
      off, k := off + ENTRY, k + 1;
    }
    EmptyEnd(c, k);
    return Some(true);
  }

  /** Nothing beyond the entries for . and .. */
  predicate DotsOnly(es: seq<Dirent>) {
    forall j :: 2 <= j < |es| ==> es[j].inum == 0
  }

  ghost predicate EmptyUpTo(c: seq<Byte>, k: nat) {
    forall j :: 2 <= j < k && j < |Entries(c)| ==> Entries(c)[j].inum == 0
  }

  lemma EmptyNext(c: seq<Byte>, k: nat)
    requires EmptyUpTo(c, k) && k >= 2 && ENTRY * k + ENTRY <= |c|
    ensures if EntryAt(c, k).inum != 0 then !DotsOnly(Entries(c)) else EmptyUpTo(c, k + 1)
  {
    assert Entries(c)[k] == EntryAt(c, k);
  }

  lemma EmptyEnd(c: seq<Byte>, k: nat)
    requires EmptyUpTo(c, k) && |c| < ENTRY * k + ENTRY
    ensures DotsOnly(Entries(c))
  {
  }
}
