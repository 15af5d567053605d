/**
 link, create and unlink as transactions: after a crash at any disk write the names are those
 of before the call or those of after it.
 */
module Syscalls {
  import opened Blocks
  import opened Wrappers
  import opened Bitmap
  import opened Inodes
  import opened Files
  import opened Dirs
  import opened Links
  import opened LogMachine
  import opened Commit
  import opened Log
  import Atomic
  import opened Calls

  // the log is idle and shows the file system
  ghost predicate Idle(log: Log, s: State, fs: FileSystem)
    reads fs, fs.bits, fs.bits.bytes, log, log.block, log.cache, log.cache.buf, log.cache.next, log.cache.prev
  {
    fs.Sound() && Atomic.Shows(log, s, fs.sb, fs.Disk()) && Atomic.Apart(log, fs)
  }

  /** A call has gone through the log, and is over if ok is true: a crash leaves all of it or nothing. */
  ghost predicate AllOrNothing(log: Log, fs: FileSystem, ok: bool, x: OnDisk, trail: seq<State>, s': State,
                               hist: seq<Disk>)
    reads fs, fs.bits, fs.bits.bytes, log, log.block, log.cache, log.cache.buf, log.cache.next, log.cache.prev
  {
    && fs.Sound() && Trail(log.g, trail) && log.cache.history == hist + Disks(trail)
    && Atomic.BeforeOrAfter(log.g, fs.sb, x, fs.Disk(), trail)
    && (ok ==> Idle(log, s', fs))
  }

  // end_op
  method GoThrough(log: Log, fs: FileSystem, pid: nat, ghost x: OnDisk, ghost s: State)
    returns (ok: bool, ghost trail: seq<State>, ghost s': State)
    requires Atomic.Shows(log, s, fs.sb, x) && Atomic.Apart(log, fs) && pid != 0
    requires fs.Sound() && Covers(fs.sb, x, fs.Disk(), fs.logged)
    modifies log, log.block, log.cache, log.cache.buf, log.cache.next, log.cache.prev
    ensures AllOrNothing(log, fs, ok, x, trail, s', old(log.cache.history))
    ensures TreeIn(fs) == old(TreeIn(fs))
    ensures old(log.Stock([])) && |fs.logged| < log.g.nbuf ==> ok && log.Stock([])
  {
    ok, trail, s' := Atomic.Perform(log, fs, pid, x, s);
  }

  /** sys_link. */
  method LinkCall(log: Log, fs: FileSystem, ip: nat, dp: nat, name: seq<Byte>, pid: nat, ghost s: State)
    returns (r: LinkResult, ok: bool, ghost trail: seq<State>, ghost s': State)
    requires Idle(log, s, fs) && pid != 0 && ip in fs.icache && dp in fs.icache && 0 !in name
    requires fs.icache[ip].kind != T_DIR && fs.icache[dp].kind == T_DIR
    modifies fs, fs.bits, fs.bits.bytes, log, log.block, log.cache, log.cache.buf, log.cache.next, log.cache.prev
    ensures !r.LinkPanic? ==> AllOrNothing(log, fs, ok, old(fs.Disk()), trail, s', old(log.cache.history))
    ensures r.Linked? && ip < 0x1_0000 && old(fs.icache[ip].nlink) < 0xFFFF ==>
              && ip < |old(TreeIn(fs))| && dp < |old(TreeIn(fs))|
              && TreeIn(fs) == FileLinked(old(TreeIn(fs)), dp, ip, Cut(name))
    ensures r.NameTaken? ==> TreeIn(fs) == old(TreeIn(fs))
    ensures !r.LinkPanic? && old(log.Stock([])) && MAXOPBLOCKS < log.g.nbuf ==> ok && log.Stock([])
  {
    ghost var x := fs.Disk();
    r := LinkFile(fs, ip, dp, name);
    if r.LinkPanic? { return r, false, [], s; }
    ok, trail, s' := GoThrough(log, fs, pid, x, s);
  }

  /** create, once the name is known to be new; None is a panic. */
  method CreateCall(log: Log, fs: FileSystem, dp: nat, name: seq<Byte>, kind: nat, major: nat, minor: nat, pid: nat,
                    ghost s: State)
    returns (r: Option<nat>, ok: bool, ghost trail: seq<State>, ghost s': State)
    requires Idle(log, s, fs) && pid != 0 && dp in fs.icache && fs.icache[dp].kind == T_DIR && 0 !in name
    requires 0 < kind < 0x1_0000 && major < 0x1_0000 && minor < 0x1_0000 && Find(List(fs, dp), Cut(name)).None?
    modifies fs, fs.bits, fs.bits.bytes, log, log.block, log.cache, log.cache.buf, log.cache.next, log.cache.prev
    ensures r.Some? ==> AllOrNothing(log, fs, ok, old(fs.Disk()), trail, s', old(log.cache.history))
    ensures r.Some? ==>
              && FirstFree(old(TreeIn(fs)), r.value) && r.value < |old(TreeIn(fs))| && dp < |old(TreeIn(fs))|
              && (|old(TreeIn(fs))| <= 0x1_0000 && old(fs.icache[dp].nlink) < 0xFFFF ==>
                    TreeIn(fs) == Created(old(TreeIn(fs)), dp, r.value, kind, Cut(name)))
    ensures r.Some? && old(log.Stock([])) && MAXOPBLOCKS < log.g.nbuf ==> ok && log.Stock([])
  {
    ghost var x := fs.Disk();
    r := CreateNode(fs, dp, name, kind, major, minor);
    if r.None? { return r, false, [], s; }
    ok, trail, s' := GoThrough(log, fs, pid, x, s);
  }

  /** sys_unlink, once the entry and its inode are known. */
  method UnlinkCall(log: Log, fs: FileSystem, dp: nat, k: nat, ip: nat, last: bool, pid: nat, ghost s: State)
    returns (r: UnlinkResult, ok: bool, ghost trail: seq<State>, ghost s': State)
    requires Idle(log, s, fs) && pid != 0 && dp in fs.icache && ip in fs.icache && dp != ip
    requires fs.icache[dp].kind == T_DIR && fs.icache[dp].size % ENTRY == 0
    requires k < |List(fs, dp)| && List(fs, dp)[k].inum == ip
    modifies fs, fs.bits, fs.bits.bytes, log, log.block, log.cache, log.cache.buf, log.cache.next, log.cache.prev
    ensures r.Refused? ==> TreeIn(fs) == old(TreeIn(fs))
    ensures !r.UnlinkPanic? ==> AllOrNothing(log, fs, ok, old(fs.Disk()), trail, s', old(log.cache.history))
    ensures r.Gone? && (old(fs.icache[ip].kind) == T_DIR ==> 0 < old(fs.icache[dp].nlink)) ==>
              TakenOff(old(TreeIn(fs)), TreeIn(fs), dp, k, last)
    ensures !r.UnlinkPanic? && old(log.Stock([])) && fs.sb.size / BPB + 8 < log.g.nbuf ==> ok && log.Stock([])
  {
    ghost var x := fs.Disk();
    r := UnlinkFile(fs, dp, k, ip, last);
    if r.UnlinkPanic? { return r, false, [], s; }
    ok, trail, s' := GoThrough(log, fs, pid, x, s);
  }
}
