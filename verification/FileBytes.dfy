/**
 readi and writei as slicing and splicing of one byte sequence per file: what the chunks of
 the two loops add up to.
 */
module FileBytes {
  import opened Blocks
  import opened Wrappers
  import opened Inodes

  /** c with src written at off, growing at the end if src reaches beyond it. */
  ghost function Splice(c: seq<Byte>, off: nat, src: seq<Byte>): seq<Byte>
    requires off <= |c|
  {
    c[..off] + src + if off + |src| < |c| then c[off + |src|..] else []
  }

  /** Writing in two goes is writing the whole. */
  lemma SpliceTwice(c: seq<Byte>, off: nat, a: seq<Byte>, b: seq<Byte>)
    requires off <= |c|
    ensures off + |a| <= |Splice(c, off, a)|
    ensures Splice(Splice(c, off, a), off + |a|, b) == Splice(c, off, a + b)
  {
  }

  /** What was written reads back. */
  lemma SpliceReadsBack(c: seq<Byte>, off: nat, src: seq<Byte>)
    requires off <= |c|
    ensures off + |src| <= |Splice(c, off, src)| && Splice(c, off, src)[off..off + |src|] == src
  {
  }

  function Patch(blk: Block, o: nat, bytes: seq<Byte>): (r: Block)
    requires o + |bytes| <= BSIZE
    ensures forall q :: 0 <= q < BSIZE ==> r[q] == if o <= q < o + |bytes| then bytes[q - o] else blk[q]
  {
    blk[..o] + bytes + blk[o + |bytes|..]
  }

  lemma SameBlockIndex(off: nat, q: nat)
    requires off % BSIZE + q < BSIZE
    ensures (off + q) / BSIZE == off / BSIZE && (off + q) % BSIZE == off % BSIZE + q
  {
  }

  // the bytes of a file that lie in one block
  lemma ReadChunk(d: Dinode, data: seq<Block>, off: nat, m: nat)
    requires Shaped(d) && d.size <= MAXBYTES && off + m <= d.size && off % BSIZE + m <= BSIZE && m > 0
    requires 0 < Slot(d, data, off / BSIZE) < |data|
    ensures Content(d, data)[off..off + m] == data[Slot(d, data, off / BSIZE)][off % BSIZE..off % BSIZE + m]
  {
    var c := Content(d, data)[off..off + m];
    var blk := data[Slot(d, data, off / BSIZE)][off % BSIZE..off % BSIZE + m];
    forall q | 0 <= q < m ensures c[q] == blk[q] {
      SameBlockIndex(off, q);
      assert c[q] == ByteAt(d, data, off + q);
    }
  }

  // ---------------------------------------------------------------- writing

  ghost predicate WrittenAt(d0: seq<Block>, t0: seq<Dinode>, d: seq<Block>, t: seq<Dinode>,
                            i: nat, off: nat, src: seq<Byte>, tot: nat, j: nat, o: nat)
    requires j < |t0| && j < |t| && Shaped(t0[j]) && Shaped(t[j]) && o < MAXBYTES && tot <= |src|
  {
    ByteAt(t[j], d, o) == if j == i && off <= o < off + tot then src[o - off] else ByteAt(t0[j], d0, o)
  }

  /** tot bytes of src have been written at off of file i, and no other byte of any file has changed. */
  ghost predicate Written(d0: seq<Block>, t0: seq<Dinode>, d: seq<Block>, t: seq<Dinode>,
                          i: nat, off: nat, src: seq<Byte>, tot: nat)
  {
    && |t0| == |t| && AllShaped(t0) && AllShaped(t) && tot <= |src|
    && forall j: nat, o: nat {:trigger WrittenAt(d0, t0, d, t, i, off, src, tot, j, o)} ::
         j < |t| && o < MAXBYTES ==> WrittenAt(d0, t0, d, t, i, off, src, tot, j, o)
  }

  lemma NothingWritten(d: seq<Block>, t: seq<Dinode>, i: nat, off: nat, src: seq<Byte>)
    requires AllShaped(t)
    ensures Written(d, t, d, t, i, off, src, 0)
  {
    forall j: nat, o: nat | j < |t| && o < MAXBYTES ensures WrittenAt(d, t, d, t, i, off, src, 0, j, o) {}
  }

  // mapping blocks in between changes no byte
  lemma WrittenMapped(d0: seq<Block>, t0: seq<Dinode>, d: seq<Block>, t: seq<Dinode>, i: nat, off: nat, src: seq<Byte>,
                      tot: nat, d': seq<Block>, t': seq<Dinode>)
    requires Written(d0, t0, d, t, i, off, src, tot) && SameFiles(d, t, d', t')
    ensures Written(d0, t0, d', t', i, off, src, tot)
  {
    forall j: nat, o: nat | j < |t| && o < MAXBYTES ensures WrittenAt(d0, t0, d', t', i, off, src, tot, j, o) {
      assert WrittenAt(d0, t0, d, t, i, off, src, tot, j, o) && SameByte(d, t, d', t', j, o);
    }
  }

  // the next m bytes, into the block that holds them
  lemma WriteChunk(lo: nat, d0: seq<Block>, t0: seq<Dinode>, d: seq<Block>, t: seq<Dinode>, owner: map<nat, Place>,
                   i: nat, off: nat, src: seq<Byte>, tot: nat, m: nat, d': seq<Block>)
    requires Written(d0, t0, d, t, i, off, src, tot) && Owned(lo, d, t, owner) && i < |t|
    requires m > 0 && tot + m <= |src| && off + tot + m <= MAXBYTES && (off + tot) % BSIZE + m <= BSIZE
    requires var a := Slot(t[i], d, (off + tot) / BSIZE);
             0 < a < |d| && d' == d[a := Patch(d[a], (off + tot) % BSIZE, src[tot..tot + m])]
    ensures Owned(lo, d', t, owner)
    ensures Written(d0, t0, d', t, i, off, src, tot + m)
  {
    var pos := off + tot;
    var a := Slot(t[i], d, pos / BSIZE);
    var x := Patch(d[a], pos % BSIZE, src[tot..tot + m]);
    assert PlaceOk(d, t, owner, i, pos / BSIZE);
    DataWriteOwned(lo, d, t, owner, a, x);
    var tot' := tot + m;
    forall j: nat, o: nat | j < |t| && o < MAXBYTES ensures WrittenAt(d0, t0, d', t, i, off, src, tot', j, o) {
      assert WrittenAt(d0, t0, d, t, i, off, src, tot, j, o);
      DataWriteBytes(lo, d, t, owner, a, x, j, o);
      if pos <= o < pos + m { SameBlockIndex(pos, o - pos); }
      if j == i && o / BSIZE == pos / BSIZE {
        ChunkByte(d, t, i, off, src, tot, m, o, x, a);
      }
    }
  }

  lemma ChunkByte(d: seq<Block>, t: seq<Dinode>, i: nat, off: nat, src: seq<Byte>, tot: nat, m: nat, o: nat, x: Block,
                  a: nat)
    requires i < |t| && Shaped(t[i]) && o < MAXBYTES && tot + m <= |src|
    requires var pos := off + tot; o / BSIZE == pos / BSIZE && pos % BSIZE + m <= BSIZE
    requires a == Slot(t[i], d, o / BSIZE) && 0 < a < |d| && x == Patch(d[a], (off + tot) % BSIZE, src[tot..tot + m])
    ensures x[o % BSIZE] == if off + tot <= o < off + tot + m then src[o - off] else ByteAt(t[i], d, o)
  {
    var pos := off + tot;
    assert o - pos == o % BSIZE - pos % BSIZE;
  }

  /** A complete write: the file is spliced, every other file is as before. */
  lemma WrittenContent(d0: seq<Block>, t0: seq<Dinode>, d: seq<Block>, t: seq<Dinode>, i: nat, off: nat, src: seq<Byte>)
    requires Written(d0, t0, d, t, i, off, src, |src|) && i < |t|
    requires off <= t0[i].size <= MAXBYTES && off + |src| <= MAXBYTES
    requires t[i].size == if off + |src| > t0[i].size then off + |src| else t0[i].size
    ensures Content(t[i], d) == Splice(Content(t0[i], d0), off, src)
  {
    var c, c' := Splice(Content(t0[i], d0), off, src), Content(t[i], d);
    forall o: nat | o < |c| ensures c'[o] == c[o] {
      assert WrittenAt(d0, t0, d, t, i, off, src, |src|, i, o);
    }
  }

  lemma OthersContent(d0: seq<Block>, t0: seq<Dinode>, d: seq<Block>, t: seq<Dinode>, i: nat, off: nat, src: seq<Byte>,
                      tot: nat, j: nat)
    requires Written(d0, t0, d, t, i, off, src, tot) && j < |t| && j != i && t[j].size == t0[j].size <= MAXBYTES
    ensures Content(t[j], d) == Content(t0[j], d0)
  {
    forall o: nat | o < t[j].size ensures Content(t[j], d)[o] == Content(t0[j], d0)[o] {
      assert WrittenAt(d0, t0, d, t, i, off, src, tot, j, o);
    }
  }

  ghost predicate SameAt(d0: seq<Block>, t0: seq<Dinode>, d: seq<Block>, t: seq<Dinode>, j: nat) {
    && j < |t0| && j < |t| && t[j] == t0[j]
    && (Shaped(t0[j]) && t0[j].size <= MAXBYTES ==> Content(t[j], d) == Content(t0[j], d0))
  }

  /** Every file but i has the inode and the contents that it had. */
  ghost predicate OthersSame(d0: seq<Block>, t0: seq<Dinode>, d: seq<Block>, t: seq<Dinode>, i: nat) {
    |t| == |t0| && forall j: nat {:trigger SameAt(d0, t0, d, t, j)} :: j < |t| && j != i ==> SameAt(d0, t0, d, t, j)
  }

  lemma OthersSameTrans(d0: seq<Block>, t0: seq<Dinode>, d1: seq<Block>, t1: seq<Dinode>, d2: seq<Block>,
                        t2: seq<Dinode>, i: nat)
    requires OthersSame(d0, t0, d1, t1, i) && OthersSame(d1, t1, d2, t2, i)
    ensures OthersSame(d0, t0, d2, t2, i)
  {
    forall j: nat | j < |t2| && j != i ensures SameAt(d0, t0, d2, t2, j) {
      assert SameAt(d0, t0, d1, t1, j) && SameAt(d1, t1, d2, t2, j);
    }
  }

  lemma WrittenOthers(d0: seq<Block>, t0: seq<Dinode>, d: seq<Block>, t: seq<Dinode>, i: nat, off: nat, src: seq<Byte>,
                      tot: nat)
    requires Written(d0, t0, d, t, i, off, src, tot) && forall j :: 0 <= j < |t| && j != i ==> t[j] == t0[j]
    ensures OthersSame(d0, t0, d, t, i)
  {
    forall j: nat | j < |t| && j != i ensures SameAt(d0, t0, d, t, j) {
      if t0[j].size <= MAXBYTES { OthersContent(d0, t0, d, t, i, off, src, tot, j); }
    }
  }

  // ---------------------------------------------------------------- the blocks behind the bytes

  ghost predicate GrowsAt(d0: seq<Block>, t0: seq<Dinode>, d: seq<Block>, t: seq<Dinode>, i: nat, j: nat, l: nat)
    requires j < |t0| && j < |t| && Shaped(t0[j]) && Shaped(t[j]) && l < NSLOTS
  {
    SameSlot(d0, t0, d, t, j, l) || (j == i && Slot(t0[j], d0, l) == 0)
  }

  /** Only empty places of inode i have been filled. */
  ghost predicate Grows(d0: seq<Block>, t0: seq<Dinode>, d: seq<Block>, t: seq<Dinode>, i: nat) {
    && |t0| == |t| && AllShaped(t0) && AllShaped(t)
    && forall j: nat, l: nat {:trigger GrowsAt(d0, t0, d, t, i, j, l)} ::
         j < |t| && l < NSLOTS ==> GrowsAt(d0, t0, d, t, i, j, l)
  }

  lemma NothingGrows(d: seq<Block>, t: seq<Dinode>, i: nat)
    requires AllShaped(t)
    ensures Grows(d, t, d, t, i)
  {
    forall j: nat, l: nat | j < |t| && l < NSLOTS ensures GrowsAt(d, t, d, t, i, j, l) {
      assert SameSlot(d, t, d, t, j, l);
    }
  }

  lemma GrowsMapped(d0: seq<Block>, t0: seq<Dinode>, d: seq<Block>, t: seq<Dinode>, i: nat,
                    d': seq<Block>, t': seq<Dinode>, bn: nat)
    requires Grows(d0, t0, d, t, i) && Mapped(d, t, d', t', i, {Place(i, INDIRECT), Place(i, bn)})
    ensures Grows(d0, t0, d', t', i)
  {
    var grown := {Place(i, INDIRECT), Place(i, bn)};
    forall j: nat, l: nat | j < |t| && l < NSLOTS ensures GrowsAt(d0, t0, d', t', i, j, l) {
      assert GrowsAt(d0, t0, d, t, i, j, l) && KeptOrFilled(d, t, d', t', grown, j, l);
    }
  }

  // writing data into a block of a file moves no place
  lemma GrowsWritten(lo: nat, d0: seq<Block>, t0: seq<Dinode>, d: seq<Block>, t: seq<Dinode>, owner: map<nat, Place>,
                     i: nat, k: nat, x: Block)
    requires Grows(d0, t0, d, t, i) && Owned(lo, d, t, owner) && i < |t| && k < MAXFILE && 0 < Slot(t[i], d, k) < |d|
    ensures Grows(d0, t0, d[Slot(t[i], d, k) := x], t, i)
    ensures forall l: nat :: l < NSLOTS ==> Slot(t[i], d[Slot(t[i], d, k) := x], l) == Slot(t[i], d, l)
  {
    var a := Slot(t[i], d, k);
    var d' := d[a := x];
    SlotInRange(lo, d, t, owner, i, k);
    forall j: nat, l: nat | j < |t| && l < NSLOTS ensures GrowsAt(d0, t0, d', t, i, j, l) {
      assert GrowsAt(d0, t0, d, t, i, j, l);
      SlotStable(lo, d, t, owner, a, x, j, l);
    }
    forall l: nat | l < NSLOTS ensures Slot(t[i], d', l) == Slot(t[i], d, l) {
      SlotStable(lo, d, t, owner, a, x, i, l);
    }
  }

  // nor does it change what any place of the file holds
  lemma SlotsUnmoved(lo: nat, d: seq<Block>, t: seq<Dinode>, owner: map<nat, Place>, i: nat, k: nat, d': seq<Block>)
    requires Owned(lo, d, t, owner) && i < |t| && k < MAXFILE
    requires var a := Slot(t[i], d, k); 0 < a < |d| == |d'| && d' == d[a := d'[a]]
    ensures forall l: nat :: l < NSLOTS ==> Slot(t[i], d', l) == Slot(t[i], d, l)
  {
    SlotInRange(lo, d, t, owner, i, k);
    forall l: nat | l < NSLOTS ensures Slot(t[i], d', l) == Slot(t[i], d, l) {
      SlotStable(lo, d, t, owner, Slot(t[i], d, k), d'[Slot(t[i], d, k)], i, l);
    }
  }

  function Max(a: nat, b: nat): nat {
    if a < b then b else a
  }

  // every block of inode d below the end of the range up to reach is there
  ghost predicate Backed(d: Dinode, data: seq<Block>, reach: nat)
    requires Shaped(d)
  {
    reach <= MAXBYTES && forall k: nat :: k < BlockCount(reach) ==> Slot(d, data, k) != 0
  }

  // mapping block bn extends what is backed to the end of that block
  lemma MappedBacked(d: seq<Block>, t: seq<Dinode>, d': seq<Block>, t': seq<Dinode>, i: nat, bn: nat, reach: nat,
                     reach': nat)
    requires Mapped(d, t, d', t', i, {Place(i, INDIRECT), Place(i, bn)}) && Backed(t[i], d, reach)
    requires bn < MAXFILE && Slot(t'[i], d', bn) != 0 && reach' <= MAXBYTES
    requires BlockCount(reach') <= Max(BlockCount(reach), bn + 1) && bn <= BlockCount(reach)
    ensures Backed(t'[i], d', reach')
  {
    var grown := {Place(i, INDIRECT), Place(i, bn)};
    forall k: nat | k < BlockCount(reach') ensures Slot(t'[i], d', k) != 0 {
      assert KeptOrFilled(d, t, d', t', grown, i, k);
    }
  }

  lemma GrowsBacked(d0: seq<Block>, t0: seq<Dinode>, d: seq<Block>, t: seq<Dinode>, i: nat, j: nat, reach: nat)
    requires Grows(d0, t0, d, t, i) && j < |t| && Backed(t0[j], d0, reach)
    ensures Backed(t[j], d, reach)
  {
    forall k: nat | k < BlockCount(reach) ensures Slot(t[j], d, k) != 0 {
      assert GrowsAt(d0, t0, d, t, i, j, k);
    }
  }

  // recording a new size in the inode moves no place and no byte
  lemma ResizeKeeps(lo: nat, d0: seq<Block>, t0: seq<Dinode>, d: seq<Block>, t: seq<Dinode>, owner: map<nat, Place>,
                    i: nat, off: nat, src: seq<Byte>, tot: nat, s: nat)
    requires Owned(lo, d, t, owner) && Written(d0, t0, d, t, i, off, src, tot) && Grows(d0, t0, d, t, i) && i < |t|
    ensures var t' := t[i := t[i].(size := s)];
            Owned(lo, d, t', owner) && Written(d0, t0, d, t', i, off, src, tot) && Grows(d0, t0, d, t', i)
  {
    var t' := t[i := t[i].(size := s)];
    ResizeOwned(lo, d, t, owner, i, s);
    forall j: nat, l: nat | j < |t| && l < NSLOTS ensures GrowsAt(d0, t0, d, t', i, j, l) {
      assert GrowsAt(d0, t0, d, t, i, j, l);
    }
    forall j: nat, o: nat | j < |t| && o < MAXBYTES ensures WrittenAt(d0, t0, d, t', i, off, src, tot, j, o) {
      assert WrittenAt(d0, t0, d, t, i, off, src, tot, j, o);
    }
  }

  lemma ResizeBacked(d: Dinode, data: seq<Block>, reach: nat, s: nat)
    requires Shaped(d) && Backed(d, data, reach)
    ensures Backed(d.(size := s), data, reach)
  {
    var d' := d.(size := s);
    forall k: nat | k < BlockCount(reach) ensures Slot(d', data, k) != 0 {
      assert Slot(d', data, k) == Slot(d, data, k);
    }
  }

  // ---------------------------------------------------------------- counting blocks

  /** The blocks that tot bytes from off lie in. */
  function Touched(off: nat, tot: nat): nat {
    if tot == 0 then 0 else (off + tot - 1) / BSIZE - off / BSIZE + 1
  }

  /** How many of them can be missing from a file of the given size without holes. */
  function Missing(off: nat, tot: nat, size: nat): nat {
    if tot == 0 then 0 else Touched(off, tot) - if off / BSIZE < (size + BSIZE - 1) / BSIZE then 1 else 0
  }

  lemma TouchedStep(off: nat, tot: nat, m: nat, size: nat)
    requires 0 < m && (off + tot) % BSIZE + m <= BSIZE && (tot == 0 || (off + tot) % BSIZE == 0)
    ensures Touched(off, tot + m) == Touched(off, tot) + 1
    ensures Missing(off, tot + m, size) >=
            Missing(off, tot, size) + if (off + tot) / BSIZE < BlockCount(size) then 0 else 1
  {
    SameBlockIndex(off + tot, m - 1);
  }

  // the number of bytes that the next round of writei or iappend writes
  function ChunkSize(off: nat, n: nat, tot: nat): (m: nat)
    requires tot < n
    ensures 0 < m <= n - tot && (off + tot) % BSIZE + m <= BSIZE
    ensures m == n - tot || (off + tot + m) % BSIZE == 0
    ensures BlockCount(off + tot + m) == (off + tot) / BSIZE + 1
  {
    if n - tot < BSIZE - (off + tot) % BSIZE then n - tot else BSIZE - (off + tot) % BSIZE
  }

  /** A bound on the blocks that writei logs: data, bit map, indirect block with its bit map block, inode. */
  function WriteCost(off: nat, n: nat, size: nat): nat {
    DataCost(off, n, size) + 3
  }

  // the data blocks and the bit map blocks among them
  function DataCost(off: nat, n: nat, size: nat): nat {
    Touched(off, n) + Missing(off, n, size)
  }

  /** What filewrite relies on: a chunk of ((MAXOPBLOCKS-1-1-2) / 2) * 512 bytes logs at most MAXOPBLOCKS blocks. */
  lemma ChunkFits(off: nat, n: nat, size: nat)
    requires n <= 1536 && off <= size
    ensures WriteCost(off, n, size) <= MAXOPBLOCKS
  {
  }

  // the sum of the parts of the log
  lemma LogSize(logged: set<nat>, logged0: set<nat>, a: set<nat>, b: set<nat>, c: set<nat>)
    requires logged <= logged0 + a + b + c
    ensures |logged - logged0| <= |a| + |b| + |c|
  {
    SubsetSize(logged - logged0, a + b + c);
    assert |a + b + c| <= |a + b| + |c|;
  }

  /** Files without holes stay so: inode i up to its new size, the others as they were. */
  lemma HolesFilled(d0: seq<Block>, t0: seq<Dinode>, d: seq<Block>, t: seq<Dinode>, i: nat)
    requires AllNoHoles(d0, t0) && Grows(d0, t0, d, t, i) && i < |t| && Backed(t[i], d, t[i].size)
    requires forall j :: 0 <= j < |t| && j != i ==> t[j] == t0[j]
    ensures AllNoHoles(d, t)
  {
    forall j | 0 <= j < |t| ensures NoHoles(t[j], d) {
      if j != i {
        assert NoHoles(t0[j], d0);
        GrowsBacked(d0, t0, d, t, i, j, t0[j].size);
      }
    }
  }
}
