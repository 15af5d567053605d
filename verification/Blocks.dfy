/**
 Disk blocks.  A block is BSIZE bytes (fs.h); the log header, the indirect blocks and the
 on-disk inodes are read out of it as 32-bit little-endian words, the byte order that
 mkfs.c writes with xint.
 */
module Blocks {

  const BSIZE: nat := 512
  const NWORDS: nat := 128
  const MAXOPBLOCKS: nat := 10  // blocks that a file system operation may log
  const UINT_LIMIT: nat := 0x1_0000_0000

  type Byte = x: int | 0 <= x < 256
  type Word = x: int | 0 <= x < UINT_LIMIT

  type Block = b: seq<Byte> | |b| == BSIZE witness seq(BSIZE, _ => 0)

  function Zeros(): (b: Block)
    ensures forall j :: 0 <= j < BSIZE ==> b[j] == 0
  {
    seq(BSIZE, _ => 0)
  }

  const ZeroBlock: Block := Zeros()

  /** The j-th word of a block. */
  function GetWord(b: Block, j: nat): Word
    requires j < NWORDS
  {
    (b[4 * j] as int) + 0x100 * (b[4 * j + 1] as int)
    + 0x1_0000 * (b[4 * j + 2] as int) + 0x100_0000 * (b[4 * j + 3] as int)
  }

  lemma WordBytes(w: Word)
    ensures w == w % 0x100 + 0x100 * (w / 0x100 % 0x100) + 0x1_0000 * (w / 0x1_0000 % 0x100)
              + 0x100_0000 * (w / 0x100_0000)
    ensures w / 0x100_0000 < 0x100
  {
    var q := w / 0x100;
    var r := q / 0x100;
    assert w == 0x100 * q + w % 0x100 && q == 0x100 * r + q % 0x100 && r == 0x100 * (r / 0x100) + r % 0x100;
    assert r == w / 0x1_0000 && r / 0x100 == w / 0x100_0000;
  }

  /** Store a word: that word reads back, every other word keeps its value. */
  function SetWord(b: Block, j: nat, w: Word): (r: Block)
    requires j < NWORDS
    ensures GetWord(r, j) == w
    ensures forall k: nat :: k < NWORDS && k != j ==> GetWord(r, k) == GetWord(b, k)
  {
    WordBytes(w);
    b[4 * j := w % 0x100][4 * j + 1 := w / 0x100 % 0x100]
    [4 * j + 2 := w / 0x1_0000 % 0x100][4 * j + 3 := w / 0x100_0000]
  }

  lemma ZeroWord(j: nat)
    requires j < NWORDS
    ensures GetWord(ZeroBlock, j) == 0
  {
  }
}
