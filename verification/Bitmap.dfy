/**
 The free bit map (fs.c: balloc, bfree; mkfs.c: balloc): one bit for every block, eight to a
 byte, bit i % 8 of byte i / 8.  `used` is the set the bytes spell out; everything above this
 module speaks of that set.
 */
module Bitmap {
  import opened Blocks
  import opened Wrappers

  function Masks(): (m: seq<bv8>)
    ensures |m| == 8
  {
    [1, 2, 4, 8, 16, 32, 64, 128]
  }

  // 1 << j
  function Mask(j: nat): bv8
    requires j < 8
  {
    Masks()[j]
  }

  predicate Has(x: bv8, m: bv8) {
    x & m != 0
  }

  predicate BitOf(x: bv8, j: nat)
    requires j < 8
  {
    Has(x, Mask(j))
  }

  lemma MasksDiffer(i: nat, j: nat)
    requires i < 8 && j < 8
    ensures Mask(i) != 0 && (i != j ==> Mask(i) & Mask(j) == 0) && (Mask(i) == Mask(j) <==> i == j)
  {
    var m := Masks();
    assert m == [1, 2, 4, 8, 16, 32, 64, 128];
    assert forall k :: 0 <= k < 8 ==> m[k] != 0;
  }

  lemma SetHas(x: bv8, m: bv8, k: bv8)
    requires m == k || m & k == 0
    requires m != 0
    ensures Has(x | m, k) == (m == k || Has(x, k))
  {
    assert m != k ==> (x | m) & k == x & k;
    assert m == k ==> (x | m) & k == m;
  }

  lemma ClearSame(x: bv8, m: bv8)
    ensures !Has(x & !m, m)
  {
  }

  lemma ClearOther(x: bv8, m: bv8, k: bv8)
    requires m & k == 0
    ensures Has(x & !m, k) == Has(x, k)
  {
    assert (x & !m) & k == x & k;
  }

  /** |= sets the named bit and changes no other. */
  lemma SetOne(x: bv8, i: nat, j: nat)
    requires i < 8 && j < 8
    ensures BitOf(x | Mask(i), j) == (j == i || BitOf(x, j))
  {
    MasksDiffer(i, j);
    SetHas(x, Mask(i), Mask(j));
  }

  /** &= ~ clears it. */
  lemma ClearOne(x: bv8, i: nat, j: nat)
    requires i < 8 && j < 8
    ensures BitOf(x & !Mask(i), j) == (j != i && BitOf(x, j))
  {
    MasksDiffer(i, j);
    if i == j {
      ClearSame(x, Mask(i));
    } else {
      ClearOther(x, Mask(i), Mask(j));
    }
  }

  // the bit of block b
  predicate BitAt(bytes: seq<bv8>, b: nat)
    requires b < 8 * |bytes|
  {
    BitOf(bytes[b / 8], b % 8)
  }

  // the byte x in place of that of block b, where x differs from it in the bit of b at most
  lemma ByteChanged(bytes: seq<bv8>, b: nat, c: nat, x: bv8, on: bool)
    requires b < 8 * |bytes| && c < 8 * |bytes|
    requires BitOf(x, c % 8) == if c % 8 == b % 8 then on else BitOf(bytes[b / 8], c % 8)
    ensures BitAt(bytes[b / 8 := x], c) == if c == b then on else BitAt(bytes, c)
  {
    assert c / 8 == b / 8 && c % 8 == b % 8 ==> c == b;
  }

  const BPB: nat := 4096  // BSIZE * 8

  class Bits {
    const bytes: array<bv8>
    ghost var used: set<nat>

    ghost predicate Valid()
      reads this, bytes
    {
      && (forall b :: b in used ==> b < 8 * bytes.Length)
      && (forall b: nat {:trigger BitAt(bytes[..], b)} ::
            b < 8 * bytes.Length ==> (b in used <==> BitAt(bytes[..], b)))
    }

    // the bit map of an image that mkfs has only zeroed
    constructor (nbytes: nat)
      ensures Valid() && fresh(bytes) && bytes.Length == nbytes && used == {}
    {
      bytes := new bv8[nbytes](i => 0);
      used := {};
    }

    /** The scan of balloc, bit map block by bit map block: the lowest free block, if any. */
    method FindFree(size: nat) returns (r: Option<nat>)
      requires Valid() && size <= 8 * bytes.Length
      ensures r.Some? ==> r.value < size && r.value !in used && forall c :: 0 <= c < r.value ==> c in used
      ensures r.None? ==> forall c :: 0 <= c < size ==> c in used
    {
      var b := 0;
      while b < size
        invariant 0 <= b && b % BPB == 0
        invariant forall c :: 0 <= c < b && c < size ==> c in used
      {
        var bi := 0;
        while bi < BPB && b + bi < size
          invariant 0 <= bi <= BPB
          invariant forall c :: 0 <= c < b + bi && c < size ==> c in used
        {
          assert (b + bi) / 8 == b / BPB * BSIZE + bi / 8 && (b + bi) % 8 == bi % 8;
          assert BitAt(bytes[..], b + bi) <==> b + bi in used;
          if bytes[b / BPB * BSIZE + bi / 8] & Mask(bi % 8) == 0 {
            return Some(b + bi);
          }
          bi := bi + 1;
        }
        b := b + BPB;
      }
      return None;
    }

    /** data[bi / 8] & m */
    method TestBit(b: nat) returns (r: bool)
      requires Valid() && b < 8 * bytes.Length
      ensures r <==> b in used
    {
      assert BitAt(bytes[..], b) <==> b in used;
      r := bytes[b / 8] & Mask(b % 8) != 0;
    }

    /** data[bi / 8] |= m */
    method SetBit(b: nat)
      requires Valid() && b < 8 * bytes.Length
      modifies this, bytes
      ensures Valid() && used == old(used) + {b}
      ensures forall j :: 0 <= j < bytes.Length && j != b / 8 ==> bytes[j] == old(bytes[j])
    {
      ghost var before := bytes[..];
      bytes[b / 8] := bytes[b / 8] | Mask(b % 8);
      used := used + {b};
      forall c: nat | c < 8 * bytes.Length ensures c in used <==> BitAt(bytes[..], c) {
        assert BitAt(before, c) <==> c in old(used);
        SetOne(before[b / 8], b % 8, c % 8);
        ByteChanged(before, b, c, bytes[b / 8], true);
      }
    }

    /** data[bi / 8] &= ~m */
    method ClearBit(b: nat)
      requires Valid() && b < 8 * bytes.Length
      modifies this, bytes
      ensures Valid() && used == old(used) - {b}
      ensures forall j :: 0 <= j < bytes.Length && j != b / 8 ==> bytes[j] == old(bytes[j])
    {
      ghost var before := bytes[..];
      bytes[b / 8] := bytes[b / 8] & !Mask(b % 8);
      used := used - {b};
      forall c: nat | c < 8 * bytes.Length ensures c in used <==> BitAt(bytes[..], c) {
        assert BitAt(before, c) <==> c in old(used);
        ClearOne(before[b / 8], b % 8, c % 8);
        ByteChanged(before, b, c, bytes[b / 8], false);
      }
    }
  }
}
