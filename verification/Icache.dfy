// The inode cache: a table of slots, of which those with references hold one inode each.  The references of an
// inode are counted in one slot, so that a count of one is the last reference.
module Icache {
  import opened Wrappers

  // the device is the only one; valid: the inode has been read from disk
  datatype Slot = Slot(inum: nat, ref: nat, valid: bool)

  /** All references to inode i, over all slots. */
  ghost function RefsTo(slots: seq<Slot>, i: nat): nat {
    if slots == [] then 0 else (if slots[0].inum == i then slots[0].ref else 0) + RefsTo(slots[1..], i)
  }

  function Share(s: Slot, i: nat): nat {
    if s.inum == i then s.ref else 0
  }

  lemma {:induction false} ChangeRefs(slots: seq<Slot>, k: nat, s: Slot, i: nat)
    requires k < |slots|
    ensures RefsTo(slots[k := s], i) == RefsTo(slots, i) - Share(slots[k], i) + Share(s, i)
    ensures RefsTo(slots, i) >= Share(slots[k], i)
  {
    if k == 0 {
      assert slots[k := s][1..] == slots[1..];
    } else {
      ChangeRefs(slots[1..], k - 1, s, i);
      assert slots[k := s][1..] == slots[1..][k - 1 := s];
    }
  }

  lemma {:induction false} NoRefs(slots: seq<Slot>, i: nat)
    requires forall k :: 0 <= k < |slots| ==> Share(slots[k], i) == 0
    ensures RefsTo(slots, i) == 0
  {
    if slots != [] {
      assert Share(slots[0], i) == 0;
      assert forall k :: 0 <= k < |slots| - 1 ==> slots[1..][k] == slots[k + 1];
      NoRefs(slots[1..], i);
    }
  }

  // no inode in two slots
  ghost predicate OneSlot(slots: seq<Slot>) {
    forall j, k :: 0 <= j < k < |slots| && slots[j].ref > 0 && slots[k].ref > 0 ==> slots[j].inum != slots[k].inum
  }

  /** The count in a slot in use is the count of all references to its inode. */
  lemma SlotHasAll(slots: seq<Slot>, k: nat)
    requires OneSlot(slots) && k < |slots| && slots[k].ref > 0
    ensures RefsTo(slots, slots[k].inum) == slots[k].ref
  {
    var i, empty := slots[k].inum, slots[k := Slot(0, 0, false)];
    ChangeRefs(slots, k, Slot(0, 0, false), i);
    forall j | 0 <= j < |empty| ensures Share(empty[j], i) == 0 {
    }
    NoRefs(empty, i);
  }

  class InodeCache {
    const slots: array<Slot>

    ghost predicate Valid()
      reads this, slots
    {
      OneSlot(slots[..])
    }

    constructor (ninode: nat)
      ensures Valid() && fresh(slots) && slots.Length == ninode && forall i :: RefsTo(slots[..], i) == 0
    {
      slots := new Slot[ninode](_ => Slot(0, 0, false));
      new;
      forall i: nat ensures RefsTo(slots[..], i) == 0 {
        NoRefs(slots[..], i);
      }
    }

    // one slot gets new contents
    method Put(k: nat, s: Slot)
      requires Valid() && k < slots.Length
      requires s.ref > 0 ==> forall j :: 0 <= j < slots.Length && j != k && slots[j].ref > 0 ==> slots[j].inum != s.inum
      modifies slots
      ensures Valid() && slots[..] == old(slots[..])[k := s]
      ensures forall i :: RefsTo(slots[..], i) == RefsTo(old(slots[..]), i) - Share(old(slots[k]), i) + Share(s, i)
    {
      ghost var b := slots[..];
      slots[k] := s;
      assert slots[..] == b[k := s];
      forall i: nat ensures RefsTo(slots[..], i) == RefsTo(b, i) - Share(b[k], i) + Share(s, i) {
        ChangeRefs(b, k, s, i);
      }
    }

    /** iget: one more reference to inode i, in its slot if it has one, else in a free one; None for the panic. */
    method Iget(i: nat) returns (r: Option<nat>)
      requires Valid()
      modifies slots
      ensures Valid()
      ensures r.None? ==> slots[..] == old(slots[..]) && forall k :: 0 <= k < slots.Length ==>
                slots[k].ref > 0 && slots[k].inum != i
      ensures r.Some? ==>
                && r.value < slots.Length && slots[r.value].inum == i
                && forall j :: RefsTo(slots[..], j) == RefsTo(old(slots[..]), j) + if j == i then 1 else 0
      ensures r.Some? && old(slots[r.value]).ref > 0 ==>
                slots[..] == old(slots[..])[r.value := old(slots[r.value]).(ref := old(slots[r.value]).ref + 1)]
      ensures r.Some? && old(slots[r.value]).ref == 0 ==>
                slots[..] == old(slots[..])[r.value := Slot(i, 1, false)] && RefsTo(old(slots[..]), i) == 0
    {
      var empty: Option<nat>, k := None, 0;
      while k < slots.Length
        invariant k <= slots.Length && slots[..] == old(slots[..])
        invariant forall j :: 0 <= j < k && slots[j].ref > 0 ==> slots[j].inum != i
        invariant empty.None? ==> forall j :: 0 <= j < k ==> slots[j].ref > 0
        invariant empty.Some? ==> empty.value < k && slots[empty.value].ref == 0
      {
        if slots[k].ref > 0 && slots[k].inum == i {
          Put(k, slots[k].(ref := slots[k].ref + 1));
          return Some(k);
        }
        if empty.None? && slots[k].ref == 0 {
          empty := Some(k);
        }
        k := k + 1;
      }
      if empty.None? {
        return None;
      }
      NoRefs(slots[..], i);
      Put(empty.value, Slot(i, 1, false));
      return empty;
    }

    /** idup */
    method Idup(k: nat)
      requires Valid() && k < slots.Length && slots[k].ref > 0
      modifies slots
      ensures Valid() && slots[..] == old(slots[..])[k := old(slots[k]).(ref := old(slots[k]).ref + 1)]
      ensures forall j :: RefsTo(slots[..], j) == RefsTo(old(slots[..]), j) + if j == slots[k].inum then 1 else 0
    {
      Put(k, slots[k].(ref := slots[k].ref + 1));
    }

    /** iput: the reference is gone; last says that it was the only one to the inode. */
    method Iput(k: nat) returns (last: bool)
      requires Valid() && k < slots.Length && slots[k].ref > 0
      modifies slots
      ensures Valid() && slots[..] == old(slots[..])[k := old(slots[k]).(ref := old(slots[k]).ref - 1)]
      ensures forall j :: RefsTo(slots[..], j) == RefsTo(old(slots[..]), j) - if j == slots[k].inum then 1 else 0
      ensures last <==> RefsTo(slots[..], slots[k].inum) == 0
    {
      SlotHasAll(slots[..], k);
      last := slots[k].ref == 1;
      Put(k, slots[k].(ref := slots[k].ref - 1));
    }
  }
}
