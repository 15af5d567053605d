// Address spaces: the page allocator, two-level page tables, and growing, shrinking, freeing and
// copying the user part, with the failures of kalloc at every point.  Addresses are page numbers where
// the source rounds down to a page; physical pages are frame numbers.
module Vm {
  import opened Wrappers
  import opened Blocks
  import opened Paging
  import opened Spaces

  datatype AddResult = Added | NoMemory | NoTable(f: nat)

  datatype CopyResult = Space(c: nat) | OutOfMemory | Panic

  // the first n pages of d are mapped
  ghost predicate AllMapped(s: State, d: nat, n: nat) {
    n <= USER_PAGES && forall v: nat {:trigger Lookup(s, d, v)} :: v < n ==> Lookup(s, d, v).Some?
  }

  class Memory {
    const mem: array<Page>
    const first: nat
    var freelist: Word
    ghost var free: seq<nat>
    ghost var use: map<nat, Use>

    ghost function S(): State
      reads this, mem
    {
      State(mem[..], first, free, use)
    }

    ghost predicate ListOk()
      reads this, mem
    {
      FreeOk(S()) && mem.Length <= USER_PAGES && (free != [] ==> free[|free| - 1] < USER_PAGES)
      && freelist == Link(free)
    }

    ghost predicate Valid()
      reads this, mem
    {
      Ok(S()) && ListOk()
    }

    /** The frames from first on are in use; kinit1 and kinit2 free them with FreeRange. */
    constructor (n: nat, first: nat)
      requires 0 < first <= n <= USER_PAGES
      ensures Valid() && fresh(mem) && mem.Length == n && this.first == first && free == []
      ensures forall f: nat {:trigger Is(S(), f, Held)} :: first <= f < n ==> Is(S(), f, Held)
    {
      mem := new Page[n](_ => Filled(0));
      this.first := first;
      freelist, free, use := 0, [], AllHeld(first, n);
    }

    // ---------------------------------------------------------------- kalloc.c

    /** kalloc: a page from the free list, if there is one. */
    method Kalloc() returns (r: Option<nat>)
      requires Valid()
      modifies this
      ensures Valid() && (r.None? <==> old(free) == [])
      ensures r.None? ==> S() == old(S())
      ensures r.Some? ==> Is(old(S()), r.value, Free(|old(free)| - 1)) && Is(S(), r.value, Held)
                          && S() == Popped(old(S()))
    {
      if freelist == 0 {
        return None;
      }
      ghost var s := S();
      HeadFree(s);
      PoppedOk(s);
      var f := (freelist - KERNBASE) / PGSIZE;
      assert f == free[|free| - 1];
      freelist := mem[f][0];
      free, use := free[..|free| - 1], use[f := Held];
      assert S() == Popped(s);
      return Some(f);
    }

    /** kfree: the page becomes junk and the head of the free list; false stands for the panic. */
    method Kfree(f: nat) returns (ok: bool)
      requires ListOk() && (Managed(S(), f) ==> f in use && !use[f].Free?)
      modifies this, mem
      ensures ListOk() && (ok <==> Managed(old(S()), f))
      ensures !ok ==> S() == old(S())
      ensures ok ==> S() == Pushed(old(S()), f)
    {
      if f < first || f >= mem.Length {
        return false;
      }
      ghost var s := S();
      PushedFree(s, f);
      mem[f] := Filled(JUNK);
      mem[f] := mem[f][0 := freelist];
      freelist := 0x8000_0000 + 4096 * f;
      free, use := free + [f], use[f := Free(|free|)];
      assert S() == Pushed(s, f);
      return true;
    }

    /** freerange: the whole pages between two physical addresses go to the free list. */
    method FreeRange(start: nat, end: nat) returns (ok: bool)
      requires Valid()
      requires forall f: nat {:trigger Is(S(), f, Held)} :: Managed(S(), f) && UpToPage(start) <= f < end / PGSIZE ==>
                 Is(S(), f, Held)
      modifies this, mem
      ensures ok <==> start <= end && (UpToPage(start) < end / PGSIZE ==>
                first <= UpToPage(start) && end / PGSIZE <= mem.Length)
      ensures ok ==> Valid() && forall f: nat {:trigger RangeAt(old(S()), S(), UpToPage(start), end / PGSIZE, f)} ::
                                  RangeAt(old(S()), S(), UpToPage(start), end / PGSIZE, f)
    {
      if end < start {
        return false;
      }
      ghost var s := S();
      var lo, p := UpToPage(start), UpToPage(start);
      while PGSIZE * (p + 1) <= end
        invariant Valid() && lo <= p && (p > lo ==> first <= lo && p <= mem.Length && p <= end / PGSIZE)
        invariant forall f: nat {:trigger RangeAt(s, S(), lo, p, f)} :: RangeAt(s, S(), lo, p, f)
        decreases end - PGSIZE * p
      {
        ghost var s1 := S();
        assert RangeAt(s, s1, lo, p, p);
        assert Managed(s, p) ==> Is(s, p, Held);
        if Managed(s1, p) { PushedOk(s1, p); }
        var done := Kfree(p);
        if !done {
          return false;
        }
        p := p + 1;
        forall f: nat ensures RangeAt(s, S(), lo, p, f) { assert RangeAt(s, s1, lo, p - 1, f); }
      }
      assert p == end / PGSIZE || p == lo > end / PGSIZE;
      forall f: nat ensures RangeAt(s, S(), lo, end / PGSIZE, f) { assert RangeAt(s, S(), lo, p, f); }
      return true;
    }
  
    // ---------------------------------------------------------------- vm.c

    /** walkpgdir: the table for page v, made if need be; nothing that is mapped changes. */
    method Walk(d: nat, v: nat, alloc: bool) returns (t: Option<nat>)
      requires Valid() && Aspace(S(), d) && v < PAGES
      modifies this, mem
      ensures Valid() && Aspace(S(), d) && Grown(old(S()), S(), d, None) && LookupsKept(old(S()), S(), d)
      ensures t.Some? ==> Present(mem[d][Pdx(v)]) && Frame(mem[d][Pdx(v)]) == t.value
                          && Is(S(), t.value, Table(d, Pdx(v)))
      ensures t.None? ==> !Present(mem[d][Pdx(v)]) && (alloc ==> old(free) == [])
      ensures !alloc || t.None? ==> S() == old(S())
      ensures |free| + 1 >= |old(free)|
    {
      ghost var s := S();
      var i := Pdx(v);
      if Present(mem[d][i]) {
        LookupTable(s, d, v);
        return Some(Frame(mem[d][i]));
      }
      if !alloc {
        return None;
      }
      var page := Kalloc();
      if page.None? {
        return None;
      }
      var w := Pte(page.value, PTE_W + PTE_U);
      mem[page.value] := Filled(0);
      assert S() == Loaded(s, Filled(0));
      NewTable(s, d, i, w, 0);
      mem[d] := mem[d][i := w];
      use := use[page.value := Table(d, i)];
      assert S() == AddTable(Loaded(s, Filled(0)), d, i, page.value, w);
      forall u: nat ensures LookupKept(s, S(), d, u) {
        NewTable(s, d, i, w, u);
      }
      return page;
    }
  
    // the body of mappages' loop
    method MapOne(d: nat, v: nat, f: nat, perm: nat) returns (ok: bool)
      requires Valid() && Aspace(S(), d) && v < PAGES && f < PAGES && perm < 4096 && Lookup(S(), d, v) == None
      requires v < USER_PAGES ==> Is(S(), f, Held)
      modifies this, mem
      ensures Valid() && Aspace(S(), d)
      ensures ok ==> Grown(old(S()), S(), d, if v < USER_PAGES then Some(f) else None)
                     && Maps(old(S()), S(), d, v, v + 1, f, perm)
      ensures !ok ==> Grown(old(S()), S(), d, None) && LookupsKept(old(S()), S(), d)
      ensures |free| + 1 >= |old(free)| && (!ok ==> old(free) == [])
    {
      ghost var s := S();
      var t := Walk(d, v, true);
      if t.None? {
        return false;
      }
      ghost var s1 := S();
      assert LookupKept(s, s1, d, v);
      LookupTable(s1, d, v);
      if v < USER_PAGES { assert GrownAt(s, s1, d, f); }
      EnteredOk(s1, d, t.value, v, f, perm);
      var w := Pte(f, perm);
      mem[t.value] := mem[t.value][Ptx(v) := w];
      use := if v < USER_PAGES then use[f := User(d, Pdx(v), Ptx(v))] else use;
      assert S() == Entered(s1, t.value, Ptx(v), w);
      GrownThen(s, s1, S(), d, if v < USER_PAGES then Some(f) else None);
      ghost var hi := v + 1;
      forall u: nat ensures MapsAt(s, S(), d, v, hi, f, perm, u) {
        assert LookupKept(s, s1, d, u) && MapsAt(s1, S(), d, v, hi, f, perm, u);
      }
      return true;
    }
  
    /** mappages: the pages lo .. last are mapped to the frames from f on; on failure, some of them may be. */
    method MapPages(d: nat, lo: nat, last: nat, f: nat, perm: nat) returns (ok: bool)
      requires Valid() && Aspace(S(), d) && lo <= last < PAGES && f + (last - lo) < PAGES && perm < 4096
      requires forall v: nat {:trigger Lookup(S(), d, v)} :: lo <= v <= last ==> Lookup(S(), d, v) == None
      requires lo < USER_PAGES ==> lo == last && Is(S(), f, Held)
      modifies this, mem
      ensures Valid() && Aspace(S(), d)
      ensures ok ==> Grown(old(S()), S(), d, if lo < USER_PAGES then Some(f) else None)
                     && Maps(old(S()), S(), d, lo, last + 1, f, perm)
      ensures !ok ==> Grown(old(S()), S(), d, None)
      ensures !ok ==> forall v: nat {:trigger LookupKept(old(S()), S(), d, v)} ::
                v < lo || lo < USER_PAGES ==> LookupKept(old(S()), S(), d, v)
      ensures |free| + (last + 1 - lo) >= |old(free)| && (!ok ==> |old(free)| <= last - lo)
    {
      ghost var s := S();
      var a, g := lo, f;
      while true
        invariant Valid() && Aspace(S(), d) && lo <= a <= last && g == f + (a - lo)
        invariant Grown(s, S(), d, None) && Maps(s, S(), d, lo, a, f, perm)
        invariant lo < USER_PAGES ==> a == lo && S() == s
        invariant |free| + (a - lo) >= |old(free)|
        decreases last - a
      {
        ghost var s1 := S();
        assert MapsAt(s, s1, d, lo, a, f, perm, a);
        assert Lookup(s, d, a) == None;
        ok := MapOne(d, a, g, perm);
        if !ok {
          GrownThen(s, s1, S(), d, None);
          forall v: nat | v < lo || lo < USER_PAGES ensures LookupKept(s, S(), d, v) {
            assert MapsAt(s, s1, d, lo, a, f, perm, v) && LookupKept(s1, S(), d, v);
          }
          return;
        }
        GrownThen(s, s1, S(), d, if lo < USER_PAGES then Some(f) else None);
        MapsThen(s, s1, S(), d, lo, a, f, perm);
        if a == last {
          return;
        }
        a, g := a + 1, g + 1;
      }
    }
  
    // the page behind entry Ptx(v) of t is freed and the entry cleared
    method DropPage(d: nat, t: nat, v: nat)
      requires Valid() && Aspace(S(), d) && v < USER_PAGES && Is(S(), t, Table(d, Pdx(v))) && Present(mem[t][Ptx(v)])
      modifies this, mem
      ensures Valid() && Aspace(S(), d) && Dropped(old(S()), S(), d, v, v + 1)
    {
      ghost var s := S();
      OneDroppedOk(s, d, t, v);
      var f := Frame(mem[t][Ptx(v)]);
      var ok := Kfree(f);
      mem[t] := mem[t][Ptx(v) := 0];
      assert S() == OneDropped(s, t, Ptx(v));
    }

    /** deallocuvm: the pages between the two sizes go, one by one or by skipping absent tables. */
    method DeallocUvm(d: nat, oldsz: nat, newsz: nat) returns (sz: nat)
      requires Valid() && Aspace(S(), d) && oldsz <= KERNBASE
      modifies this, mem
      ensures Valid() && Aspace(S(), d)
      ensures newsz >= oldsz ==> sz == oldsz && S() == old(S())
      ensures newsz < oldsz ==> sz == newsz && Dropped(old(S()), S(), d, UpToPage(newsz), UpToPage(oldsz))
    {
      if newsz >= oldsz {
        return oldsz;
      }
      ghost var s, hi := S(), UpToPage(oldsz);
      var lo, a := UpToPage(newsz), UpToPage(newsz);
      ghost var b := lo;   // how far it is done: a, but not beyond hi
      DroppedNone(s, d, lo, lo);
      while PGSIZE * a < oldsz
        invariant Valid() && Aspace(S(), d) && lo <= a && b == (if a < hi then a else hi) && lo <= b
        invariant Dropped(s, S(), d, lo, b)
        decreases oldsz - PGSIZE * a
      {
        ghost var s1, c := S(), b;
        var t := Walk(d, a, false);
        if t.None? {
          a := 1024 * (Pdx(a) + 1) - 1;
          b := if a + 1 < hi then a + 1 else hi;
          forall v: nat | c <= v < b ensures Unmapped(s1, d, v) {
          }
          DroppedNone(s1, d, c, b);
        } else if Present(mem[t.value][Ptx(a)]) {
          DropPage(d, t.value, a);
          b := a + 1;
        } else {
          b := a + 1;
          LookupTable(s1, d, a);
          forall v: nat | c <= v < b ensures Unmapped(s1, d, v) {
          }
          DroppedNone(s1, d, c, b);
        }
        DroppedThen(s, s1, S(), d, lo, c, b);
        a := a + 1;
      }
      return newsz;
    }
  
    // kalloc, fill and map: what allocuvm and copyuvm do for each page
    method AddPage(d: nat, v: nat, p: Page, perm: nat) returns (r: AddResult)
      requires Valid() && Aspace(S(), d) && v < USER_PAGES && perm < 4096 && Lookup(S(), d, v) == None
      modifies this, mem
      ensures Valid() && Aspace(S(), d)
      ensures r.NoMemory? ==> S() == old(S())
      ensures r.Added? ==> Allotted(old(S()), S(), d, v, v + 1)
                           && NewAt(old(S()), S(), d, v, p, if perm % 2 == 1 then perm else perm + 1)
      ensures r.NoTable? ==>
                && old(free) != [] && r.f == old(free[|free| - 1]) && r.f < mem.Length
                && Is(old(S()), r.f, Free(|old(free)| - 1)) && Is(S(), r.f, Held)
                && Grown(Loaded(old(S()), p), S(), d, None) && LookupsKept(old(S()), S(), d)
      ensures |free| + 2 >= |old(free)| && (!r.Added? ==> |old(free)| <= 1)
    {
      ghost var s := S();
      var f := Kalloc();
      if f.None? {
        return NoMemory;
      }
      mem[f.value] := p;
      LoadedOk(s, p);
      ghost var t := Loaded(s, p);
      assert S() == t;
      AsideLookup(s, t, f.value, d, v);
      var ok := MapPages(d, v, v, f.value, perm);
      if ok {
        AddedPage(s, S(), d, v, p, perm);
        return Added;
      }
      assert GrownAt(t, S(), d, f.value);
      forall u: nat ensures LookupKept(s, S(), d, u) {
        assert LookupKept(t, S(), d, u);
        if u < PAGES { AsideLookup(s, t, f.value, d, u); }
      }
      return NoTable(f.value);
    }
  
    // allocuvm's way out at page a: s at the beginning, s1 before the page that failed
    method RollBack(d: nat, oldsz: nat, newsz: nat, r: AddResult, ghost s: State, ghost s1: State, ghost a: nat)
      requires Valid() && Aspace(S(), d) && oldsz < newsz < KERNBASE && Ok(s) && Aspace(s, d)
      requires Allotted(s, s1, d, UpToPage(oldsz), a) && a <= UpToPage(newsz)
      requires NoneMapped(s, d, UpToPage(oldsz), UpToPage(newsz))
      requires (r.NoMemory? && S() == s1) || (r.NoTable? && InHand(s1, S(), d, r.f))
      modifies this, mem
      ensures Valid() && Aspace(S(), d) && Grown(s, S(), d, None) && LookupsKept(s, S(), d)
    {
      ghost var t, lo, hi := S(), UpToPage(oldsz), UpToPage(newsz);
      var sz := DeallocUvm(d, newsz, oldsz);
      if r.NoTable? {
        HandKept(s, s1, t, S(), d, lo, a, hi, r.f);
        HandDropped(s, S(), d, r.f);
        var freed := Kfree(r.f);
      } else {
        AllottedDropped(s, s1, S(), d, lo, a, hi);
      }
    }

    /**
     allocuvm: new zeroed pages from oldsz up to newsz, writable for the user; or, when memory runs out,
     the mapping as it was, with every page given back but for some empty tables.
     */
    method AllocUvm(d: nat, oldsz: nat, newsz: nat) returns (sz: nat, ok: bool)
      requires Valid() && Aspace(S(), d)
      requires newsz < KERNBASE ==> NoneMapped(S(), d, UpToPage(oldsz), UpToPage(newsz))
      modifies this, mem
      ensures Valid() && Aspace(S(), d) && (!ok ==> sz == 0)
      ensures newsz >= KERNBASE ==> !ok && S() == old(S())
      ensures newsz < oldsz && newsz < KERNBASE ==> ok && sz == oldsz && S() == old(S())
      ensures ok && oldsz <= newsz ==>
                sz == newsz && NewPages(old(S()), S(), d, UpToPage(oldsz), UpToPage(newsz), Source.Zeros)
      ensures !ok && newsz < KERNBASE ==>
                && Grown(old(S()), S(), d, None) && LookupsKept(old(S()), S(), d)
                && |old(free)| < 2 * (UpToPage(newsz) - UpToPage(oldsz))
    {
      if newsz >= KERNBASE {
        return 0, false;
      }
      if newsz < oldsz {
        return oldsz, true;
      }
      ghost var s, lo, hi := S(), UpToPage(oldsz), UpToPage(newsz);
      var a := UpToPage(oldsz);
      AllottedNone(s, d, a);
      while PGSIZE * a < newsz
        invariant Valid() && Aspace(S(), d) && lo <= a <= hi && NewPages(s, S(), d, lo, a, Source.Zeros)
        invariant |free| + 2 * (a - lo) >= |s.free|
      {
        ghost var s1 := S();
        assert OldAt(s, s1, d, lo, a, a) && Unmapped(s, d, a);
        var r := AddPage(d, a, Filled(0), PTE_W + PTE_U);
        if !r.Added? {
          if r.NoTable? { LoadedInHand(s1, Filled(0), S(), d); }
          RollBack(d, oldsz, newsz, r, s, s1, a);
          return 0, false;
        }
        NewStep(s, s1, S(), d, lo, a, Source.Zeros);
        a := a + 1;
      }
      return newsz, true;
    }
  
    // the table behind entry i of the directory, if there is one
    method FreeTable(d: nat, i: nat, ghost s: State)
      requires Valid() && Ok(s) && Aspace(s, d) && i < NENTRIES && Half(s, S(), d, i)
      modifies this, mem
      ensures Valid() && Half(s, S(), d, i + 1)
    {
      ghost var t := S();
      if Present(mem[d][i]) {
        HalfFree(s, t, d, i);
        use := Bury(t, d, i).use;
        assert S() == Bury(t, d, i);
        BuryOk(t, d, i);
        var ok := Kfree(Frame(mem[d][i]));
      } else {
        HalfSkip(s, t, d, i);
        use := Bury(t, d, i).use;
        assert S() == Bury(t, d, i);
      }
    }

    /** freevm: the user pages, the tables and the directory of d go to the free list, and no other page. */
    method FreeVm(d: nat)
      requires Valid() && Aspace(S(), d)
      modifies this, mem
      ensures Valid() && Released(old(S()), S(), d)
    {
      ghost var s := S();
      var sz := DeallocUvm(d, KERNBASE, 0);
      HalfBegins(s, S(), d);
      var i := 0;
      while i < NENTRIES
        invariant Valid() && i <= NENTRIES && Half(s, S(), d, i)
      {
        FreeTable(d, i, s);
        i := i + 1;
      }
      ghost var t := S();
      HalfEnds(s, t, d);
      BuriedOk(t, d);
      use := use[d := Held];
      assert S() == WithUse(t, d, Held);
      var ok := Kfree(d);
    }
  
    // a page for a new directory
    method NewDir() returns (d: Option<nat>)
      requires Valid()
      modifies this, mem
      ensures Valid() && (d.None? ==> S() == old(S()) && old(free) == [])
      ensures d.Some? ==>
                && old(free) != [] && Is(old(S()), d.value, Free(|old(free)| - 1)) && Aspace(S(), d.value)
                && Confined(old(S()), S(), d.value, {})
                && KernelOnly(S(), d.value, []) && |free| + 1 == |old(free)|
    {
      ghost var s := S();
      d := Kalloc();
      if d.None? {
        return;
      }
      mem[d.value] := Filled(0);
      LoadedOk(s, Filled(0));
      assert S() == Loaded(s, Filled(0));
      DirOk(S(), d.value);
      use := use[d.value := Dir(0)];
      assert S() == WithUse(Loaded(s, Filled(0)), d.value, Dir(0));
    }

    /** setupkvm: a directory that maps what kmap says; or no change when memory runs out. */
    method SetupKvm(kmap: seq<Kmap>) returns (d: Option<nat>)
      requires Valid() && KmapOk(kmap)
      modifies this, mem
      ensures Valid()
      ensures d.None? ==> Restored(old(S()), S()) && |old(free)| <= KmapSize(kmap)
      ensures d.Some? ==>
                && old(free) != [] && Is(old(S()), d.value, Free(|old(free)| - 1)) && Aspace(S(), d.value)
                && Confined(old(S()), S(), d.value, {})
                && KernelOnly(S(), d.value, kmap) && |free| + 1 + KmapSize(kmap) >= |old(free)|
    {
      ghost var s := S();
      d := NewDir();
      if d.None? {
        return;
      }
      var k := 0;
      assert kmap[..0] == [];
      while k < |kmap|
        invariant k <= |kmap| && Valid() && Aspace(S(), d.value) && Confined(s, S(), d.value, {})
        invariant KernelOnly(S(), d.value, kmap[..k]) && |free| + 1 + KmapSize(kmap[..k]) >= |s.free|
      {
        ghost var t := S();
        var e := kmap[k];
        assert LineOk(e) && kmap[..k + 1][..k] == kmap[..k];
        forall v: nat | e.page <= v <= e.page + e.n - 1 ensures Lookup(t, d.value, v) == None {
          KernelNext(t, d.value, kmap, k, v);
        }
        var ok := MapPages(d.value, e.page, e.page + e.n - 1, e.frame, e.perm);
        GrownConfined(t, S(), d.value);
        ConfinedThen(s, t, S(), d.value, {});
        if !ok {
          ghost var t1 := S();
          FreeVm(d.value);
          MadeAndReleased(s, t1, S(), d.value);
          KmapGrows(kmap, k + 1);
          return None;
        }
        KernelStep(t, S(), d.value, kmap, k);
        k := k + 1;
      }
      assert kmap[..|kmap|] == kmap;
    }
  
    // copyuvm's way out: s at the beginning, s2 before the page that failed
    method GiveUp(c: nat, r: AddResult, ghost s: State, ghost s2: State)
      requires Valid() && Aspace(S(), c) && Ok(s) && Ok(s2) && Managed(s, c) && c in s.use && s.use[c].Free?
      requires Confined(s, s2, c, {})
      requires (r.NoMemory? && S() == s2) || (r.NoTable? && InHand(s2, S(), c, r.f))
      modifies this, mem
      ensures Valid() && Restored(s, S())
    {
      if r.NoTable? {
        HandDropped(s2, S(), c, r.f);
        var freed := Kfree(r.f);
        GrownConfined(s2, S(), c);
        ConfinedThen(s, s2, S(), c, {});
      }
      ghost var t := S();
      FreeVm(c);
      MadeAndReleased(s, t, S(), c);
    }

    // the body of copyuvm's loop: page v of d is copied to c
    method CopyPage(d: nat, c: nat, v: nat, ghost s: State) returns (r: AddResult)
      requires Valid() && Aspace(S(), d) && Aspace(S(), c) && v < USER_PAGES && Lookup(S(), c, v) == None
      requires Ok(s) && Aspace(s, d) && Confined(s, S(), c, {}) && c in s.use && s.use[c].Free? && Lookup(s, d, v).Some?
      modifies this, mem
      ensures Valid() && Aspace(S(), c)
      ensures r.NoMemory? ==> S() == old(S())
      ensures r.Added? ==> Allotted(old(S()), S(), c, v, v + 1) && NewFrom(old(S()), S(), c, Copy(s, d), v)
      ensures r.NoTable? ==> InHand(old(S()), S(), c, r.f)
      ensures |free| + 2 >= |old(free)| && (!r.Added? ==> |old(free)| <= 1)
    {
      ghost var s2 := S();
      SourcePage(s, s2, c, d, v);
      var t := Walk(d, v, false);
      assert t.Some?;
      LookupTable(s2, d, v);
      var w := mem[t.value][Ptx(v)];
      PresentFlag(w);
      r := AddPage(c, v, mem[Frame(w)], Flags(w));
      if r.NoTable? {
        LoadedInHand(s2, PageFrom(Copy(s, d), v), S(), c);
      }
    }

    // whether copyuvm finds an entry for page v of d, and finds it present, while it makes c
    method SourceHas(d: nat, ghost c: nat, v: nat, ghost s: State) returns (b: bool)
      requires Valid() && Aspace(S(), d) && v < USER_PAGES
      requires Ok(s) && Aspace(s, d) && Confined(s, S(), c, {}) && c in s.use && s.use[c].Free?
      modifies this, mem
      ensures S() == old(S()) && Valid() && (b <==> Lookup(s, d, v).Some?)
    {
      OtherSpace(s, S(), c, {}, d, v);
      var t := Walk(d, v, false);
      if t.Some? {
        LookupTable(S(), d, v);
        b := Present(mem[t.value][Ptx(v)]);
      } else {
        b := false;
      }
    }

    // copyuvm, begun in s, has made c, in s1, and copied i pages of d to it
    ghost predicate Copying(s: State, s1: State, d: nat, c: nat, i: nat)
      reads this, mem
    {
      && Valid() && Aspace(S(), c) && Aspace(S(), d) && NewPages(s1, S(), c, 0, i, Copy(s, d)) && AllMapped(s, d, i)
      && Confined(s, S(), c, {}) && |free| + 2 * i >= |s1.free|
    }

    // one page more, or, when memory runs out, everything is given back
    method CopyNext(d: nat, c: nat, i: nat, ghost s: State, ghost s1: State, ghost kmap: seq<Kmap>) returns (ok: bool)
      requires Copying(s, s1, d, c, i) && i < USER_PAGES && Lookup(s, d, i).Some?
      requires Ok(s) && Aspace(s, d) && Ok(s1) && Aspace(s1, c) && Managed(s, c) && c in s.use && s.use[c].Free?
      requires KmapOk(kmap) && KernelOnly(s1, c, kmap)
      modifies this, mem
      ensures ok ==> Copying(s, s1, d, c, i + 1)
      ensures !ok ==> Valid() && Restored(s, S()) && |old(free)| <= 1
    {
      ghost var s2 := S();
      UserPartEmpty(s1, s2, c, kmap, i);
      var r := CopyPage(d, c, i, s);
      ok := r.Added?;
      if !ok {
        GiveUp(c, r, s, s2);
        return;
      }
      NewStep(s1, s2, S(), c, 0, i, Copy(s, d));
      AllottedConfined(s2, S(), c, i, i + 1);
      ConfinedThen(s, s2, S(), c, {});
      OtherSpace(s, S(), c, {}, d, 0);
    }

    /**
     copyuvm: a new address space with the contents and flags of the first sz bytes of d, on frames of
     its own; or no change when memory runs out; or a panic, only when one of those pages is not mapped.
     */
    method CopyUvm(d: nat, sz: nat, kmap: seq<Kmap>) returns (r: CopyResult)
      requires Valid() && Aspace(S(), d) && KmapOk(kmap) && sz <= KERNBASE
      modifies this, mem
      ensures r.Panic? ==> !AllMapped(old(S()), d, UpToPage(sz))
      ensures !r.Panic? ==> Valid()
      ensures r.Space? ==>
                && AllMapped(old(S()), d, UpToPage(sz))
                && old(free) != [] && Is(old(S()), r.c, Free(|old(free)| - 1)) && Aspace(S(), r.c)
                && Copied(old(S()), S(), d, r.c, UpToPage(sz), kmap)
      ensures r.OutOfMemory? ==> Restored(old(S()), S()) && |old(free)| < 1 + KmapSize(kmap) + 2 * UpToPage(sz)
    {
      ghost var s, n := S(), UpToPage(sz);
      var c := SetupKvm(kmap);
      if c.None? {
        return OutOfMemory;
      }
      ghost var s1 := S();
      var i := 0;
      AllottedNone(s1, c.value, 0);
      OtherSpace(s, s1, c.value, {}, d, 0);
      while PGSIZE * i < sz
        invariant i <= n && Copying(s, s1, d, c.value, i)
      {
        var there := SourceHas(d, c.value, i, s);
        if !there {
          return Panic;
        }
        var added := CopyNext(d, c.value, i, s, s1, kmap);
        if !added {
          return OutOfMemory;
        }
        i := i + 1;
      }
      CopyDone(s, s1, S(), d, c.value, n, kmap);
      return Space(c.value);
    }
  }
}
