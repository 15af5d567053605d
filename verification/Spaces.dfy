// What the operations on an address space do to the pages of memory and to what is mapped, as
// relations between two states, and how they compose.
module Spaces {
  import opened Wrappers
  import opened Blocks
  import opened Paging

  // a page of directory d, or one that the running operation has in hand
  predicate Ours(u: Use, f: nat, d: nat, hand: set<nat>) {
    f == d || f in hand || (u.Table? && u.d == d) || (u.User? && u.d == d)
  }

  // pages of others keep use and contents
  ghost predicate KeptAt(s: State, s': State, d: nat, hand: set<nat>, f: nat) {
    Managed(s, f) && f in s.use && !s.use[f].Free? && !Ours(s.use[f], f, d, hand) ==>
      Managed(s', f) && f in s'.use && s'.use[f] == s.use[f] && s'.mem[f] == s.mem[f]
  }

  // pages go between the free list and us
  ghost predicate OursAt(s: State, s': State, d: nat, hand: set<nat>, f: nat) {
    Managed(s, f) && f in s.use && f in s'.use && (s.use[f].Free? || Ours(s.use[f], f, d, hand)) ==>
      s'.use[f].Free? || Ours(s'.use[f], f, d, hand)
  }

  /** Only pages of d, those in hand and free ones change. */
  ghost predicate Confined(s: State, s': State, d: nat, hand: set<nat>) {
    && |s'.mem| == |s.mem| && s'.first == s.first
    && (forall f: nat {:trigger KeptAt(s, s', d, hand, f)} :: KeptAt(s, s', d, hand, f))
    && (forall f: nat {:trigger OursAt(s, s', d, hand, f)} :: OursAt(s, s', d, hand, f))
  }

  lemma ConfinedThen(s: State, t: State, u: State, d: nat, hand: set<nat>)
    requires Ok(s) && Ok(t) && Confined(s, t, d, hand) && Confined(t, u, d, hand)
    ensures Confined(s, u, d, hand)
  {
    forall f: nat ensures KeptAt(s, u, d, hand, f) && OursAt(s, u, d, hand, f) {
      assert KeptAt(s, t, d, hand, f) && OursAt(s, t, d, hand, f) && KeptAt(t, u, d, hand, f)
             && OursAt(t, u, d, hand, f);
      assert FrameOk(t, f);
    }
  }

  /** Page v of the address space d is what it was, contents too. */
  ghost predicate SamePage(s: State, s': State, d: nat, v: nat) {
    v < PAGES ==>
      var w := Lookup(s, d, v);
      && Lookup(s', d, v) == w
      && (v < USER_PAGES && w.Some? ==> Frame(w.value) < |s.mem| == |s'.mem|
                                        && s'.mem[Frame(w.value)] == s.mem[Frame(w.value)])
  }

  /** An operation on d leaves every other address space alone. */
  lemma OtherSpace(s: State, s': State, d: nat, hand: set<nat>, e: nat, v: nat)
    requires Ok(s) && Confined(s, s', d, hand) && Aspace(s, e) && e != d && e !in hand
    requires d in s.use && (s.use[d].Dir? || Idle(s.use[d]))
    requires forall f :: f in hand ==> Managed(s, f) && f in s.use && Idle(s.use[f])
    ensures Aspace(s', e) && SamePage(s, s', e, v)
  {
    assert KeptAt(s, s', d, hand, e);
    if v < PAGES {
      if Present(s.mem[e][Pdx(v)]) {
        LookupTable(s, e, v);
        assert KeptAt(s, s', d, hand, Frame(s.mem[e][Pdx(v)]));
      }
      LookupSame(s, s', e, v);
      if v < USER_PAGES && Lookup(s, e, v).Some? {
        LookupUser(s, e, v);
        assert KeptAt(s, s', d, hand, Frame(Lookup(s, e, v).value));
      }
    }
  }

  // ---------------------------------------------------------------- growing tables

  // only tables of d come to be; d and its tables get entries
  ghost predicate GrownAt(s: State, s': State, d: nat, f: nat) {
    Managed(s, f) && f in s.use ==>
      && Managed(s', f) && f in s'.use
      && (s.use[f].Free? ==> s'.use[f].Free? || (s'.use[f].Table? && s'.use[f].d == d))
      && (!s.use[f].Free? ==> s'.use[f] == s.use[f])
      && (!s.use[f].Free? && f != d && !(s.use[f].Table? && s.use[f].d == d) ==> s'.mem[f] == s.mem[f])
  }

  ghost predicate MappedAt(s: State, s': State, d: nat, f: nat) {
    && Managed(s, f) && Managed(s', f) && f in s'.use && s'.use[f].User? && s'.use[f].d == d && s'.mem[f] == s.mem[f]
  }

  // the same, but the page x in hand has become a user page of d
  ghost predicate Grown(s: State, s': State, d: nat, x: Option<nat>) {
    && |s'.mem| == |s.mem| && s'.first == s.first
    && (forall f: nat {:trigger GrownAt(s, s', d, f)} :: x == Some(f) || GrownAt(s, s', d, f))
    && (x.Some? ==> Is(s, x.value, Held) && MappedAt(s, s', d, x.value))
  }

  lemma GrownThen(s: State, t: State, u: State, d: nat, x: Option<nat>)
    requires Ok(s) && Grown(s, t, d, None) && Grown(t, u, d, x) && (x.Some? ==> Is(s, x.value, Held) && x.value != d)
    ensures Grown(s, u, d, x)
  {
    forall f: nat ensures x == Some(f) || GrownAt(s, u, d, f) {
      assert GrownAt(s, t, d, f) && (x == Some(f) || GrownAt(t, u, d, f));
    }
    if x.Some? { assert GrownAt(s, t, d, x.value); }
  }

  ghost predicate LookupKept(s: State, s': State, d: nat, v: nat) {
    v < PAGES ==> Lookup(s', d, v) == Lookup(s, d, v)
  }

  ghost predicate LookupsKept(s: State, s': State, d: nat) {
    forall v: nat {:trigger LookupKept(s, s', d, v)} :: LookupKept(s, s', d, v)
  }

  // a page from the free list, filled with p
  ghost function Loaded(s: State, p: Page): State
    requires s.free != [] && s.free[|s.free| - 1] < |s.mem|
  {
    WithPage(Popped(s), s.free[|s.free| - 1], p)
  }

  lemma LoadedOk(s: State, p: Page)
    requires Ok(s) && s.free != []
    ensures Is(s, s.free[|s.free| - 1], Free(|s.free| - 1)) && Ok(Loaded(s, p))
    ensures Is(Loaded(s, p), s.free[|s.free| - 1], Held)
    ensures Aside(s, Loaded(s, p), s.free[|s.free| - 1])
  {
    PoppedOk(s);
    FilledOk(Popped(s), s.free[|s.free| - 1], p);
  }

  // a new, empty table
  lemma NewTable(s: State, d: nat, i: nat, w: Word, v: nat)
    requires Ok(s) && Aspace(s, d) && s.free != [] && i < NENTRIES && !Present(s.mem[d][i])
    requires Present(w) && Frame(w) == s.free[|s.free| - 1]
    ensures s.free[|s.free| - 1] < |s.mem|
    ensures var s' := AddTable(Loaded(s, Filled(0)), d, i, Frame(w), w);
            Ok(s') && Grown(s, s', d, None) && Is(s', Frame(w), Table(d, i)) && Aspace(s', d) && LookupKept(s, s', d, v)
  {
    LoadedOk(s, Filled(0));
    if v < PAGES { AsideLookup(s, Loaded(s, Filled(0)), Frame(w), d, v); }
    AddTableOk(Loaded(s, Filled(0)), d, i, Frame(w), w);
    if v < PAGES { AddTableLookup(Loaded(s, Filled(0)), d, i, Frame(w), w, d, v); }
    var s' := AddTable(Loaded(s, Filled(0)), d, i, Frame(w), w);
    forall f: nat ensures GrownAt(s, s', d, f) {
    }
  }

  // what page u is mapped to once the pages lo .. hi - 1 are mapped to the frames from f on
  ghost predicate MapsAt(s: State, s': State, d: nat, lo: nat, hi: nat, f: nat, perm: nat, u: nat) {
    u < PAGES && f + (hi - lo) <= PAGES && perm < 4096 ==>
      Lookup(s', d, u) == if lo <= u < hi then Some(Pte(f + (u - lo), perm)) else Lookup(s, d, u)
  }

  ghost predicate Maps(s: State, s': State, d: nat, lo: nat, hi: nat, f: nat, perm: nat) {
    forall u: nat {:trigger MapsAt(s, s', d, lo, hi, f, perm, u)} :: MapsAt(s, s', d, lo, hi, f, perm, u)
  }

  lemma MapsThen(s: State, t: State, u: State, d: nat, lo: nat, a: nat, f: nat, perm: nat)
    requires lo <= a < PAGES && f + (a - lo) < PAGES && perm < 4096
    requires Maps(s, t, d, lo, a, f, perm) && Maps(t, u, d, a, a + 1, f + (a - lo), perm)
    ensures Maps(s, u, d, lo, a + 1, f, perm)
  {
    var hi, g := a + 1, f + (a - lo);
    forall v: nat ensures MapsAt(s, u, d, lo, hi, f, perm, v) {
      assert MapsAt(s, t, d, lo, a, f, perm, v) && MapsAt(t, u, d, a, hi, g, perm, v);
    }
  }

  // entry j of table t is set to w
  ghost function Entered(s: State, t: nat, j: nat, w: Word): State
    requires t < |s.mem| && j < NENTRIES && t in s.use && s.use[t].Table?
  {
    if s.use[t].i < USER_ENTRIES then AddUser(s, t, j, w) else WithWord(s, t, j, w)
  }

  lemma EnteredOk(s: State, d: nat, t: nat, v: nat, f: nat, perm: nat)
    requires Ok(s) && Aspace(s, d) && v < PAGES && Is(s, t, Table(d, Pdx(v))) && f < PAGES && perm < 4096
    requires !Present(s.mem[t][Ptx(v)]) && (v < USER_PAGES ==> Is(s, f, Held))
    ensures var s' := Entered(s, t, Ptx(v), Pte(f, perm));
            Ok(s') && Aspace(s', d) && Grown(s, s', d, if v < USER_PAGES then Some(f) else None)
            && Maps(s, s', d, v, v + 1, f, perm)
  {
    var w, j := Pte(f, perm), Ptx(v);
    var s' := Entered(s, t, j, w);
    if v < USER_PAGES {
      AddUserOk(s, t, j, w);
    } else {
      AddKernelOk(s, t, j, w);
    }
    forall g: nat ensures g == f || GrownAt(s, s', d, g) {
    }
    var hi := v + 1;
    forall u: nat ensures MapsAt(s, s', d, v, hi, f, perm, u) {
      if u < PAGES {
        StoreLookup(s, t, j, w, d, u);
        if Pdx(u) == Pdx(v) && Ptx(u) == Ptx(v) { PageIndices(u, v); }
      }
    }
  }

  // ---------------------------------------------------------------- unmapping

  // frame f once the user pages lo .. hi - 1 of d are gone
  ghost predicate DropAt(s: State, s': State, d: nat, lo: nat, hi: nat, f: nat) {
    Managed(s, f) && f in s.use ==>
      && Managed(s', f) && f in s'.use
      && if s.use[f].Free? || (s.use[f].User? && s.use[f].d == d && lo <= 1024 * s.use[f].i + s.use[f].j < hi)
      then s'.use[f].Free?
         else s'.use[f] == s.use[f] && ((s.use[f].Table? && s.use[f].d == d) || s'.mem[f] == s.mem[f])
  }

  ghost predicate UnmapAt(s: State, s': State, d: nat, lo: nat, hi: nat, v: nat) {
    v < PAGES ==> Lookup(s', d, v) == if lo <= v < hi then None else Lookup(s, d, v)
  }

  /** The user pages lo .. hi - 1 of d are unmapped and free, all else is as before. */
  ghost predicate Dropped(s: State, s': State, d: nat, lo: nat, hi: nat) {
    && |s'.mem| == |s.mem| && s'.first == s.first
    && (forall f: nat {:trigger DropAt(s, s', d, lo, hi, f)} :: DropAt(s, s', d, lo, hi, f))
    && (forall v: nat {:trigger UnmapAt(s, s', d, lo, hi, v)} :: UnmapAt(s, s', d, lo, hi, v))
  }

  lemma DroppedThen(s: State, t: State, u: State, d: nat, lo: nat, a: nat, hi: nat)
    requires Dropped(s, t, d, lo, a) && Dropped(t, u, d, a, hi) && lo <= a <= hi
    ensures Dropped(s, u, d, lo, hi)
  {
    forall f: nat ensures DropAt(s, u, d, lo, hi, f) {
      assert DropAt(s, t, d, lo, a, f) && DropAt(t, u, d, a, hi, f);
    }
    forall v: nat ensures UnmapAt(s, u, d, lo, hi, v) {
      assert UnmapAt(s, t, d, lo, a, v) && UnmapAt(t, u, d, a, hi, v);
    }
  }

  ghost predicate Unmapped(s: State, d: nat, v: nat) {
    v < PAGES ==> Lookup(s, d, v) == None
  }

  // where nothing is mapped, there is nothing to drop
  lemma DroppedNone(s: State, d: nat, lo: nat, hi: nat)
    requires Ok(s) && Aspace(s, d) && forall v: nat {:trigger Unmapped(s, d, v)} :: lo <= v < hi ==> Unmapped(s, d, v)
    ensures Dropped(s, s, d, lo, hi)
  {
    forall f: nat ensures DropAt(s, s, d, lo, hi, f) {
      if Managed(s, f) && f in s.use && s.use[f].User? && s.use[f].d == d {
        UserLookup(s, f);
        assert Unmapped(s, d, 1024 * s.use[f].i + s.use[f].j) || !(lo <= 1024 * s.use[f].i + s.use[f].j < hi);
      }
    }
    forall v: nat ensures UnmapAt(s, s, d, lo, hi, v) {
      assert lo <= v < hi ==> Unmapped(s, d, v);
    }
  }

  // page v of d goes to the free list
  ghost function OneDropped(s: State, t: nat, j: nat): State
    requires t < |s.mem| && j < NENTRIES && Frame(s.mem[t][j]) < |s.mem|
    requires (s.free != [] ==> s.free[|s.free| - 1] < USER_PAGES)
  {
    Pushed(DropUser(s, t, j), Frame(s.mem[t][j]))
  }

  lemma OneDroppedOk(s: State, d: nat, t: nat, v: nat)
    requires Ok(s) && Aspace(s, d) && v < USER_PAGES && Is(s, t, Table(d, Pdx(v))) && Present(s.mem[t][Ptx(v)])
    requires s.free != [] ==> s.free[|s.free| - 1] < USER_PAGES
    ensures Is(s, Frame(s.mem[t][Ptx(v)]), User(d, Pdx(v), Ptx(v)))
    ensures var s' := OneDropped(s, t, Ptx(v)); Ok(s') && Aspace(s', d) && Dropped(s, s', d, v, v + 1)
  {
    var j, hi := Ptx(v), v + 1;
    DropUserOk(s, t, j);
    var s1, u := DropUser(s, t, j), Frame(s.mem[t][j]);
    PushedOk(s1, u);
    var s' := OneDropped(s, t, j);
    assert FrameOk(s, t);
    forall f: nat ensures DropAt(s, s', d, v, hi, f) {
      OnlyUser(s, d, v, f);
    }
    forall w: nat ensures UnmapAt(s, s', d, v, hi, w) {
      if w < PAGES {
        StoreLookup(s, t, j, 0, d, w);
        if Pdx(w) == Pdx(v) && Ptx(w) == Ptx(v) { PageIndices(w, v); }
        assert Aside(s1, s', u);
        AsideLookup(s1, s', u, d, w);
      }
    }
  }

  // the frame of a user page is the only one with that use
  lemma OnlyUser(s: State, d: nat, v: nat, f: nat)
    requires Ok(s) && v < USER_PAGES
    ensures Managed(s, f) && f in s.use && s.use[f].User? && v == 1024 * s.use[f].i + s.use[f].j ==>
              s.use[f] == User(s.use[f].d, Pdx(v), Ptx(v))
    ensures Managed(s, f) && f in s.use && s.use[f] == User(d, Pdx(v), Ptx(v)) ==>
              d < |s.mem| && Frame(s.mem[d][Pdx(v)]) < |s.mem| && Frame(s.mem[Frame(s.mem[d][Pdx(v)])][Ptx(v)]) == f
  {
    assert FrameOk(s, f);
  }

  // ---------------------------------------------------------------- adding user pages

  // frame f once new user pages lo .. hi - 1 of d are there
  ghost predicate AllotAt(s: State, s': State, d: nat, lo: nat, hi: nat, f: nat) {
    Managed(s, f) && f in s.use ==>
      && Managed(s', f) && f in s'.use
      && (s.use[f].Free? ==>
            || s'.use[f].Free? || (s'.use[f].Table? && s'.use[f].d == d)
            || (s'.use[f].User? && s'.use[f].d == d && lo <= 1024 * s'.use[f].i + s'.use[f].j < hi))
      && (!s.use[f].Free? ==> s'.use[f] == s.use[f])
      && (!s.use[f].Free? && f != d && !(s.use[f].Table? && s.use[f].d == d) ==> s'.mem[f] == s.mem[f])
  }

  // page u is mapped to a frame that was free, with contents p and flags
  ghost predicate NewAt(s: State, s': State, d: nat, u: nat, p: Page, flags: nat) {
    && u < USER_PAGES && Lookup(s', d, u).Some?
    && var w := Lookup(s', d, u).value;
       && Managed(s, Frame(w)) && Frame(w) in s.use && s.use[Frame(w)].Free?
       && Managed(s', Frame(w)) && s'.mem[Frame(w)] == p && Flags(w) == flags
  }

  ghost predicate OldAt(s: State, s': State, d: nat, lo: nat, hi: nat, u: nat) {
    lo <= u < hi || LookupKept(s, s', d, u)
  }

  /** New user pages lo .. hi - 1 of d; all else is as before. */
  ghost predicate Allotted(s: State, s': State, d: nat, lo: nat, hi: nat) {
    && |s'.mem| == |s.mem| && s'.first == s.first
    && (forall f: nat {:trigger AllotAt(s, s', d, lo, hi, f)} :: AllotAt(s, s', d, lo, hi, f))
    && (forall u: nat {:trigger OldAt(s, s', d, lo, hi, u)} :: OldAt(s, s', d, lo, hi, u))
  }

  lemma AllottedThen(s: State, t: State, u: State, d: nat, lo: nat, a: nat, hi: nat)
    requires Allotted(s, t, d, lo, a) && Allotted(t, u, d, a, hi) && lo <= a <= hi
    ensures Allotted(s, u, d, lo, hi)
  {
    forall f: nat ensures AllotAt(s, u, d, lo, hi, f) {
      assert AllotAt(s, t, d, lo, a, f) && AllotAt(t, u, d, a, hi, f);
    }
    forall v: nat ensures OldAt(s, u, d, lo, hi, v) {
      assert OldAt(s, t, d, lo, a, v) && OldAt(t, u, d, a, hi, v);
    }
  }

  // a page made before stays
  lemma NewThen(s: State, t: State, s': State, d: nat, lo: nat, hi: nat, u: nat, p: Page, flags: nat)
    requires Ok(t) && Aspace(t, d) && NewAt(s, t, d, u, p, flags) && Allotted(t, s', d, lo, hi) && !(lo <= u < hi)
    ensures NewAt(s, s', d, u, p, flags)
  {
    LookupUser(t, d, u);
    assert OldAt(t, s', d, lo, hi, u) && AllotAt(t, s', d, lo, hi, Frame(Lookup(t, d, u).value));
  }

  lemma AllottedConfined(s: State, s': State, d: nat, lo: nat, hi: nat)
    requires Ok(s) && Allotted(s, s', d, lo, hi)
    ensures Confined(s, s', d, {})
  {
    forall f: nat ensures KeptAt(s, s', d, {}, f) && OursAt(s, s', d, {}, f) {
      assert AllotAt(s, s', d, lo, hi, f);
    }
  }

  lemma AllottedNone(s: State, d: nat, lo: nat)
    ensures Allotted(s, s, d, lo, lo)
  {
  }

  // ---------------------------------------------------------------- releasing an address space

  /** All pages of d are free, and no other page has changed. */
  ghost predicate FreedAt(s: State, s': State, d: nat, f: nat) {
    Managed(s, f) && f in s.use ==>
      && Managed(s', f) && f in s'.use
      && if s.use[f].Free? || Ours(s.use[f], f, d, {}) then s'.use[f].Free?
      else s'.use[f] == s.use[f] && s'.mem[f] == s.mem[f]
  }

  ghost predicate Released(s: State, s': State, d: nat) {
    && |s'.mem| == |s.mem| && s'.first == s.first
    && forall f: nat {:trigger FreedAt(s, s', d, f)} :: FreedAt(s, s', d, f)
  }

  // on the way: user pages and the tables below i are free
  ghost predicate HalfAt(s: State, s': State, d: nat, i: nat, f: nat) {
    Managed(s, f) && f in s.use ==>
      && Managed(s', f) && f in s'.use
      && if f == d then s'.use[f] == Dir(i) && s'.mem[f] == s.mem[f]
         else if s.use[f].Free? || (s.use[f].User? && s.use[f].d == d)
                 || (s.use[f].Table? && s.use[f].d == d && s.use[f].i < i)
         then s'.use[f].Free?
         else s'.use[f] == s.use[f] && ((s.use[f].Table? && s.use[f].d == d) || s'.mem[f] == s.mem[f])
  }

  ghost predicate Half(s: State, s': State, d: nat, i: nat) {
    && |s'.mem| == |s.mem| && s'.first == s.first && i <= NENTRIES && Is(s', d, Dir(i)) && NoUsers(s', d)
    && forall f: nat {:trigger HalfAt(s, s', d, i, f)} :: HalfAt(s, s', d, i, f)
  }

  lemma HalfBegins(s: State, s': State, d: nat)
    requires Ok(s) && Ok(s') && Aspace(s, d) && Aspace(s', d) && Dropped(s, s', d, 0, USER_PAGES)
    ensures Half(s, s', d, 0)
  {
    forall f: nat ensures HalfAt(s, s', d, 0, f) {
      assert DropAt(s, s', d, 0, USER_PAGES, f) && FrameOk(s, f);
    }
    forall f | f in s'.use && Managed(s', f) && s'.use[f].User? ensures s'.use[f].d != d {
      assert DropAt(s, s', d, 0, USER_PAGES, f) && FrameOk(s, f);
    }
  }

  // the next entry: absent, or its table is freed
  lemma HalfSkip(s: State, t: State, d: nat, i: nat)
    requires Ok(s) && Ok(t) && Aspace(s, d) && i < NENTRIES && Half(s, t, d, i) && !Present(t.mem[d][i])
    ensures Ok(Bury(t, d, i)) && Half(s, Bury(t, d, i), d, i + 1)
  {
    BuryOk(t, d, i);
    var s', k := Bury(t, d, i), i + 1;
    assert HalfAt(s, t, d, i, d);
    forall f: nat ensures HalfAt(s, s', d, k, f) {
      assert HalfAt(s, t, d, i, f) && FrameOk(s, f);
    }
  }

  lemma HalfFree(s: State, t: State, d: nat, i: nat)
    requires Ok(s) && Ok(t) && Aspace(s, d) && i < NENTRIES && Half(s, t, d, i) && Present(t.mem[d][i])
    requires t.free != [] ==> t.free[|t.free| - 1] < USER_PAGES
    ensures Is(t, Frame(t.mem[d][i]), Table(d, i)) && Frame(t.mem[d][i]) != d
    ensures var s' := Pushed(Bury(t, d, i), Frame(t.mem[d][i])); Ok(s') && Half(s, s', d, i + 1)
  {
    BuryOk(t, d, i);
    var g, k := Frame(t.mem[d][i]), i + 1;
    var t1 := Bury(t, d, i);
    PushedOk(t1, g);
    var s' := Pushed(t1, g);
    assert HalfAt(s, t, d, i, d) && HalfAt(s, t, d, i, g) && FrameOk(s, g);
    forall f: nat ensures HalfAt(s, s', d, k, f) {
      assert HalfAt(s, t, d, i, f) && FrameOk(s, f);
    }
  }

  lemma HalfEnds(s: State, t: State, d: nat)
    requires Ok(s) && Ok(t) && Half(s, t, d, NENTRIES) && (t.free != [] ==> t.free[|t.free| - 1] < USER_PAGES)
    ensures var s' := Pushed(WithUse(t, d, Held), d); Ok(s') && Released(s, s', d)
  {
    BuriedOk(t, d);
    PushedOk(WithUse(t, d, Held), d);
    var s' := Pushed(WithUse(t, d, Held), d);
    forall f: nat ensures FreedAt(s, s', d, f) {
      assert HalfAt(s, t, d, NENTRIES, f) && FrameOk(s, f);
    }
  }

  /** What was free is free, and no other page has changed. */
  ghost predicate RestoredAt(s: State, s': State, f: nat) {
    Managed(s, f) && f in s.use ==>
      && Managed(s', f) && f in s'.use
      && if s.use[f].Free? then s'.use[f].Free? else s'.use[f] == s.use[f] && s'.mem[f] == s.mem[f]
  }

  ghost predicate Restored(s: State, s': State) {
    forall f: nat {:trigger RestoredAt(s, s', f)} :: RestoredAt(s, s', f)
  }

  // an address space made since s and released leaves no trace
  lemma MadeAndReleased(s: State, t: State, s': State, d: nat)
    requires Ok(s) && Ok(t) && d in s.use && s.use[d].Free? && Managed(s, d) && Confined(s, t, d, {})
    requires Released(t, s', d)
    ensures Restored(s, s')
  {
    forall f: nat ensures RestoredAt(s, s', f) {
      assert KeptAt(s, t, d, {}, f) && OursAt(s, t, d, {}, f) && FreedAt(t, s', d, f) && FrameOk(s, f) && FrameOk(t, f);
    }
  }

  lemma GrownConfined(s: State, s': State, d: nat)
    requires Grown(s, s', d, None)
    ensures Confined(s, s', d, {})
  {
    forall f: nat ensures KeptAt(s, s', d, {}, f) && OursAt(s, s', d, {}, f) {
      assert GrownAt(s, s', d, f);
    }
  }

  // a page new since t is new since s
  lemma NewSince(s: State, t: State, s': State, d: nat, lo: nat, a: nat, u: nat, p: Page, flags: nat)
    requires Ok(s) && Allotted(s, t, d, lo, a) && NewAt(t, s', d, u, p, flags)
    ensures NewAt(s, s', d, u, p, flags)
  {
    var f := Frame(Lookup(s', d, u).value);
    assert AllotAt(s, t, d, lo, a, f) && FrameOk(s, f);
  }

  // what new pages hold: zeros, writable by the user, or what the pages of another address space e hold
  datatype Source = Zeros | Copy(s: State, e: nat)

  ghost function PageFrom(src: Source, v: nat): Page {
    if src.Zeros? || v >= PAGES || Lookup(src.s, src.e, v).None? || Frame(Lookup(src.s, src.e, v).value) >= |src.s.mem|
    then Filled(0)
    else src.s.mem[Frame(Lookup(src.s, src.e, v).value)]
  }

  ghost function FlagsFrom(src: Source, v: nat): nat {
    if src.Zeros? || v >= PAGES || Lookup(src.s, src.e, v).None? then 7 else Flags(Lookup(src.s, src.e, v).value)
  }

  ghost predicate NewFrom(s: State, s': State, d: nat, src: Source, v: nat) {
    NewAt(s, s', d, v, PageFrom(src, v), FlagsFrom(src, v))
  }

  /** The pages lo .. hi - 1 are new and hold what the source says. */
  ghost predicate NewPages(s: State, s': State, d: nat, lo: nat, hi: nat, src: Source) {
    && Allotted(s, s', d, lo, hi)
    && forall v: nat {:trigger NewFrom(s, s', d, src, v)} :: lo <= v < hi ==> NewFrom(s, s', d, src, v)
  }

  lemma NewStep(s: State, t: State, s': State, d: nat, lo: nat, a: nat, src: Source)
    requires Ok(s) && Ok(t) && Aspace(t, d) && lo <= a && NewPages(s, t, d, lo, a, src)
    requires Allotted(t, s', d, a, a + 1) && NewFrom(t, s', d, src, a)
    ensures NewPages(s, s', d, lo, a + 1, src)
  {
    var b := a + 1;
    AllottedThen(s, t, s', d, lo, a, b);
    forall v: nat | lo <= v < b ensures NewFrom(s, s', d, src, v) {
      if v < a {
        assert NewFrom(s, t, d, src, v);
        NewThen(s, t, s', d, a, b, v, PageFrom(src, v), FlagsFrom(src, v));
      } else {
        NewSince(s, t, s', d, lo, a, a, PageFrom(src, a), FlagsFrom(src, a));
      }
    }
  }

  ghost predicate NoneMapped(s: State, d: nat, lo: nat, hi: nat) {
    forall v: nat {:trigger Unmapped(s, d, v)} :: lo <= v < hi ==> Unmapped(s, d, v)
  }

  // dropping what was added leaves the new tables
  lemma AllottedDropped(s: State, t: State, s': State, d: nat, lo: nat, a: nat, hi: nat)
    requires Ok(s) && Aspace(s, d) && Allotted(s, t, d, lo, a) && Dropped(t, s', d, lo, hi) && a <= hi
    requires NoneMapped(s, d, lo, hi)
    ensures Grown(s, s', d, None) && LookupsKept(s, s', d)
  {
    forall f: nat ensures GrownAt(s, s', d, f) {
      assert AllotAt(s, t, d, lo, a, f) && DropAt(t, s', d, lo, hi, f);
      UserOutside(s, d, lo, hi, f);
    }
    forall v: nat ensures LookupKept(s, s', d, v) {
      assert OldAt(s, t, d, lo, a, v) && UnmapAt(t, s', d, lo, hi, v) && (lo <= v < hi ==> Unmapped(s, d, v));
    }
  }

  lemma UserOutside(s: State, d: nat, lo: nat, hi: nat, f: nat)
    requires Ok(s) && Aspace(s, d) && NoneMapped(s, d, lo, hi)
    ensures Managed(s, f) && f in s.use && s.use[f].User? && s.use[f].d == d ==>
              !(lo <= 1024 * s.use[f].i + s.use[f].j < hi)
  {
    if Managed(s, f) && f in s.use && s.use[f].User? && s.use[f].d == d {
      UserLookup(s, f);
      var v := 1024 * s.use[f].i + s.use[f].j;
      assert lo <= v < hi ==> Unmapped(s, d, v);
    }
  }

  // the state in which mapping a page failed: s with a page in hand, perhaps a new table
  ghost predicate InHand(s: State, t: State, d: nat, f: nat) {
    && |t.mem| == |s.mem| && t.first == s.first && Is(t, f, Held) && f in s.use && s.use[f].Free?
    && (forall g: nat {:trigger GrownAt(s, t, d, g)} :: g == f || GrownAt(s, t, d, g)) && LookupsKept(s, t, d)
  }

  lemma LoadedInHand(s: State, p: Page, t: State, d: nat)
    requires Ok(s) && s.free != [] && Is(s, s.free[|s.free| - 1], Free(|s.free| - 1))
    requires Grown(Loaded(s, p), t, d, None) && LookupsKept(s, t, d)
    ensures InHand(s, t, d, s.free[|s.free| - 1])
  {
    var f := s.free[|s.free| - 1];
    LoadedOk(s, p);
    assert GrownAt(Loaded(s, p), t, d, f);
    forall g: nat ensures g == f || GrownAt(s, t, d, g) {
      assert GrownAt(Loaded(s, p), t, d, g);
    }
  }

  // giving the page in hand back
  lemma HandDropped(s: State, t: State, d: nat, f: nat)
    requires Ok(s) && Ok(t) && Aspace(t, d) && InHand(s, t, d, f)
    requires (t.free != [] ==> t.free[|t.free| - 1] < USER_PAGES)
    ensures Ok(Pushed(t, f)) && Aspace(Pushed(t, f), d) && Grown(s, Pushed(t, f), d, None)
    ensures LookupsKept(s, Pushed(t, f), d)
  {
    PushedOk(t, f);
    var s' := Pushed(t, f);
    forall g: nat ensures GrownAt(s, s', d, g) {
      assert g == f || GrownAt(s, t, d, g);
    }
    forall v: nat ensures LookupKept(s, s', d, v) {
      assert LookupKept(s, t, d, v);
      assert Aside(t, s', f);
      if v < PAGES { AsideLookup(t, s', f, d, v); }
    }
  }

  // dropping what was added, with a page in hand
  lemma HandKept(s: State, s1: State, t: State, t2: State, d: nat, lo: nat, a: nat, hi: nat, f: nat)
    requires Ok(s) && Aspace(s, d) && Allotted(s, s1, d, lo, a) && InHand(s1, t, d, f) && Dropped(t, t2, d, lo, hi)
    requires a <= hi && NoneMapped(s, d, lo, hi)
    ensures InHand(s, t2, d, f)
  {
    assert AllotAt(s, s1, d, lo, a, f) && DropAt(t, t2, d, lo, hi, f) && FrameOk(s, f);
    forall g: nat ensures g == f || GrownAt(s, t2, d, g) {
      if g != f {
        assert AllotAt(s, s1, d, lo, a, g) && GrownAt(s1, t, d, g) && DropAt(t, t2, d, lo, hi, g);
        UserOutside(s, d, lo, hi, g);
      }
    }
    forall v: nat ensures LookupKept(s, t2, d, v) {
      assert OldAt(s, s1, d, lo, a, v) && LookupKept(s1, t, d, v) && UnmapAt(t, t2, d, lo, hi, v)
             && (lo <= v < hi ==> Unmapped(s, d, v));
    }
  }

  // loading a page and mapping it
  lemma AddedPage(s: State, s': State, d: nat, v: nat, p: Page, perm: nat)
    requires Ok(s) && s.free != [] && Aspace(s, d) && v < USER_PAGES && perm < 4096
    requires Is(s, s.free[|s.free| - 1], Free(|s.free| - 1))
    requires var f := s.free[|s.free| - 1];
             Ok(s') && Aspace(s', d) && Grown(Loaded(s, p), s', d, Some(f))
             && Maps(Loaded(s, p), s', d, v, v + 1, f, perm)
    ensures Allotted(s, s', d, v, v + 1) && NewAt(s, s', d, v, p, if perm % 2 == 1 then perm else perm + 1)
  {
    var f, t, hi := s.free[|s.free| - 1], Loaded(s, p), v + 1;
    LoadedOk(s, p);
    assert MapsAt(t, s', d, v, hi, f, perm, v);
    LookupUser(s', d, v);
    forall g: nat ensures AllotAt(s, s', d, v, hi, g) {
      assert g == f || GrownAt(t, s', d, g);
    }
    forall u: nat ensures OldAt(s, s', d, v, hi, u) {
      if u < PAGES {
        assert MapsAt(t, s', d, v, hi, f, perm, u);
        AsideLookup(s, t, f, d, u);
      }
    }
  }

  /** A line of kmap: the virtual pages from page on, the frames they are mapped to, and the permissions. */
  datatype Kmap = Kmap(page: nat, n: nat, frame: nat, perm: nat)

  predicate InKmap(k: Kmap, v: nat) {
    k.page <= v < k.page + k.n
  }

  predicate LineOk(k: Kmap) {
    && USER_PAGES <= k.page && 0 < k.n && k.page + k.n <= PAGES && k.frame + k.n <= PAGES && k.perm < 4096
  }

  ghost predicate KmapOk(kmap: seq<Kmap>) {
    && (forall k :: 0 <= k < |kmap| ==> LineOk(kmap[k]))
    && (forall k, l, v: nat :: 0 <= k < l < |kmap| && InKmap(kmap[k], v) ==> !InKmap(kmap[l], v))
  }

  /** What a page is mapped to by kmap. */
  function KmapLookup(kmap: seq<Kmap>, v: nat): Option<Word>
    requires forall k :: 0 <= k < |kmap| ==> LineOk(kmap[k])
  {
    if kmap == [] then None
    else
      var k := kmap[|kmap| - 1];
      assert LineOk(k);
      if InKmap(k, v) then Some(Pte(k.frame + (v - k.page), k.perm)) else KmapLookup(kmap[..|kmap| - 1], v)
  }

  ghost function KmapSize(kmap: seq<Kmap>): nat {
    if kmap == [] then 0 else KmapSize(kmap[..|kmap| - 1]) + kmap[|kmap| - 1].n
  }

  ghost predicate KernelAt(s: State, d: nat, kmap: seq<Kmap>, v: nat) {
    v < PAGES && (forall k :: 0 <= k < |kmap| ==> LineOk(kmap[k])) ==> Lookup(s, d, v) == KmapLookup(kmap, v)
  }

  /** d maps what kmap says and nothing else. */
  ghost predicate KernelOnly(s: State, d: nat, kmap: seq<Kmap>) {
    forall v: nat {:trigger KernelAt(s, d, kmap, v)} :: KernelAt(s, d, kmap, v)
  }

  lemma {:induction false} KmapMisses(kmap: seq<Kmap>, v: nat)
    requires forall k :: 0 <= k < |kmap| ==> LineOk(kmap[k])
    ensures (forall k :: 0 <= k < |kmap| ==> !InKmap(kmap[k], v)) ==> KmapLookup(kmap, v) == None
    ensures v < USER_PAGES ==> KmapLookup(kmap, v) == None
  {
    if kmap != [] { KmapMisses(kmap[..|kmap| - 1], v); }
  }

  lemma {:induction false} KmapGrows(kmap: seq<Kmap>, n: nat)
    requires n <= |kmap|
    ensures KmapSize(kmap[..n]) <= KmapSize(kmap)
  {
    if n == |kmap| {
      assert kmap[..n] == kmap;
    } else {
      KmapGrows(kmap[..|kmap| - 1], n);
      assert kmap[..|kmap| - 1][..n] == kmap[..n];
    }
  }

  // one more line
  lemma KernelStep(s: State, s': State, d: nat, kmap: seq<Kmap>, n: nat)
    requires KmapOk(kmap) && n < |kmap| && KernelOnly(s, d, kmap[..n])
    requires Maps(s, s', d, kmap[n].page, kmap[n].page + kmap[n].n, kmap[n].frame, kmap[n].perm)
    ensures KernelOnly(s', d, kmap[..n + 1])
  {
    var k, m := kmap[n], kmap[..n + 1];
    var hi := k.page + k.n;
    assert m[..n] == kmap[..n];
    forall v: nat ensures KernelAt(s', d, m, v) {
      assert KernelAt(s, d, kmap[..n], v) && MapsAt(s, s', d, k.page, hi, k.frame, k.perm, v);
    }
  }

  // the pages of the next line are not mapped yet
  lemma KernelNext(s: State, d: nat, kmap: seq<Kmap>, n: nat, v: nat)
    requires KmapOk(kmap) && n < |kmap| && KernelOnly(s, d, kmap[..n]) && InKmap(kmap[n], v)
    ensures v < PAGES && Lookup(s, d, v) == None
  {
    assert KernelAt(s, d, kmap[..n], v);
    KmapMisses(kmap[..n], v);
  }

  ghost function AllHeld(first: nat, n: nat): (m: map<nat, Use>)
    ensures forall f: nat :: first <= f < n ==> f in m && m[f] == Held
  {
    if n <= first then map[] else AllHeld(first, n - 1)[n - 1 := Held]
  }

  /** PGROUNDUP, as a page number. */
  function UpToPage(a: nat): (v: nat)
    ensures a <= PGSIZE * v < a + PGSIZE
  {
    (a + 4095) / 4096
  }

  // pages lo .. hi - 1 have been freed
  ghost predicate RangeAt(s: State, s': State, lo: nat, hi: nat, f: nat) {
    Managed(s, f) && f in s.use ==>
      && Managed(s', f) && f in s'.use
      && if lo <= f < hi then s'.use[f].Free? else s'.use[f] == s.use[f] && s'.mem[f] == s.mem[f]
  }

  // ---------------------------------------------------------------- copying

  // page v of d, to which s1 is a later state, is what it was in s
  lemma SourcePage(s: State, s1: State, c: nat, d: nat, v: nat)
    requires Ok(s) && Confined(s, s1, c, {}) && c in s.use && s.use[c].Free? && Aspace(s, d) && v < USER_PAGES
    requires Lookup(s, d, v).Some?
    ensures Aspace(s1, d) && Lookup(s1, d, v) == Lookup(s, d, v)
    ensures var f := Frame(Lookup(s, d, v).value);
            f < |s1.mem| && s1.mem[f] == PageFrom(Copy(s, d), v)
            && FlagsFrom(Copy(s, d), v) == Flags(Lookup(s, d, v).value)
  {
    OtherSpace(s, s1, c, {}, d, v);
    LookupUser(s, d, v);
  }

  // a present entry has its present flag
  lemma PresentFlag(w: Word)
    requires Present(w)
    ensures Flags(w) < 4096 && Flags(w) % 2 == 1
  {
  }

  // frames that were free after c was begun were free before
  lemma NewInCopy(s: State, s1: State, s': State, c: nat, src: Source, v: nat)
    requires Ok(s) && Ok(s1) && Confined(s, s1, c, {}) && c in s.use && s.use[c].Free? && Managed(s, c)
    requires NewFrom(s1, s', c, src, v)
    ensures NewFrom(s, s', c, src, v)
  {
    var f := Frame(Lookup(s', c, v).value);
    assert KeptAt(s, s1, c, {}, f) && FrameOk(s, f);
  }

  /** c is a copy of the first n pages of d: new pages with the same contents and flags; the kernel part is kmap's. */
  ghost predicate CopyAt(s: State, s': State, d: nat, c: nat, n: nat, kmap: seq<Kmap>, v: nat) {
    if v < n then NewFrom(s, s', c, Copy(s, d), v) else KernelAt(s', c, kmap, v)
  }

  ghost predicate Copied(s: State, s': State, d: nat, c: nat, n: nat, kmap: seq<Kmap>) {
    && Confined(s, s', c, {})
    && (forall v: nat {:trigger CopyAt(s, s', d, c, n, kmap, v)} :: CopyAt(s, s', d, c, n, kmap, v))
    && (forall v: nat {:trigger SamePage(s, s', d, v)} :: SamePage(s, s', d, v))
  }

  lemma CopyDone(s: State, s1: State, s': State, d: nat, c: nat, n: nat, kmap: seq<Kmap>)
    requires Ok(s) && Ok(s1) && Aspace(s, d) && c in s.use && s.use[c].Free? && Managed(s, c) && n <= USER_PAGES
    requires Confined(s, s1, c, {}) && NewPages(s1, s', c, 0, n, Copy(s, d)) && KernelOnly(s1, c, kmap)
    ensures Copied(s, s', d, c, n, kmap)
  {
    AllottedConfined(s1, s', c, 0, n);
    ConfinedThen(s, s1, s', c, {});
    forall v: nat ensures CopyAt(s, s', d, c, n, kmap, v) {
      if v < n {
        assert NewFrom(s1, s', c, Copy(s, d), v);
        NewInCopy(s, s1, s', c, Copy(s, d), v);
      } else {
        assert OldAt(s1, s', c, 0, n, v) && KernelAt(s1, c, kmap, v);
      }
    }
    forall v: nat ensures SamePage(s, s', d, v) {
      OtherSpace(s, s', c, {}, d, v);
    }
  }

  // the copy has no page i yet
  lemma UserPartEmpty(s1: State, s2: State, c: nat, kmap: seq<Kmap>, i: nat)
    requires KmapOk(kmap) && KernelOnly(s1, c, kmap) && Allotted(s1, s2, c, 0, i) && i < USER_PAGES
    ensures Lookup(s2, c, i) == None
  {
    assert OldAt(s1, s2, c, 0, i, i) && KernelAt(s1, c, kmap, i);
    KmapMisses(kmap, i);
  }
}
