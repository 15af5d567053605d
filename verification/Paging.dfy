// Physical pages and what they are used for.  A page is 1024 words; a page directory and a page
// table are pages of entries.  The use of every page that kalloc manages is recorded beside
// memory, and FrameOk ties that record to what the words in memory say.
module Paging {
  import opened Wrappers
  import opened Blocks

  const NENTRIES: nat := 1024
  const USER_ENTRIES: nat := 512      // directory entries below KERNBASE
  const KERNBASE: nat := 0x8000_0000
  const PGSIZE: nat := 4096
  const PAGES: nat := 0x10_0000       // pages of the virtual address space
  const USER_PAGES: nat := 0x8_0000   // pages below KERNBASE
  const PTE_W: nat := 2
  const PTE_U: nat := 4

  type Page = p: seq<Word> | |p| == 1024 witness seq(1024, _ => 0)

  function Filled(w: Word): (p: Page)
    ensures forall j :: 0 <= j < 1024 ==> p[j] == w
  {
    seq(1024, _ => w)
  }

  // ---------------------------------------------------------------- entries

  function Pdx(v: nat): nat {
    v / 1024
  }

  function Ptx(v: nat): (r: nat)
    ensures r < NENTRIES
  {
    v % 1024
  }

  predicate Present(w: Word) {
    w % 2 == 1
  }

  function Frame(w: Word): (f: nat)
    ensures f < PAGES
  {
    w / 4096
  }

  function Flags(w: Word): nat {
    w % 4096
  }

  /** An entry for frame f with the permissions perm, present. */
  function Pte(f: nat, perm: nat): (w: Word)
    requires f < PAGES && perm < 4096
    ensures Present(w) && Frame(w) == f && Flags(w) == (if perm % 2 == 1 then perm else perm + 1)
  {
    4096 * f + if perm % 2 == 1 then perm else perm + 1
  }

  // pages of virtual memory are determined by their two indices
  lemma PageIndices(v: nat, u: nat)
    requires Pdx(v) == Pdx(u) && Ptx(v) == Ptx(u)
    ensures v == u
  {
  }

  // a free page begins with the kernel address of the next one, 0 at the end
  function Link(free: seq<nat>): (w: Word)
    requires free != [] ==> free[|free| - 1] < USER_PAGES
    ensures free == [] <==> w == 0
    ensures free != [] ==> (w - KERNBASE) / PGSIZE == free[|free| - 1]
  {
    if free == [] then 0 else 0x8000_0000 + 4096 * free[|free| - 1]
  }

  // ---------------------------------------------------------------- uses

  // on the free list, at this height; handed out by kalloc; a directory whose entries from dead on count;
  // the table of entry i of directory d; the user page of entry j of that table
  datatype Use = Free(height: nat) | Held | Dir(dead: nat) | Table(d: nat, i: nat) | User(d: nat, i: nat, j: nat)

  // frames below first belong to the kernel image; free: the free list, its head last
  datatype State = State(mem: seq<Page>, first: nat, free: seq<nat>, use: map<nat, Use>)

  predicate Managed(s: State, f: nat) {
    s.first <= f < |s.mem|
  }

  ghost predicate Is(s: State, f: nat, u: Use) {
    Managed(s, f) && f in s.use && s.use[f] == u
  }

  ghost predicate IsDir(s: State, d: nat, i: nat) {
    Managed(s, d) && d in s.use && s.use[d].Dir? && s.use[d].dead <= i
  }

  // directory entry i
  ghost predicate DirAt(s: State, d: nat, i: nat) {
    IsDir(s, d, i) && i < NENTRIES && Present(s.mem[d][i]) ==> Is(s, Frame(s.mem[d][i]), Table(d, i))
  }

  // table t is where the directory says
  ghost predicate Linked(s: State, d: nat, i: nat, t: nat) {
    IsDir(s, d, i) && i < NENTRIES && Present(s.mem[d][i]) && Frame(s.mem[d][i]) == t
  }

  // entry j of a table; those of the kernel part own nothing
  ghost predicate TableAt(s: State, t: nat, j: nat) {
    && Managed(s, t) && t in s.use && s.use[t].Table? && s.use[t].i < USER_ENTRIES && j < NENTRIES
    && Present(s.mem[t][j])
    ==> Is(s, Frame(s.mem[t][j]), User(s.use[t].d, s.use[t].i, j))
  }

  ghost predicate FreeAt(s: State, k: nat) {
    k < |s.free| ==>
      && Is(s, s.free[k], Free(k)) && s.free[k] < USER_PAGES
      && (k > 0 ==> s.free[k - 1] < USER_PAGES)
      && s.mem[s.free[k]][0] == Link(s.free[..k])
  }

  ghost predicate FrameOk(s: State, f: nat) {
    Managed(s, f) ==>
      && f in s.use
      && match s.use[f]
         case Free(k) => k < |s.free| && s.free[k] == f
         case Held => true
         case Dir(_) => true
         case Table(d, i) => Linked(s, d, i, f)
         case User(d, i, j) =>
           && i < USER_ENTRIES && j < NENTRIES && IsDir(s, d, i) && Present(s.mem[d][i])
           && var t := Frame(s.mem[d][i]);
              Is(s, t, Table(d, i)) && Present(s.mem[t][j]) && Frame(s.mem[t][j]) == f
  }

  ghost predicate FreeOk(s: State) {
    forall k: nat {:trigger FreeAt(s, k)} :: FreeAt(s, k)
  }

  /** Every managed page has exactly one use, and memory says the same. */
  ghost predicate Ok(s: State) {
    && 0 < s.first && |s.mem| <= USER_PAGES && FreeOk(s)
    && (forall f: nat {:trigger FrameOk(s, f)} :: FrameOk(s, f))
    && (forall d: nat, i: nat {:trigger DirAt(s, d, i)} :: DirAt(s, d, i))
    && (forall t: nat, j: nat {:trigger TableAt(s, t, j)} :: TableAt(s, t, j))
  }

  // ---------------------------------------------------------------- what is mapped

  /** The entry for page v in the address space of directory d. */
  function Lookup(s: State, d: nat, v: nat): Option<Word>
    requires v < PAGES
  {
    if d >= |s.mem| || !Present(s.mem[d][Pdx(v)]) then None
    else
      var t := Frame(s.mem[d][Pdx(v)]);
      if t >= |s.mem| || !Present(s.mem[t][Ptx(v)]) then None else Some(s.mem[t][Ptx(v)])
  }

  // ---------------------------------------------------------------- changes of use

  ghost function WithPage(s: State, f: nat, p: Page): State
    requires f < |s.mem|
  {
    s.(mem := s.mem[f := p])
  }

  ghost function WithUse(s: State, f: nat, u: Use): State {
    s.(use := s.use[f := u])
  }

  ghost function WithWord(s: State, f: nat, j: nat, w: Word): State
    requires f < |s.mem| && j < NENTRIES
  {
    WithPage(s, f, s.mem[f][j := w])
  }

  /** kalloc takes the head of the free list. */
  ghost function Popped(s: State): State
    requires s.free != []
  {
    WithUse(s, s.free[|s.free| - 1], Held).(free := s.free[..|s.free| - 1])
  }

  const JUNK: Word := 0x0101_0101

  /** kfree fills the page with junk and puts it in front of the free list. */
  ghost function Pushed(s: State, f: nat): State
    requires f < |s.mem| && (s.free != [] ==> s.free[|s.free| - 1] < USER_PAGES)
  {
    WithUse(WithPage(s, f, Filled(JUNK)[0 := Link(s.free)]), f, Free(|s.free|)).(free := s.free + [f])
  }

  lemma HeadFree(s: State)
    requires FreeOk(s) && s.free != []
    ensures Is(s, s.free[|s.free| - 1], Free(|s.free| - 1)) && s.free[|s.free| - 1] < USER_PAGES
    ensures |s.free| > 1 ==> s.free[|s.free| - 2] < USER_PAGES
    ensures s.mem[s.free[|s.free| - 1]][0] == Link(s.free[..|s.free| - 1])
  {
    assert FreeAt(s, |s.free| - 1);
  }

  predicate Idle(u: Use) {
    u.Held? || u.Free?
  }

  // f, which nothing refers to, changes, and nothing refers to it afterwards either
  ghost predicate Aside(s: State, s': State, f: nat) {
    && f < |s.mem| == |s'.mem| && s'.first == s.first
    && f in s.use && f in s'.use && Idle(s.use[f]) && Idle(s'.use[f])
    && (forall g: nat :: g < |s.mem| && g != f ==> s'.mem[g] == s.mem[g])
    && (forall g: nat :: g != f ==> (g in s.use <==> g in s'.use) && (g in s.use ==> s'.use[g] == s.use[g]))
    && (forall k: nat :: k < |s.free| && s.free[k] != f ==> k < |s'.free| && s'.free[k] == s.free[k])
  }

  lemma AsideFrame(s: State, s': State, f: nat, g: nat)
    requires Ok(s) && Aside(s, s', f) && g != f
    ensures FrameOk(s', g)
  {
    assert FrameOk(s, g);
  }

  lemma AsideEntries(s: State, s': State, f: nat, d: nat, i: nat)
    requires Ok(s) && Aside(s, s', f)
    ensures DirAt(s', d, i) && TableAt(s', d, i)
  {
    assert DirAt(s, d, i) && TableAt(s, d, i);
  }

  lemma AsideOk(s: State, s': State, f: nat)
    requires Ok(s) && Aside(s, s', f) && FreeOk(s') && FrameOk(s', f)
    ensures Ok(s')
  {
    forall g: nat ensures FrameOk(s', g) {
      if g != f { AsideFrame(s, s', f, g); }
    }
    forall d: nat, i: nat ensures DirAt(s', d, i) && TableAt(s', d, i) {
      AsideEntries(s, s', f, d, i);
    }
  }

  lemma PoppedOk(s: State)
    requires Ok(s) && s.free != []
    ensures Ok(Popped(s)) && Is(s, s.free[|s.free| - 1], Free(|s.free| - 1))
  {
    var s', f := Popped(s), s.free[|s.free| - 1];
    HeadFree(s);
    forall k: nat ensures FreeAt(s', k) {
      assert FreeAt(s, k);
      assert k < |s'.free| ==> s'.free[..k] == s.free[..k];
    }
    forall k: nat | k < |s.free| && s.free[k] != f ensures k < |s'.free| && s'.free[k] == s.free[k] {
    }
    AsideOk(s, s', f);
  }

  lemma PushedFree(s: State, f: nat)
    requires FreeOk(s) && Managed(s, f) && f in s.use && !s.use[f].Free? && |s.mem| <= USER_PAGES
    ensures s.free != [] ==> s.free[|s.free| - 1] < USER_PAGES
    ensures FreeOk(Pushed(s, f))
  {
    if s.free != [] { HeadFree(s); }
    var s' := Pushed(s, f);
    forall k: nat ensures FreeAt(s', k) {
      assert FreeAt(s, k);
      assert k <= |s.free| ==> s'.free[..k] == s.free[..k];
    }
  }

  lemma PushedOk(s: State, f: nat)
    requires Ok(s) && Managed(s, f) && Is(s, f, Held)
    ensures s.free != [] ==> s.free[|s.free| - 1] < USER_PAGES
    ensures Ok(Pushed(s, f))
  {
    PushedFree(s, f);
    AsideOk(s, Pushed(s, f), f);
  }

  lemma FilledOk(s: State, f: nat, p: Page)
    requires Ok(s) && Is(s, f, Held)
    ensures Ok(WithPage(s, f, p))
  {
    var s' := WithPage(s, f, p);
    forall k: nat ensures FreeAt(s', k) { assert FreeAt(s, k); }
    AsideOk(s, s', f);
  }

  // ---------------------------------------------------------------- directories and tables

  /** A zeroed page becomes a directory. */
  lemma DirOk(s: State, d: nat)
    requires Ok(s) && Is(s, d, Held) && s.mem[d] == Filled(0)
    ensures Ok(WithUse(s, d, Dir(0)))
  {
    var s' := WithUse(s, d, Dir(0));
    forall k: nat ensures FreeAt(s', k) { assert FreeAt(s, k); }
    forall g: nat ensures FrameOk(s', g) { assert FrameOk(s, g); }
    forall e: nat, i: nat ensures DirAt(s', e, i) && TableAt(s', e, i) { assert DirAt(s, e, i) && TableAt(s, e, i); }
  }

  /** A zeroed page t becomes the table of the absent entry i. */
  ghost function AddTable(s: State, d: nat, i: nat, t: nat, w: Word): State
    requires d < |s.mem| && i < NENTRIES
  {
    WithUse(WithWord(s, d, i, w), t, Table(d, i))
  }

  ghost predicate CanAddTable(s: State, d: nat, i: nat, t: nat, w: Word) {
    && Ok(s) && Is(s, d, Dir(0)) && i < NENTRIES && !Present(s.mem[d][i])
    && Is(s, t, Held) && s.mem[t] == Filled(0) && Present(w) && Frame(w) == t
  }

  lemma AddTableFrame(s: State, d: nat, i: nat, t: nat, w: Word, g: nat)
    requires CanAddTable(s, d, i, t, w)
    ensures FrameOk(AddTable(s, d, i, t, w), g) && FreeAt(AddTable(s, d, i, t, w), g)
  {
    assert FrameOk(s, g) && FreeAt(s, g);
  }

  lemma AddTableOk(s: State, d: nat, i: nat, t: nat, w: Word)
    requires CanAddTable(s, d, i, t, w)
    ensures Ok(AddTable(s, d, i, t, w))
  {
    var s' := AddTable(s, d, i, t, w);
    forall g: nat ensures FrameOk(s', g) && FreeAt(s', g) {
      AddTableFrame(s, d, i, t, w, g);
    }
    forall e: nat, k: nat ensures DirAt(s', e, k) && TableAt(s', e, k) {
      assert DirAt(s, e, k) && TableAt(s, e, k);
    }
  }

  /** Page u is mapped by entry j of a table t in the user part. */
  ghost function AddUser(s: State, t: nat, j: nat, w: Word): State
    requires t < |s.mem| && j < NENTRIES && t in s.use && s.use[t].Table?
  {
    WithUse(WithWord(s, t, j, w), Frame(w), User(s.use[t].d, s.use[t].i, j))
  }

  ghost predicate CanAddUser(s: State, t: nat, j: nat, w: Word) {
    && Ok(s) && Managed(s, t) && t in s.use && s.use[t].Table? && s.use[t].i < USER_ENTRIES
    && j < NENTRIES && !Present(s.mem[t][j]) && Present(w) && Is(s, Frame(w), Held)
  }

  lemma AddUserFrame(s: State, t: nat, j: nat, w: Word, g: nat)
    requires CanAddUser(s, t, j, w)
    ensures FrameOk(AddUser(s, t, j, w), g) && FreeAt(AddUser(s, t, j, w), g)
  {
    assert FrameOk(s, g) && FreeAt(s, g) && FrameOk(s, t);
  }

  lemma AddUserOk(s: State, t: nat, j: nat, w: Word)
    requires CanAddUser(s, t, j, w)
    ensures Ok(AddUser(s, t, j, w))
  {
    var s' := AddUser(s, t, j, w);
    forall g: nat ensures FrameOk(s', g) && FreeAt(s', g) {
      AddUserFrame(s, t, j, w, g);
    }
    forall e: nat, k: nat ensures DirAt(s', e, k) && TableAt(s', e, k) {
      assert DirAt(s, e, k) && TableAt(s, e, k) && TableAt(s, t, j);
    }
  }

  /** An entry in the kernel part owns nothing. */
  lemma AddKernelOk(s: State, t: nat, j: nat, w: Word)
    requires Ok(s) && Managed(s, t) && t in s.use && s.use[t].Table? && s.use[t].i >= USER_ENTRIES && j < NENTRIES
    ensures Ok(WithWord(s, t, j, w))
  {
    var s' := WithWord(s, t, j, w);
    forall g: nat ensures FrameOk(s', g) && FreeAt(s', g) { assert FrameOk(s, g) && FreeAt(s, g); }
    forall e: nat, k: nat ensures DirAt(s', e, k) && TableAt(s', e, k) { assert DirAt(s, e, k) && TableAt(s, e, k); }
  }

  /** A user page is taken off its table. */
  ghost function DropUser(s: State, t: nat, j: nat): State
    requires t < |s.mem| && j < NENTRIES
  {
    WithUse(WithWord(s, t, j, 0), Frame(s.mem[t][j]), Held)
  }

  ghost predicate CanDropUser(s: State, t: nat, j: nat) {
    && Ok(s) && Managed(s, t) && t in s.use && s.use[t].Table? && s.use[t].i < USER_ENTRIES
    && j < NENTRIES && Present(s.mem[t][j])
  }

  lemma DropUserFrame(s: State, t: nat, j: nat, g: nat)
    requires CanDropUser(s, t, j)
    ensures FrameOk(DropUser(s, t, j), g) && FreeAt(DropUser(s, t, j), g)
  {
    assert FrameOk(s, g) && FreeAt(s, g) && FrameOk(s, t) && TableAt(s, t, j);
    assert FrameOk(s, Frame(s.mem[t][j]));
  }

  lemma DropUserEntries(s: State, t: nat, j: nat, e: nat, k: nat)
    requires CanDropUser(s, t, j)
    ensures DirAt(DropUser(s, t, j), e, k) && TableAt(DropUser(s, t, j), e, k)
  {
    assert DirAt(s, e, k) && TableAt(s, e, k) && TableAt(s, t, j) && FrameOk(s, t) && FrameOk(s, e);
  }

  lemma DropUserOk(s: State, t: nat, j: nat)
    requires CanDropUser(s, t, j)
    ensures Ok(DropUser(s, t, j)) && Is(s, Frame(s.mem[t][j]), User(s.use[t].d, s.use[t].i, j))
  {
    var s' := DropUser(s, t, j);
    assert TableAt(s, t, j);
    forall g: nat ensures FrameOk(s', g) && FreeAt(s', g) {
      DropUserFrame(s, t, j, g);
    }
    forall e: nat, k: nat ensures DirAt(s', e, k) && TableAt(s', e, k) {
      DropUserEntries(s, t, j, e, k);
    }
  }

  // ---------------------------------------------------------------- tearing down a directory

  /** The entries of d up to and including i no longer count; the table of entry i is no longer one. */
  ghost function Bury(s: State, d: nat, i: nat): State
    requires d < |s.mem| && i < NENTRIES
  {
    var s1 := WithUse(s, d, Dir(i + 1));
    if Present(s.mem[d][i]) then WithUse(s1, Frame(s.mem[d][i]), Held) else s1
  }

  ghost predicate NoUsers(s: State, d: nat) {
    forall f :: f in s.use && Managed(s, f) && s.use[f].User? ==> s.use[f].d != d
  }

  lemma BuryFrame(s: State, d: nat, i: nat, g: nat)
    requires Ok(s) && Is(s, d, Dir(i)) && i < NENTRIES && NoUsers(s, d)
    ensures FrameOk(Bury(s, d, i), g) && FreeAt(Bury(s, d, i), g)
  {
    assert FrameOk(s, g) && FreeAt(s, g) && DirAt(s, d, i);
  }

  lemma BuryEntries(s: State, d: nat, i: nat, e: nat, k: nat)
    requires Ok(s) && Is(s, d, Dir(i)) && i < NENTRIES && NoUsers(s, d)
    ensures DirAt(Bury(s, d, i), e, k) && TableAt(Bury(s, d, i), e, k)
  {
    assert DirAt(s, e, k) && TableAt(s, e, k) && DirAt(s, d, i);
  }

  lemma BuryOk(s: State, d: nat, i: nat)
    requires Ok(s) && Is(s, d, Dir(i)) && i < NENTRIES && NoUsers(s, d)
    ensures Ok(Bury(s, d, i)) && Is(Bury(s, d, i), d, Dir(i + 1)) && NoUsers(Bury(s, d, i), d)
    ensures Present(s.mem[d][i]) ==> Is(s, Frame(s.mem[d][i]), Table(d, i)) && Frame(s.mem[d][i]) != d
  {
    var s' := Bury(s, d, i);
    assert DirAt(s, d, i);
    forall g: nat ensures FrameOk(s', g) && FreeAt(s', g) {
      BuryFrame(s, d, i, g);
    }
    forall e: nat, k: nat ensures DirAt(s', e, k) && TableAt(s', e, k) {
      BuryEntries(s, d, i, e, k);
    }
  }

  /** A directory with no live entry is an ordinary page. */
  lemma BuriedOk(s: State, d: nat)
    requires Ok(s) && Is(s, d, Dir(NENTRIES))
    ensures Ok(WithUse(s, d, Held))
    ensures forall f :: Managed(s, f) && f in s.use && (s.use[f].Table? || s.use[f].User?) ==> s.use[f].d != d
  {
    var s' := WithUse(s, d, Held);
    forall g: nat
      ensures FrameOk(s', g) && FreeAt(s', g)
      ensures Managed(s, g) && (s.use[g].Table? || s.use[g].User?) ==> s.use[g].d != d
    {
      assert FrameOk(s, g) && FreeAt(s, g);
    }
    forall e: nat, k: nat ensures DirAt(s', e, k) && TableAt(s', e, k) {
      assert DirAt(s, e, k) && TableAt(s, e, k);
    }
  }

  // ---------------------------------------------------------------- effects on what is mapped

  ghost predicate Aspace(s: State, d: nat) {
    Is(s, d, Dir(0))
  }

  lemma LookupSame(s: State, s': State, d: nat, v: nat)
    requires v < PAGES && |s'.mem| == |s.mem| && d < |s.mem| && s'.mem[d] == s.mem[d]
    requires Present(s.mem[d][Pdx(v)]) && Frame(s.mem[d][Pdx(v)]) < |s.mem| ==>
               s'.mem[Frame(s.mem[d][Pdx(v)])] == s.mem[Frame(s.mem[d][Pdx(v)])]
    ensures Lookup(s', d, v) == Lookup(s, d, v)
  {
  }

  lemma LookupTable(s: State, d: nat, v: nat)
    requires Ok(s) && Aspace(s, d) && v < PAGES && Present(s.mem[d][Pdx(v)])
    ensures Is(s, Frame(s.mem[d][Pdx(v)]), Table(d, Pdx(v)))
    ensures Lookup(s, d, v) == (var w := s.mem[Frame(s.mem[d][Pdx(v)])][Ptx(v)]; if Present(w) then Some(w) else None)
  {
    assert DirAt(s, d, Pdx(v));
  }

  // a mapped user page is the one that its frame is used for
  lemma LookupUser(s: State, d: nat, v: nat)
    requires Ok(s) && Aspace(s, d) && v < USER_PAGES && Lookup(s, d, v).Some?
    ensures Is(s, Frame(Lookup(s, d, v).value), User(d, Pdx(v), Ptx(v)))
  {
    LookupTable(s, d, v);
    assert TableAt(s, Frame(s.mem[d][Pdx(v)]), Ptx(v));
  }

  // and the other way round
  lemma UserLookup(s: State, f: nat)
    requires Ok(s) && Managed(s, f) && f in s.use && s.use[f].User? && Aspace(s, s.use[f].d)
    ensures 1024 * s.use[f].i + s.use[f].j < USER_PAGES
    ensures var w := Lookup(s, s.use[f].d, 1024 * s.use[f].i + s.use[f].j); w.Some? && Frame(w.value) == f
  {
    assert FrameOk(s, f);
    var v := 1024 * s.use[f].i + s.use[f].j;
    assert Pdx(v) == s.use[f].i && Ptx(v) == s.use[f].j;
  }

  lemma AsideLookup(s: State, s': State, f: nat, d: nat, v: nat)
    requires Ok(s) && Aspace(s, d) && Aside(s, s', f) && v < PAGES
    ensures Lookup(s', d, v) == Lookup(s, d, v)
  {
    assert DirAt(s, d, Pdx(v));
  }

  lemma AddTableLookup(s: State, d: nat, i: nat, t: nat, w: Word, e: nat, v: nat)
    requires CanAddTable(s, d, i, t, w) && Aspace(s, e) && v < PAGES
    ensures Lookup(AddTable(s, d, i, t, w), e, v) == Lookup(s, e, v)
  {
    assert DirAt(s, e, Pdx(v));
  }

  // storing w in entry j of a table changes one page of one address space
  lemma StoreLookup(s: State, t: nat, j: nat, w: Word, e: nat, v: nat)
    requires Ok(s) && Aspace(s, e) && v < PAGES && Managed(s, t) && t in s.use && s.use[t].Table? && j < NENTRIES
    ensures Lookup(WithWord(s, t, j, w), e, v) ==
            if e == s.use[t].d && Pdx(v) == s.use[t].i && Ptx(v) == j then (if Present(w) then Some(w) else None)
            else Lookup(s, e, v)
  {
    assert DirAt(s, e, Pdx(v)) && FrameOk(s, t);
  }

  // ---------------------------------------------------------------- conservation

  /** A page is on the free list, once, exactly when its use says so. */
  lemma OnFreeList(s: State, f: nat)
    requires Ok(s) && Managed(s, f)
    ensures f in s.use && (f in s.free <==> s.use[f].Free?)
    ensures forall j, k :: 0 <= j < |s.free| && 0 <= k < |s.free| && s.free[j] == f && s.free[k] == f ==> j == k
  {
    assert FrameOk(s, f);
    forall k | 0 <= k < |s.free| && s.free[k] == f ensures s.use[f] == Free(k) {
      assert FreeAt(s, k);
    }
  }

  /** Two mapped user pages never share a frame, within an address space or across. */
  lemma NoSharing(s: State, d: nat, v: nat, e: nat, u: nat)
    requires Ok(s) && Aspace(s, d) && Aspace(s, e) && v < USER_PAGES && u < USER_PAGES
    requires Lookup(s, d, v).Some? && Lookup(s, e, u).Some?
    requires Frame(Lookup(s, d, v).value) == Frame(Lookup(s, e, u).value)
    ensures d == e && v == u
  {
    LookupUser(s, d, v);
    LookupUser(s, e, u);
    PageIndices(v, u);
  }
}
