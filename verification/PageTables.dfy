/** Physical pages and two-level page tables (vm.c, kalloc.c): which page belongs to whom, and
    what each single change does to that. A virtual page is named by its directory and table
    index; the user half is the directory indices below 512. */
module PageTables {
  import opened Common
  import opened Blocks

  const USER: nat := 512          // PDX(KERNBASE)
  const ENTRIES: nat := 1024      // NPDENTRIES, NPTENTRIES
  const PTE_W: nat := 2
  const PTE_U: nat := 4

  type Data = seq<Byte>

  /** A present page-table entry. */
  datatype Pte = Pte(frame: nat, flags: nat)

  /** What a page in use is used for: as the directory d itself, as the table of d at x, as the
      user page of d at (x, y), by a call working on d, or by some other part of the kernel. */
  datatype Owner = Directory | Table(d: nat, x: nat) | Frame(d: nat, x: nat, y: nat) | Held(d: nat) | Other

  /** free is kmem.freelist; ow is bookkeeping for the proof. */
  datatype Mem = Mem(free: seq<nat>, dirs: map<nat, map<nat, nat>>, tabs: map<nat, map<nat, Pte>>,
                     data: map<nat, Data>, ow: map<nat, Owner>)

  // ---- looking up --------------------------------------------------------

  function TableOf(s: Mem, d: nat, x: nat): Option<nat> {
    if d in s.dirs && x in s.dirs[d] then Some(s.dirs[d][x]) else None
  }

  function EntryIn(s: Mem, t: Option<nat>, y: nat): Option<Pte> {
    if t.Some? && t.value in s.tabs && y in s.tabs[t.value] then Some(s.tabs[t.value][y]) else None
  }

  function Entry(s: Mem, d: nat, x: nat, y: nat): Option<Pte> {
    EntryIn(s, TableOf(s, d, x), y)
  }

  /** A user page as the process sees it. */
  datatype Page = Page(frame: nat, flags: nat, bytes: Data)

  function See(s: Mem, d: nat, x: nat, y: nat): Option<Page> {
    var e := Entry(s, d, x, y);
    if x < USER && e.Some? && e.value.frame in s.data
    then Some(Page(e.value.frame, e.value.flags, s.data[e.value.frame]))
    else None
  }

  // ---- the invariant -----------------------------------------------------

  ghost predicate TableOk(s: Mem, d: nat, x: nat) {
    TableOf(s, d, x).Some? ==>
      var t := TableOf(s, d, x).value;
      d in s.ow && s.ow[d] == Directory && x < ENTRIES && t in s.ow && s.ow[t] == Table(d, x) && t in s.tabs
  }

  ghost predicate EntryOk(s: Mem, d: nat, x: nat, y: nat) {
    x < USER && Entry(s, d, x, y).Some? ==>
      var f := Entry(s, d, x, y).value.frame;
      y < ENTRIES && f in s.ow && s.ow[f] == Frame(d, x, y) && f in s.data
  }

  ghost predicate OwnerOk(s: Mem, p: nat)
    requires p in s.ow
  {
    match s.ow[p]
    case Directory => p in s.dirs
    case Table(d, x) => p in s.tabs && TableOf(s, d, x) == Some(p)
    case Frame(d, x, y) => x < USER && Entry(s, d, x, y).Some? && Entry(s, d, x, y).value.frame == p
    case Held(_) => true
    case Other => true
  }

  datatype Verdict = Clean | Corrupt

  /** The free list and the pages in use make up the pool, each page once. */
  ghost function Pool(pool: set<nat>, s: Mem): Verdict {
    if && (forall i, j | 0 <= i < j < |s.free| :: s.free[i] != s.free[j])
       && (forall p | p in s.free :: p in pool && p !in s.ow)
       && (forall p | p in pool :: p in s.free || p in s.ow) && s.ow.Keys <= pool
    then Clean else Corrupt
  }

  /** Every page in use has exactly the one owner that ow says. */
  ghost function Owned(s: Mem): Verdict {
    if && (forall d, x {:trigger TableOk(s, d, x)} :: TableOk(s, d, x))
       && (forall d, x, y {:trigger EntryOk(s, d, x, y)} :: EntryOk(s, d, x, y))
       && (forall p {:trigger OwnerOk(s, p)} | p in s.ow :: OwnerOk(s, p))
       && (forall d | d in s.dirs :: d in s.ow && s.ow[d] == Directory)
       && (forall t | t in s.tabs :: t in s.ow && s.ow[t].Table?)
    then Clean else Corrupt
  }

  lemma TableAt(s: Mem, d: nat, x: nat)
    requires Owned(s).Clean?
    ensures TableOk(s, d, x)
  {
  }

  lemma EntryAt(s: Mem, d: nat, x: nat, y: nat)
    requires Owned(s).Clean?
    ensures EntryOk(s, d, x, y)
  {
  }

  lemma OwnerAt(s: Mem, p: nat)
    requires Owned(s).Clean? && p in s.ow
    ensures OwnerOk(s, p)
  {
  }

  /** No page serves two purposes: a user page is mapped at one place, and is neither free, nor
      a directory, nor a table. */
  lemma OneOwner(pool: set<nat>, s: Mem, d: nat, x: nat, y: nat, e: nat, v: nat, w: nat)
    requires Pool(pool, s).Clean? && Owned(s).Clean? && See(s, d, x, y).Some?
    ensures See(s, d, x, y).value.frame !in s.free && See(s, d, x, y).value.frame !in s.dirs
    ensures See(s, d, x, y).value.frame !in s.tabs
    ensures See(s, e, v, w).Some? && See(s, e, v, w).value.frame == See(s, d, x, y).value.frame ==>
      e == d && v == x && w == y
  {
    EntryAt(s, d, x, y);
    EntryAt(s, e, v, w);
  }

  /** No page is lost: one that is not free is a directory, a table, a mapped user page, in a
      call's hands or out with another part of the kernel. */
  lemma NoLeak(pool: set<nat>, s: Mem, p: nat)
    requires Pool(pool, s).Clean? && Owned(s).Clean? && p in pool && p !in s.free
    ensures || p in s.dirs || p in s.tabs || (p in s.ow && (s.ow[p].Held? || s.ow[p].Other?))
            || exists d, x, y :: Entry(s, d, x, y).Some? && Entry(s, d, x, y).value.frame == p
  {
    OwnerAt(s, p);
  }

  // ---- everybody else ----------------------------------------------------

  predicate Belongs(o: Owner, p: nat, d: nat) {
    match o
    case Directory => p == d
    case Table(e, _) => e == d
    case Frame(e, _, _) => e == d
    case Held(e) => e == d
    case Other => false
  }

  predicate IsRest(s: Mem, d: nat, p: nat) {
    p in s.ow && !Belongs(s.ow[p], p, d)
  }

  ghost predicate NoneHeld(s: Mem, d: nat) {
    forall p | p in s.ow :: s.ow[p] != Held(d)
  }

  /** t differs from s only in what belongs to d. */
  ghost predicate SameRest(s: Mem, t: Mem, d: nat) {
    && (forall p {:trigger IsRest(t, d, p)} {:trigger IsRest(s, d, p)} :: IsRest(t, d, p) <==> IsRest(s, d, p))
    && (forall p {:trigger IsRest(s, d, p)} | IsRest(s, d, p) :: SamePage(s, t, p))
    && (forall e | e != d :: (e in t.dirs <==> e in s.dirs) && (e in s.dirs && e in t.dirs ==> t.dirs[e] == s.dirs[e]))
  }

  ghost predicate SamePage(s: Mem, t: Mem, p: nat) {
    && p in s.ow && p in t.ow && t.ow[p] == s.ow[p]
    && (p in t.tabs <==> p in s.tabs) && (p in s.tabs && p in t.tabs ==> t.tabs[p] == s.tabs[p])
    && (p in t.data <==> p in s.data) && (p in s.data && p in t.data ==> t.data[p] == s.data[p])
  }

  /** All that does not belong to directory d is the same in s and t. */
  ghost function RestOf(s: Mem, t: Mem, d: nat): Verdict {
    if SameRest(s, t, d) then Clean else Corrupt
  }

  lemma RestTransitive(s: Mem, t: Mem, u: Mem, d: nat)
    requires RestOf(s, t, d).Clean? && RestOf(t, u, d).Clean?
    ensures RestOf(s, u, d).Clean?
  {
    forall p | IsRest(s, d, p)
      ensures SamePage(s, u, p)
    {
      assert IsRest(t, d, p) && SamePage(s, t, p) && SamePage(t, u, p);
    }
  }

  /** What another address space sees does not change. */
  lemma RestView(s: Mem, t: Mem, d: nat, e: nat, x: nat, y: nat)
    requires Owned(s).Clean? && Owned(t).Clean? && RestOf(s, t, d).Clean? && e != d
    ensures See(t, e, x, y) == See(s, e, x, y)
  {
    TableAt(s, e, x);
    EntryAt(s, e, x, y);
    assert TableOf(t, e, x) == TableOf(s, e, x);
    if TableOf(s, e, x).Some? {
      assert IsRest(s, d, TableOf(s, e, x).value);
      if x < USER && Entry(s, e, x, y).Some? { assert IsRest(s, d, Entry(s, e, x, y).value.frame); }
    }
  }

  // ---- one change at a time ----------------------------------------------

  /** Directory entry x of d refers to table t. */
  function Enter(dirs: map<nat, map<nat, nat>>, d: nat, x: nat, t: nat): map<nat, map<nat, nat>>
    requires d in dirs
  {
    var dir: map<nat, nat> := dirs[d][x := t];
    dirs[d := dir]
  }

  /** Entry y of table t is e. */
  function Store(tabs: map<nat, map<nat, Pte>>, t: nat, y: nat, e: Pte): map<nat, map<nat, Pte>>
    requires t in tabs
  {
    var tab: map<nat, Pte> := tabs[t][y := e];
    tabs[t := tab]
  }

  /** Entry y of table t is cleared. */
  function Erase(tabs: map<nat, map<nat, Pte>>, t: nat, y: nat): map<nat, map<nat, Pte>>
    requires t in tabs
  {
    tabs[t := tabs[t] - {y}]
  }

  function Leave(dirs: map<nat, map<nat, nat>>, d: nat, x: nat): map<nat, map<nat, nat>>
    requires d in dirs
  {
    dirs[d := dirs[d] - {x}]
  }

  /** kalloc, by a call working on d. */
  function Took(s: Mem, d: nat): Mem
    requires s.free != []
  {
    s.(free := s.free[1..], ow := s.ow[s.free[0] := Held(d)])
  }

  lemma TookPool(pool: set<nat>, s: Mem, d: nat)
    requires Pool(pool, s).Clean? && s.free != []
    ensures Pool(pool, Took(s, d)).Clean? && s.free[0] !in s.ow && s.free[0] in pool
  {
    var t := Took(s, d);
    assert s.free[0] in s.free;
    forall p | p in pool ensures p in t.free || p in t.ow { assert p in s.free ==> p == s.free[0] || p in s.free[1..]; }
  }

  /** A page nobody owned comes to be held. */
  lemma TookOwned(s: Mem, t: Mem, p: nat, d: nat)
    requires Owned(s).Clean? && p !in s.ow && t == s.(free := t.free, ow := s.ow[p := Held(d)])
    ensures Owned(t).Clean? && RestOf(s, t, d).Clean?
  {
    forall e, x ensures TableOk(t, e, x) { TableAt(s, e, x); }
    forall e, x, y ensures EntryOk(t, e, x, y) { EntryAt(s, e, x, y); }
    forall q | q in t.ow ensures OwnerOk(t, q) { if q in s.ow { OwnerAt(s, q); } }
  }

  /** kfree of a page held. */
  function Gave(s: Mem, p: nat, junk: Data): Mem {
    s.(free := [p] + s.free, ow := s.ow - {p}, data := s.data[p := junk])
  }

  lemma GavePool(pool: set<nat>, s: Mem, p: nat, junk: Data)
    requires Pool(pool, s).Clean? && p in s.ow
    ensures Pool(pool, Gave(s, p, junk)).Clean?
  {
    var t := Gave(s, p, junk);
    assert p !in s.free;
    forall q | q in t.free ensures q in pool && q !in t.ow { assert q == p || q in s.free; }
    forall q | q in pool ensures q in t.free || q in t.ow { assert q in s.free ==> q in t.free; assert p in t.free; }
  }

  lemma GaveOwned(s: Mem, p: nat, junk: Data, d: nat)
    requires Owned(s).Clean? && p in s.ow && s.ow[p] == Held(d)
    ensures Owned(Gave(s, p, junk)).Clean? && RestOf(s, Gave(s, p, junk), d).Clean?
  {
    var t := Gave(s, p, junk);
    forall e, x ensures TableOk(t, e, x) { TableAt(s, e, x); }
    forall e, x, y ensures EntryOk(t, e, x, y) { EntryAt(s, e, x, y); }
    forall q | q in t.ow ensures OwnerOk(t, q) { OwnerAt(s, q); }
  }

  /** memset or memmove into a page held. */
  function Filled(s: Mem, p: nat, bytes: Data): Mem {
    s.(data := s.data[p := bytes])
  }

  lemma FilledOwned(s: Mem, p: nat, bytes: Data, d: nat)
    requires Owned(s).Clean? && p in s.ow && s.ow[p] == Held(d)
    ensures Owned(Filled(s, p, bytes)).Clean? && RestOf(s, Filled(s, p, bytes), d).Clean?
  {
    var t := Filled(s, p, bytes);
    forall e, x ensures TableOk(t, e, x) { TableAt(s, e, x); }
    forall e, x, y ensures EntryOk(t, e, x, y) { EntryAt(s, e, x, y); }
    forall q | q in t.ow ensures OwnerOk(t, q) { OwnerAt(s, q); }
  }

  /** What is seen does not depend on pages that are held or free. */
  lemma SeeHeld(s: Mem, t: Mem, p: nat, e: nat, x: nat, y: nat)
    requires Owned(s).Clean? && (p in s.ow ==> s.ow[p].Held?)
    requires t.dirs == s.dirs && t.tabs == s.tabs
    requires forall q | q != p ::
      (q in t.data <==> q in s.data) && (q in s.data && q in t.data ==> t.data[q] == s.data[q])
    ensures See(t, e, x, y) == See(s, e, x, y)
  {
    EntryAt(s, e, x, y);
  }

  /** walkpgdir's new table. */
  function WithTable(s: Mem, d: nat, x: nat, t: nat): Mem
    requires d in s.dirs
  {
    s.(dirs := Enter(s.dirs, d, x, t), tabs := s.tabs[t := map[]], ow := s.ow[t := Table(d, x)])
  }

  lemma WithTableEntry(s: Mem, d: nat, x: nat, t: nat, e: nat, v: nat, y: nat)
    requires Owned(s).Clean? && d in s.dirs && TableOf(s, d, x) == None && t in s.ow && s.ow[t] == Held(d)
    ensures Entry(WithTable(s, d, x, t), e, v, y) == Entry(s, e, v, y)
  {
    TableAt(s, e, v);
  }

  lemma WithTableRest(s: Mem, d: nat, x: nat, t: nat)
    requires d in s.dirs && t in s.ow && s.ow[t] == Held(d)
    ensures RestOf(s, WithTable(s, d, x, t), d).Clean?
  {
  }

  lemma WithTableOwned(s: Mem, d: nat, x: nat, t: nat)
    requires Owned(s).Clean? && d in s.dirs && x < ENTRIES && TableOf(s, d, x) == None && t in s.ow
    requires s.ow[t] == Held(d)
    ensures Owned(WithTable(s, d, x, t)).Clean?
  {
    var u := WithTable(s, d, x, t);
    forall e, v ensures TableOk(u, e, v) { TableAt(s, e, v); TableAt(s, d, x); }
    forall e, v, y ensures EntryOk(u, e, v, y) { EntryAt(s, e, v, y); WithTableEntry(s, d, x, t, e, v, y); }
    forall q | q in u.ow
      ensures OwnerOk(u, q)
    {
      OwnerAt(s, q);
      if s.ow[q].Frame? { WithTableEntry(s, d, x, t, s.ow[q].d, s.ow[q].x, s.ow[q].y); }
    }
  }

  /** A user page held so far gets its entry. */
  function WithPage(s: Mem, d: nat, x: nat, y: nat, t: nat, e: Pte): Mem
    requires t in s.tabs
  {
    s.(tabs := Store(s.tabs, t, y, e), ow := s.ow[e.frame := Frame(d, x, y)])
  }

  lemma WithPageOwned(s: Mem, d: nat, x: nat, y: nat, t: nat, e: Pte)
    requires Owned(s).Clean? && x < USER && y < ENTRIES && TableOf(s, d, x) == Some(t) && t in s.tabs
    requires Entry(s, d, x, y) == None
    requires e.frame in s.ow && s.ow[e.frame] == Held(d) && e.frame in s.data
    ensures Owned(WithPage(s, d, x, y, t, e)).Clean? && RestOf(s, WithPage(s, d, x, y, t, e), d).Clean?
    ensures forall b, v, w ::
      Entry(WithPage(s, d, x, y, t, e), b, v, w) == if b == d && v == x && w == y then Some(e) else Entry(s, b, v, w)
  {
    var u := WithPage(s, d, x, y, t, e);
    TableAt(s, d, x);
    forall b, v, w
      ensures Entry(u, b, v, w) == if b == d && v == x && w == y then Some(e) else Entry(s, b, v, w)
    {
      TableAt(s, b, v);
    }
    forall b, v ensures TableOk(u, b, v) { TableAt(s, b, v); }
    forall b, v, w ensures EntryOk(u, b, v, w) { EntryAt(s, b, v, w); }
    forall q | q in u.ow ensures OwnerOk(u, q) { OwnerAt(s, q); }
  }

  /** A page of the kernel half gets its entry. */
  function WithKernel(s: Mem, y: nat, t: nat, e: Pte): Mem
    requires t in s.tabs
  {
    s.(tabs := Store(s.tabs, t, y, e))
  }

  lemma WithKernelOwned(s: Mem, d: nat, x: nat, y: nat, t: nat, e: Pte)
    requires Owned(s).Clean? && x >= USER && TableOf(s, d, x) == Some(t) && t in s.tabs
    ensures Owned(WithKernel(s, y, t, e)).Clean? && RestOf(s, WithKernel(s, y, t, e), d).Clean?
    ensures forall b, v, w ::
      Entry(WithKernel(s, y, t, e), b, v, w) == if b == d && v == x && w == y then Some(e) else Entry(s, b, v, w)
  {
    var u := WithKernel(s, y, t, e);
    TableAt(s, d, x);
    forall b, v, w
      ensures Entry(u, b, v, w) == if b == d && v == x && w == y then Some(e) else Entry(s, b, v, w)
    {
      TableAt(s, b, v);
    }
    forall b, v ensures TableOk(u, b, v) { TableAt(s, b, v); }
    forall b, v, w ensures EntryOk(u, b, v, w) { EntryAt(s, b, v, w); }
    forall q | q in u.ow ensures OwnerOk(u, q) { OwnerAt(s, q); }
  }

  /** The entry of a user page is cleared; its frame is then in the caller's hands. */
  function WithoutPage(s: Mem, d: nat, y: nat, t: nat, f: nat): Mem
    requires t in s.tabs
  {
    s.(tabs := Erase(s.tabs, t, y), ow := s.ow[f := Held(d)])
  }

  lemma WithoutPageEntry(s: Mem, d: nat, x: nat, y: nat, t: nat, f: nat, b: nat, v: nat, w: nat)
    requires Owned(s).Clean? && TableOf(s, d, x) == Some(t) && t in s.tabs
    ensures Entry(WithoutPage(s, d, y, t, f), b, v, w) == if b == d && v == x && w == y then None else Entry(s, b, v, w)
  {
    TableAt(s, d, x);
    TableAt(s, b, v);
  }

  lemma WithoutPageRest(s: Mem, d: nat, x: nat, y: nat, t: nat, f: nat)
    requires Owned(s).Clean? && x < USER && TableOf(s, d, x) == Some(t) && t in s.tabs
    requires Entry(s, d, x, y).Some? && f == Entry(s, d, x, y).value.frame
    ensures RestOf(s, WithoutPage(s, d, y, t, f), d).Clean? && f in s.ow && s.ow[f] == Frame(d, x, y) && f in s.data
  {
    TableAt(s, d, x);
    EntryAt(s, d, x, y);
  }

  lemma WithoutPageOwned(s: Mem, d: nat, x: nat, y: nat, t: nat, f: nat)
    requires Owned(s).Clean? && x < USER && TableOf(s, d, x) == Some(t) && t in s.tabs
    requires Entry(s, d, x, y).Some? && f == Entry(s, d, x, y).value.frame
    ensures Owned(WithoutPage(s, d, y, t, f)).Clean?
  {
    var u := WithoutPage(s, d, y, t, f);
    EntryAt(s, d, x, y);
    forall b, v ensures TableOk(u, b, v) { TableAt(s, b, v); }
    forall b, v, w ensures EntryOk(u, b, v, w) { EntryAt(s, b, v, w); WithoutPageEntry(s, d, x, y, t, f, b, v, w); }
    forall q | q in u.ow
      ensures OwnerOk(u, q)
    {
      OwnerAt(s, q);
      if s.ow[q].Frame? { WithoutPageEntry(s, d, x, y, t, f, s.ow[q].d, s.ow[q].x, s.ow[q].y); }
    }
  }

  /** freevm gives a table back; its directory, which goes next, is not looked at again, so
      the entry is dropped with it. */
  function WithoutTable(s: Mem, d: nat, x: nat, t: nat): Mem
    requires d in s.dirs
  {
    s.(dirs := Leave(s.dirs, d, x), tabs := s.tabs - {t}, ow := s.ow[t := Held(d)])
  }

  lemma WithoutTableEntry(s: Mem, d: nat, x: nat, t: nat, b: nat, v: nat, w: nat)
    requires Owned(s).Clean? && d in s.dirs && TableOf(s, d, x) == Some(t)
    ensures TableOf(WithoutTable(s, d, x, t), b, v) == if b == d && v == x then None else TableOf(s, b, v)
    ensures Entry(WithoutTable(s, d, x, t), b, v, w) == if b == d && v == x then None else Entry(s, b, v, w)
  {
    TableAt(s, d, x);
    TableAt(s, b, v);
  }

  lemma WithoutTableRest(s: Mem, d: nat, x: nat, t: nat)
    requires Owned(s).Clean? && d in s.dirs && TableOf(s, d, x) == Some(t)
    ensures RestOf(s, WithoutTable(s, d, x, t), d).Clean?
  {
    TableAt(s, d, x);
  }

  lemma WithoutTableOwned(s: Mem, d: nat, x: nat, t: nat)
    requires Owned(s).Clean? && d in s.dirs && TableOf(s, d, x) == Some(t)
    requires (x < USER ==> forall y :: Entry(s, d, x, y) == None)
    ensures Owned(WithoutTable(s, d, x, t)).Clean?
  {
    var u := WithoutTable(s, d, x, t);
    TableAt(s, d, x);
    forall b, v ensures TableOk(u, b, v) { TableAt(s, b, v); WithoutTableEntry(s, d, x, t, b, v, 0); }
    forall b, v, w ensures EntryOk(u, b, v, w) { EntryAt(s, b, v, w); WithoutTableEntry(s, d, x, t, b, v, w); }
    forall q | q in u.ow
      ensures OwnerOk(u, q)
    {
      OwnerAt(s, q);
      match s.ow[q]
      case Table(b, v) => WithoutTableEntry(s, d, x, t, b, v, 0);
      case Frame(b, v, w) => WithoutTableEntry(s, d, x, t, b, v, w);
      case _ =>
    }
  }

  /** A page held becomes a directory, and back. */
  function WithDir(s: Mem, d: nat): Mem {
    s.(dirs := s.dirs[d := map[]], ow := s.ow[d := Directory])
  }

  lemma WithDirRest(s: Mem, d: nat)
    requires Owned(s).Clean? && d in s.ow && s.ow[d] == Held(d) && d !in s.dirs
    ensures RestOf(s, WithDir(s, d), d).Clean? && forall b, v, w :: Entry(WithDir(s, d), b, v, w) == Entry(s, b, v, w)
  {
  }

  lemma WithDirOwned(s: Mem, d: nat)
    requires Owned(s).Clean? && d in s.ow && s.ow[d] == Held(d) && d !in s.dirs
    ensures Owned(WithDir(s, d)).Clean? && RestOf(s, WithDir(s, d), d).Clean?
    ensures forall b, v, w :: Entry(WithDir(s, d), b, v, w) == Entry(s, b, v, w)
  {
    hide RestOf;
    var u := WithDir(s, d);
    WithDirRest(s, d);
    forall b, v ensures TableOk(u, b, v) { TableAt(s, b, v); }
    forall b, v, w ensures EntryOk(u, b, v, w) { EntryAt(s, b, v, w); }
    forall q | q in u.ow ensures OwnerOk(u, q) { OwnerAt(s, q); }
  }

  function WithoutDir(s: Mem, d: nat): Mem {
    s.(dirs := s.dirs - {d}, ow := s.ow[d := Held(d)])
  }

  lemma WithoutDirRest(s: Mem, d: nat)
    requires Owned(s).Clean? && d in s.dirs && forall x :: TableOf(s, d, x) == None
    ensures RestOf(s, WithoutDir(s, d), d).Clean?
    ensures forall b, v, w ::
      Entry(WithoutDir(s, d), b, v, w) == Entry(s, b, v, w)
  {
    forall b, v, w
      ensures Entry(WithoutDir(s, d), b, v, w) == Entry(s, b, v, w)
    {
      if b == d { assert TableOf(s, d, v) == None; }
    }
  }

  lemma WithoutDirOwned(s: Mem, d: nat)
    requires Owned(s).Clean? && d in s.dirs && forall x :: TableOf(s, d, x) == None
    ensures Owned(WithoutDir(s, d)).Clean? && RestOf(s, WithoutDir(s, d), d).Clean?
    ensures forall b, v, w :: Entry(WithoutDir(s, d), b, v, w) == Entry(s, b, v, w)
  {
    hide RestOf;
    var u := WithoutDir(s, d);
    WithoutDirRest(s, d);
    forall b, v ensures TableOk(u, b, v) { TableAt(s, b, v); assert b == d ==> TableOf(s, b, v) == None; }
    forall b, v, w ensures EntryOk(u, b, v, w) { EntryAt(s, b, v, w); }
    forall q | q in u.ow ensures OwnerOk(u, q) { OwnerAt(s, q); }
  }

  // ---- a call at work on d -----------------------------------------------

  /** From s0 to s only what belongs to d changed, and all is in order. */
  ghost function Work(pool: set<nat>, s0: Mem, s: Mem, d: nat): Verdict {
    if Pool(pool, s).Clean? && Owned(s).Clean? && RestOf(s0, s, d).Clean? then Clean else Corrupt
  }

  /** Nothing in use belongs to d. */
  ghost predicate NoneOf(s: Mem, d: nat) {
    d !in s.dirs && forall p | p in s.ow :: !Belongs(s.ow[p], p, d)
  }

  /** A directory without tables, and no page in hand, leaves nothing behind when it goes. */
  lemma NothingLeft(s: Mem, d: nat)
    requires Owned(s).Clean? && NoneHeld(s, d) && d !in s.dirs && forall x :: TableOf(s, d, x) == None
    ensures NoneOf(s, d)
  {
    forall p | p in s.ow
      ensures !Belongs(s.ow[p], p, d)
    {
      OwnerAt(s, p);
      match s.ow[p]
      case Table(_, x) => assert TableOf(s, d, x) == None;
      case Frame(_, x, _) => assert TableOf(s, d, x) == None;
      case _ =>
    }
  }

  lemma WorkOn(pool: set<nat>, s0: Mem, s: Mem, t: Mem, d: nat)
    requires Work(pool, s0, s, d).Clean? && Work(pool, s, t, d).Clean?
    ensures Work(pool, s0, t, d).Clean?
  {
    RestTransitive(s0, s, t, d);
  }

  lemma NoWork(pool: set<nat>, s: Mem, d: nat)
    requires Pool(pool, s).Clean? && Owned(s).Clean?
    ensures Work(pool, s, s, d).Clean?
  {
  }

  /** Between calls nothing is in hand. */
  ghost predicate Quiet(s: Mem) {
    forall p | p in s.ow :: !s.ow[p].Held?
  }

  /** A call that leaves the same pages in the hands of calls on d, and everything else alone,
      leaves nothing in hand if nothing was. */
  lemma StaysQuiet(s: Mem, t: Mem, d: nat)
    requires Quiet(s) && RestOf(s, t, d).Clean? && NoneHeld(t, d)
    ensures Quiet(t)
  {
    forall p | p in t.ow
      ensures !t.ow[p].Held?
    {
      if IsRest(t, d, p) { assert IsRest(s, d, p) && SamePage(s, t, p); }
    }
  }

  lemma FreshNone(s: Mem, d: nat)
    requires Owned(s).Clean? && Quiet(s) && d !in s.ow
    ensures NoneOf(s, d)
  {
    forall p | p in s.ow ensures !Belongs(s.ow[p], p, d) { OwnerAt(s, p); }
  }

  /** If nothing belongs to d before or after, nothing changed at all. */
  lemma BackToStart(pool: set<nat>, s0: Mem, s: Mem, d: nat)
    requires Pool(pool, s0).Clean? && Owned(s0).Clean? && Work(pool, s0, s, d).Clean? && NoneOf(s0, d) && NoneOf(s, d)
    ensures s.dirs == s0.dirs && s.tabs == s0.tabs && s.ow == s0.ow
    ensures forall p | p in s.ow ::
      (p in s.data <==> p in s0.data) && (p in s.data && p in s0.data ==> s.data[p] == s0.data[p])
    ensures forall p :: p in s.free <==> p in s0.free
  {
    forall p: nat
      ensures (p in s.ow <==> p in s0.ow) && (p in s.ow ==> SamePage(s0, s, p))
    {
      assert p in s.ow ==> IsRest(s, d, p);
      assert p in s0.ow ==> IsRest(s0, d, p);
    }
    assert forall t | t in s.tabs :: t in s.ow;
    assert forall t | t in s0.tabs :: t in s0.ow;
  }

  /** Two free lists of the same pages are equally long. */
  lemma SameLength(a: seq<nat>, b: seq<nat>)
    requires Distinct(a) && Distinct(b) && forall p :: p in a <==> p in b
    ensures |a| == |b|
  {
    DistinctWithin(a, b);
    DistinctWithin(b, a);
  }
}
