/** What growing, shrinking, copying and freeing an address space (vm.c) means, and how each is
    built up from single changes to the page tables. Pages are counted by their number, which is
    1024 times the directory index plus the table index; process sizes are in bytes. */
module AddressSpace {
  import opened Common
  import opened PageTables

  const KERNBASE: nat := 0x8000_0000
  const UPAGES: nat := 524288    // KERNBASE / PGSIZE

  /** PGROUNDUP(sz) / PGSIZE */
  function PagesUp(sz: nat): nat { (sz + 4095) / 4096 }

  function Zeroes(): Data { seq(4096, _ => 0) }
  function Junk(): Data { seq(4096, _ => 1) }

  /** What kfree leaves in a page. */
  predicate Trash(bytes: Data) { |bytes| == 4096 && forall k | 0 <= k < 4096 :: bytes[k] == 1 }

  lemma Split(i: nat) returns (x: nat, y: nat)
    ensures i == 1024 * x + y && y < 1024
  {
    x, y := i / 1024, i % 1024;
  }

  lemma SplitUnique(x: nat, y: nat, v: nat, w: nat)
    requires y < 1024 && w < 1024 && 1024 * x + y == 1024 * v + w
    ensures x == v && y == w
  {
  }

  datatype Shape = AsSaid | Otherwise

  /** The user pages lo..hi of d are gone, the others are what they were. */
  ghost function Hole(s0: Mem, s: Mem, d: nat, lo: nat, hi: nat): Shape {
    if forall x: nat, y: nat | y < 1024 :: See(s, d, x, y) == if lo <= 1024 * x + y < hi then None else See(s0, d, x, y)
    then AsSaid else Otherwise
  }

  predicate Holds(s: Mem, d: nat, p: nat) {
    p in s.ow && s.ow[p] == Held(d)
  }

  /** The same pages are in the hands of calls working on d. */
  ghost function Hands(s0: Mem, s: Mem, d: nat): Shape {
    if forall p :: Holds(s, d, p) <==> Holds(s0, d, p) then AsSaid else Otherwise
  }

  /** The kernel half of d is what it was. */
  ghost function KernelKept(s0: Mem, s: Mem, d: nat): Shape {
    if forall x: nat, y: nat | x >= USER :: Entry(s, d, x, y) == Entry(s0, d, x, y) then AsSaid else Otherwise
  }

  lemma KernelOn(s0: Mem, s: Mem, u: Mem, d: nat)
    requires KernelKept(s0, s, d).AsSaid? && KernelKept(s, u, d).AsSaid?
    ensures KernelKept(s0, u, d).AsSaid?
  {
  }

  lemma KernelThrough(s0: Mem, s: Mem, t: Mem, u: Mem, d: nat)
    requires KernelKept(s0, s, d).AsSaid? && t.dirs == s.dirs && t.tabs == s.tabs && KernelKept(t, u, d).AsSaid?
    ensures KernelKept(s0, u, d).AsSaid?
  {
    assert KernelKept(s, t, d).AsSaid?;
    KernelOn(s0, s, t, d);
  }

  /** Nothing that had an owner has a new one. */
  ghost function Kept(s0: Mem, s: Mem): Shape {
    if forall p | p in s0.ow :: p in s.ow && s.ow[p] == s0.ow[p] then AsSaid else Otherwise
  }

  ghost function SameEntries(s0: Mem, s: Mem): Shape {
    if forall e, v, y :: Entry(s, e, v, y) == Entry(s0, e, v, y) then AsSaid else Otherwise
  }

  // ---- what it costs -----------------------------------------------------

  function Lacks(s: Mem, d: nat, x: nat): nat {
    if TableOf(s, d, x) == None then 1 else 0
  }

  /** How many of the tables a..b of d are not there. */
  function Missing(s: Mem, d: nat, a: nat, b: nat): nat
    decreases b
  {
    if a >= b then 0 else Missing(s, d, a, b - 1) + Lacks(s, d, b - 1)
  }

  /** How many free pages it takes to map the pages lo..hi of d, tables included. */
  function Need(s: Mem, d: nat, lo: nat, hi: nat): nat {
    if lo < hi then hi - lo + Missing(s, d, lo / 1024, (hi + 1023) / 1024) else 0
  }

  /** The table at x is there now, and has cost a page if it was not before. */
  ghost function WalkCost(s0: Mem, s: Mem, d: nat, x: nat): Shape {
    if && |s.free| + Lacks(s0, d, x) == |s0.free|
       && forall v :: TableOf(s, d, v).Some? <==> v == x || TableOf(s0, d, v).Some?
    then AsSaid else Otherwise
  }

  lemma TableCost(s0: Mem, s: Mem, d: nat, x: nat, t: nat)
    requires s.dirs == s0.dirs && d in s.dirs && |s.free| + 1 == |s0.free| && TableOf(s0, d, x) == None
    ensures WalkCost(s0, WithTable(s, d, x, t), d, x).AsSaid?
  {
  }

  /** Writing an entry costs nothing. */
  lemma WriteCost(s0: Mem, s: Mem, d: nat, x: nat, tabs: map<nat, map<nat, Pte>>, ow: map<nat, Owner>)
    requires WalkCost(s0, s, d, x).AsSaid?
    ensures WalkCost(s0, s.(tabs := tabs, ow := ow), d, x).AsSaid?
  {
  }

  /** The tables a..e of d are there; they and pages other pages are what has been taken. */
  ghost function Spent(s0: Mem, s: Mem, d: nat, a: nat, e: nat, pages: nat): Shape {
    if && |s.free| + pages + Missing(s0, d, a, e) == |s0.free|
       && forall v: nat :: TableOf(s, d, v).Some? <==> a <= v < e || TableOf(s0, d, v).Some?
    then AsSaid else Otherwise
  }

  lemma SpentNothing(s: Mem, d: nat, a: nat)
    ensures Spent(s, s, d, a, a, 0).AsSaid?
  {
  }

  /** k more pages and the table at x. */
  lemma SpendStep(s0: Mem, s: Mem, t: Mem, u: Mem, d: nat, a: nat, e: nat, x: nat, k: nat, pages: nat, pages': nat)
    requires Spent(s0, s, d, a, e, pages).AsSaid? && t.dirs == s.dirs && |t.free| + k == |s.free|
    requires WalkCost(t, u, d, x).AsSaid?
    requires a <= x && a <= e && (e == x || e == x + 1) && pages' == pages + k
    ensures Spent(s0, u, d, a, x + 1, pages').AsSaid?
  {
    assert Lacks(t, d, x) == Lacks(s, d, x);
    assert forall v :: TableOf(t, d, v) == TableOf(s, d, v);
    if e == x { assert Lacks(s, d, x) == Lacks(s0, d, x); } else { assert TableOf(s, d, x).Some?; }
  }

  lemma {:induction false} MissingMore(s: Mem, d: nat, a: nat, b: nat, c: nat)
    requires b <= c
    ensures Missing(s, d, a, b) <= Missing(s, d, a, c)
    decreases c
  {
    if b < c { MissingMore(s, d, a, b, c - 1); }
  }

  /** Out of pages before page hi is reached: there were too few to begin with. */
  lemma SpendShort(s0: Mem, s: Mem, d: nat, a: nat, e: nat, x: nat, k: nat, pages: nat, end: nat, all: nat)
    requires Spent(s0, s, d, a, e, pages).AsSaid? && a <= x && a <= e && (e == x || e == x + 1) && x + 1 <= end
    requires pages + k <= all
    requires |s.free| < k || (|s.free| == k && TableOf(s, d, x) == None)
    ensures |s0.free| < all + Missing(s0, d, a, end)
  {
    MissingMore(s0, d, a, x + 1, end);
    if |s.free| >= k { assert e == x && Lacks(s0, d, x) == 1; } else { MissingMore(s0, d, a, e, x + 1); }
  }

  lemma {:induction false} MissingIs(s: Mem, d: nat, a: nat, t: nat, b: nat)
    requires a <= t <= b && (forall x: nat | a <= x < t :: TableOf(s, d, x).Some?)
    requires (forall x: nat | t <= x < b :: TableOf(s, d, x) == None)
    ensures Missing(s, d, a, b) == b - t
    decreases b
  {
    if t < b { MissingIs(s, d, a, t, b - 1); } else if a < b { MissingIs(s, d, a, t - 1, b - 1); }
  }

  function TableEnd(lo: nat, i: nat): nat { if i == lo then lo / 1024 else (i + 1023) / 1024 }

  /** The pages lo..i of d are mapped, which took pages pages and the tables that were missing. */
  ghost function Paid(s0: Mem, s: Mem, d: nat, lo: nat, i: nat, pages: nat): Shape {
    Spent(s0, s, d, lo / 1024, TableEnd(lo, i), pages)
  }

  lemma Reached(lo: nat, i: nat, x: nat, y: nat)
    requires lo <= i == 1024 * x + y && y < 1024
    ensures var a, e := lo / 1024, TableEnd(lo, i);
      a <= x && a <= e && (e == x || e == x + 1) && TableEnd(lo, i + 1) == x + 1
  {
  }

  lemma PayStep(s0: Mem, s: Mem, t: Mem, u: Mem, d: nat, lo: nat, i: nat, i': nat, x: nat, y: nat, k: nat, pages: nat,
                pages': nat)
    requires Paid(s0, s, d, lo, i, pages).AsSaid? && t.dirs == s.dirs && |t.free| + k == |s.free|
    requires WalkCost(t, u, d, x).AsSaid?
    requires lo <= i == 1024 * x + y && y < 1024 && i' == i + 1 && pages' == pages + k
    ensures Paid(s0, u, d, lo, i', pages').AsSaid?
  {
    Reached(lo, i, x, y);
    SpendStep(s0, s, t, u, d, lo / 1024, TableEnd(lo, i), x, k, pages, pages');
  }

  lemma PayShort(s0: Mem, s: Mem, d: nat, lo: nat, i: nat, hi: nat, x: nat, y: nat, k: nat, pages: nat, all: nat)
    requires Paid(s0, s, d, lo, i, pages).AsSaid? && lo <= i == 1024 * x + y && y < 1024 && i < hi && pages + k <= all
    requires |s.free| < k || (|s.free| == k && TableOf(s, d, x) == None)
    ensures |s0.free| < all + Missing(s0, d, lo / 1024, (hi + 1023) / 1024)
  {
    Reached(lo, i, x, y);
    SpendShort(s0, s, d, lo / 1024, TableEnd(lo, i), x, k, pages, (hi + 1023) / 1024, all);
  }

  lemma PaidAll(s0: Mem, s: Mem, d: nat, lo: nat, hi: nat)
    requires lo <= hi && Paid(s0, s, d, lo, hi, hi - lo).AsSaid?
    ensures |s0.free| == Need(s0, d, lo, hi) + |s.free|
  {
  }

  lemma TooFew(s0: Mem, s: Mem, d: nat, lo: nat, i: nat, hi: nat, x: nat, y: nat)
    requires lo <= i == 1024 * x + y && y < 1024 && i < hi && Paid(s0, s, d, lo, i, i - lo).AsSaid?
    requires s.free == [] || (|s.free| == 1 && TableOf(s, d, x) == None)
    ensures |s0.free| < Need(s0, d, lo, hi)
  {
    PayShort(s0, s, d, lo, i, hi, x, y, 1, i - lo, hi - lo);
  }

  /** d has the table t at x, and no page is mapped that was not before. */
  ghost function Walked(pool: set<nat>, s0: Mem, s: Mem, d: nat, x: nat, t: nat): Shape {
    if Work(pool, s0, s, d).Clean? && Hands(s0, s, d).AsSaid? && Kept(s0, s).AsSaid? && SameEntries(s0, s).AsSaid?
       && d in s.dirs && TableOf(s, d, x) == Some(t) && t in s.tabs
    then AsSaid else Otherwise
  }

  /** walkpgdir's new table, from kalloc on. */
  lemma TableWork(pool: set<nat>, s0: Mem, s: Mem, d: nat, x: nat, t: nat)
    requires Work(pool, s0, s, d).Clean? && t in s.ow && s.ow[t] == Held(d) && d in s.dirs && x < 1024
    requires TableOf(s, d, x) == None
    ensures Work(pool, s0, WithTable(s, d, x, t), d).Clean?
  {
    WithTableOwned(s, d, x, t);
    WithTableRest(s, d, x, t);
    RestTransitive(s0, s, WithTable(s, d, x, t), d);
  }

  lemma TableQuiet(s0: Mem, s: Mem, d: nat, x: nat, t: nat)
    requires Owned(s).Clean? && s.dirs == s0.dirs && s.tabs == s0.tabs && t !in s0.ow && s.ow == s0.ow[t := Held(d)]
    requires d in s.dirs && TableOf(s, d, x) == None
    ensures Hands(s0, WithTable(s, d, x, t), d).AsSaid? && Kept(s0, WithTable(s, d, x, t)).AsSaid?
    ensures SameEntries(s0, WithTable(s, d, x, t)).AsSaid?
  {
    forall e, v, y
      ensures Entry(WithTable(s, d, x, t), e, v, y) == Entry(s0, e, v, y)
    {
      WithTableEntry(s, d, x, t, e, v, y);
    }
  }

  /** The user page (x, y) of d is now page, the others are what they were. */
  ghost function Shows(s0: Mem, s: Mem, d: nat, x: nat, y: nat, page: Option<Page>): Shape {
    if forall v, w :: See(s, d, v, w) == if v == x && w == y then page else See(s0, d, v, w) then AsSaid else Otherwise
  }

  ghost function SameView(s0: Mem, s: Mem, d: nat): Shape {
    if forall v, w :: See(s, d, v, w) == See(s0, d, v, w) then AsSaid else Otherwise
  }

  lemma EntriesView(s0: Mem, s: Mem, d: nat)
    requires SameEntries(s0, s).AsSaid? && s.data == s0.data
    ensures SameView(s0, s, d).AsSaid?
  {
  }

  /** One user page more, and nothing left in hand. */
  ghost function Mapped(pool: set<nat>, s0: Mem, s: Mem, d: nat, x: nat, y: nat, page: Page): Shape {
    if Work(pool, s0, s, d).Clean? && d in s.dirs && Shows(s0, s, d, x, y, Some(page)).AsSaid?
       && HandsBut(s0, s, d, page.frame).AsSaid? && KernelKept(s0, s, d).AsSaid?
    then AsSaid else Otherwise
  }

  /** The same pages are in hand but for f, which no longer is. */
  ghost function HandsBut(s0: Mem, s: Mem, d: nat, f: nat): Shape {
    if forall p :: Holds(s, d, p) <==> p != f && Holds(s0, d, p) then AsSaid else Otherwise
  }

  lemma PageHands(s0: Mem, s: Mem, d: nat, x: nat, y: nat, t: nat, e: Pte)
    requires Hands(s0, s, d).AsSaid? && t in s.tabs
    ensures HandsBut(s0, WithPage(s, d, x, y, t, e), d, e.frame).AsSaid?
  {
  }

  lemma PageWork(pool: set<nat>, s0: Mem, s: Mem, d: nat, x: nat, y: nat, t: nat, e: Pte)
    requires Work(pool, s0, s, d).Clean?
    requires x < USER && y < 1024 && TableOf(s, d, x) == Some(t) && t in s.tabs && Entry(s, d, x, y) == None
    requires e.frame in s.ow && s.ow[e.frame] == Held(d) && e.frame in s.data
    ensures Work(pool, s0, WithPage(s, d, x, y, t, e), d).Clean?
  {
    WithPageOwned(s, d, x, y, t, e);
    RestTransitive(s0, s, WithPage(s, d, x, y, t, e), d);
  }

  lemma PageShows(s0: Mem, s: Mem, d: nat, x: nat, y: nat, t: nat, e: Pte)
    requires Owned(s).Clean? && SameEntries(s0, s).AsSaid? && s.data == s0.data
    requires x < USER && y < 1024 && TableOf(s, d, x) == Some(t) && t in s.tabs && Entry(s, d, x, y) == None
    requires e.frame in s.ow && s.ow[e.frame] == Held(d) && e.frame in s.data
    ensures Shows(s0, WithPage(s, d, x, y, t, e), d, x, y, Some(Page(e.frame, e.flags, s0.data[e.frame]))).AsSaid?
  {
    WithPageOwned(s, d, x, y, t, e);
    EntriesView(s0, s, d);
    var u := WithPage(s, d, x, y, t, e);
    forall v, w
      ensures See(u, d, v, w) == if v == x && w == y then Some(Page(e.frame, e.flags, s0.data[e.frame]))
        else See(s0, d, v, w)
    {
      assert Entry(u, d, v, w) == if v == x && w == y then Some(e) else Entry(s, d, v, w);
      assert See(s, d, v, w) == See(s0, d, v, w);
    }
  }

  /** mappages for one user page, from walkpgdir on. */
  lemma PageMapped(pool: set<nat>, s0: Mem, s: Mem, d: nat, x: nat, y: nat, t: nat, e: Pte)
    requires Walked(pool, s0, s, d, x, t).AsSaid? && s.data == s0.data && x < USER && y < 1024
    requires Entry(s0, d, x, y) == None
    requires e.frame in s0.ow && s0.ow[e.frame] == Held(d) && e.frame in s0.data
    ensures t in s.tabs
    ensures Mapped(pool, s0, WithPage(s, d, x, y, t, e), d, x, y, Page(e.frame, e.flags, s0.data[e.frame])).AsSaid?
  {
    assert Entry(s, d, x, y) == Entry(s0, d, x, y);
    assert e.frame in s.ow && s.ow[e.frame] == Held(d);
    PageWork(pool, s0, s, d, x, y, t, e);
    PageShows(s0, s, d, x, y, t, e);
    PageHands(s0, s, d, x, y, t, e);
    PageKernel(s0, s, d, x, y, t, e);
  }

  lemma PageKernel(s0: Mem, s: Mem, d: nat, x: nat, y: nat, t: nat, e: Pte)
    requires Owned(s).Clean? && SameEntries(s0, s).AsSaid? && x < USER && TableOf(s, d, x) == Some(t) && t in s.tabs
    ensures KernelKept(s0, WithPage(s, d, x, y, t, e), d).AsSaid?
  {
    forall v: nat, w: nat | v >= USER
      ensures Entry(WithPage(s, d, x, y, t, e), d, v, w) == Entry(s0, d, v, w)
    {
      TableAt(s, d, x);
      TableAt(s, d, v);
      assert Entry(s, d, v, w) == Entry(s0, d, v, w);
    }
  }

  // ---- giving pages back -------------------------------------------------

  /** One user page less, and nothing in hand that was not before. */
  ghost function Unmapped(pool: set<nat>, s0: Mem, s: Mem, d: nat, x: nat, y: nat): Shape {
    if && Work(pool, s0, s, d).Clean? && Shows(s0, s, d, x, y, None).AsSaid? && Hands(s0, s, d).AsSaid?
       && KernelKept(s0, s, d).AsSaid?
    then AsSaid else Otherwise
  }

  /** The state after deallocuvm has freed frame f and cleared its entry. */
  function Dropped(s: Mem, d: nat, y: nat, t: nat, f: nat): Mem
    requires t in s.tabs
  {
    Gave(WithoutPage(s, d, y, t, f), f, Junk())
  }

  lemma DropWork(pool: set<nat>, s: Mem, d: nat, x: nat, y: nat, t: nat, f: nat)
    requires Pool(pool, s).Clean? && Owned(s).Clean? && x < USER && TableOf(s, d, x) == Some(t) && t in s.tabs
    requires Entry(s, d, x, y).Some? && f == Entry(s, d, x, y).value.frame
    ensures Work(pool, s, Dropped(s, d, y, t, f), d).Clean?
  {
    var u := WithoutPage(s, d, y, t, f);
    WithoutPageRest(s, d, x, y, t, f);
    WithoutPageOwned(s, d, x, y, t, f);
    GaveOwned(u, f, Junk(), d);
    RestTransitive(s, u, Dropped(s, d, y, t, f), d);
    GavePool(pool, s, f, Junk());
    assert Pool(pool, Dropped(s, d, y, t, f)).Clean?;
  }

  lemma DropShows(s: Mem, d: nat, x: nat, y: nat, t: nat, f: nat)
    requires Owned(s).Clean? && x < USER && TableOf(s, d, x) == Some(t) && t in s.tabs
    requires Entry(s, d, x, y).Some? && f == Entry(s, d, x, y).value.frame
    ensures Shows(s, Dropped(s, d, y, t, f), d, x, y, None).AsSaid?
  {
    var u := Dropped(s, d, y, t, f);
    EntryAt(s, d, x, y);
    forall v, w
      ensures See(u, d, v, w) == if v == x && w == y then None else See(s, d, v, w)
    {
      WithoutPageEntry(s, d, x, y, t, f, d, v, w);
      assert Entry(u, d, v, w) == Entry(WithoutPage(s, d, y, t, f), d, v, w);
      EntryAt(s, d, v, w);
    }
  }

  lemma DropKernel(s: Mem, d: nat, x: nat, y: nat, t: nat, f: nat)
    requires Owned(s).Clean? && x < USER && TableOf(s, d, x) == Some(t) && t in s.tabs
    ensures KernelKept(s, Dropped(s, d, y, t, f), d).AsSaid?
  {
    forall v: nat, w: nat | v >= USER
      ensures Entry(Dropped(s, d, y, t, f), d, v, w) == Entry(s, d, v, w)
    {
      WithoutPageEntry(s, d, x, y, t, f, d, v, w);
    }
  }

  lemma DropHands(s: Mem, d: nat, y: nat, t: nat, f: nat)
    requires t in s.tabs && !Holds(s, d, f)
    ensures Hands(s, Dropped(s, d, y, t, f), d).AsSaid?
  {
  }

  lemma HoleStep(s0: Mem, s: Mem, u: Mem, d: nat, lo: nat, x: nat, y: nat, i: nat, i': nat)
    requires Hole(s0, s, d, lo, i).AsSaid? && Shows(s, u, d, x, y, None).AsSaid? && y < 1024 && i == 1024 * x + y
    requires lo <= i
    requires i' == i + 1
    ensures Hole(s0, u, d, lo, i').AsSaid?
  {
    forall v: nat, w: nat | w < 1024
      ensures See(u, d, v, w) == if lo <= 1024 * v + w < i' then None else See(s0, d, v, w)
    {
      if 1024 * v + w == i { SplitUnique(v, w, x, y); }
    }
  }

  /** Pages that are not there need no clearing. */
  lemma HoleJump(s0: Mem, s: Mem, d: nat, lo: nat, i: nat, i': nat)
    requires Hole(s0, s, d, lo, i).AsSaid? && lo <= i <= i'
    requires forall x: nat, y: nat | y < 1024 && i <= 1024 * x + y < i' :: See(s, d, x, y) == None
    ensures Hole(s0, s, d, lo, i').AsSaid?
  {
  }

  /** deallocuvm at work: lo..i cleared. */
  ghost function Clearing(pool: set<nat>, s0: Mem, s: Mem, d: nat, lo: nat, i: nat): Shape {
    if && Work(pool, s0, s, d).Clean? && Hands(s0, s, d).AsSaid? && Hole(s0, s, d, lo, i).AsSaid?
       && KernelKept(s0, s, d).AsSaid?
    then AsSaid else Otherwise
  }

  lemma ClearNothing(pool: set<nat>, s: Mem, d: nat, lo: nat)
    requires Pool(pool, s).Clean? && Owned(s).Clean?
    ensures Clearing(pool, s, s, d, lo, lo).AsSaid?
  {
    NoWork(pool, s, d);
  }

  lemma ClearStep(pool: set<nat>, s0: Mem, s: Mem, u: Mem, d: nat, lo: nat, x: nat, y: nat, i: nat, i': nat)
    requires Clearing(pool, s0, s, d, lo, i).AsSaid? && Unmapped(pool, s, u, d, x, y).AsSaid?
    requires y < 1024 && i == 1024 * x + y && lo <= i && i' == i + 1
    ensures Clearing(pool, s0, u, d, lo, i').AsSaid?
  {
    WorkOn(pool, s0, s, u, d);
    HoleStep(s0, s, u, d, lo, x, y, i, i');
    KernelOn(s0, s, u, d);
  }

  lemma ClearAbsent(pool: set<nat>, s0: Mem, s: Mem, d: nat, lo: nat, x: nat, y: nat, i: nat, i': nat)
    requires Clearing(pool, s0, s, d, lo, i).AsSaid? && Entry(s, d, x, y) == None
    requires y < 1024 && i == 1024 * x + y && lo <= i && i' == i + 1
    ensures Clearing(pool, s0, s, d, lo, i').AsSaid?
  {
    forall v: nat, w: nat | w < 1024 && i <= 1024 * v + w < i'
      ensures See(s, d, v, w) == None
    {
      SplitUnique(v, w, x, y);
    }
    HoleJump(s0, s, d, lo, i, i');
  }

  lemma ClearTable(pool: set<nat>, s0: Mem, s: Mem, d: nat, lo: nat, x: nat, y: nat, i: nat, i': nat)
    requires Clearing(pool, s0, s, d, lo, i).AsSaid? && TableOf(s, d, x) == None
    requires y < 1024 && i == 1024 * x + y && lo <= i <= i' <= 1024 * (x + 1)
    ensures Clearing(pool, s0, s, d, lo, i').AsSaid?
  {
    forall v: nat, w: nat | w < 1024 && i <= 1024 * v + w < i' ensures See(s, d, v, w) == None { assert v == x; }
    HoleJump(s0, s, d, lo, i, i');
  }

  // ---- tearing down ------------------------------------------------------

  /** freevm at work: no user pages, and the tables below k gone. */
  ghost function Tearing(pool: set<nat>, s0: Mem, s: Mem, d: nat, k: nat): Shape {
    if && Work(pool, s0, s, d).Clean? && Hands(s0, s, d).AsSaid? && d in s.dirs
       && (forall x: nat, y: nat | x < USER :: Entry(s, d, x, y) == None)
       && (forall x: nat | x < k :: TableOf(s, d, x) == None)
    then AsSaid else Otherwise
  }

  lemma TearStart(pool: set<nat>, s0: Mem, s: Mem, d: nat)
    requires Clearing(pool, s0, s, d, 0, UPAGES).AsSaid? && d in s.dirs
    ensures Tearing(pool, s0, s, d, 0).AsSaid?
  {
    forall x: nat, y: nat | x < USER
      ensures Entry(s, d, x, y) == None
    {
      EntryAt(s, d, x, y);
      if y < 1024 { assert See(s, d, x, y) == None; }
    }
  }

  /** The state after freevm has freed the table t. */
  function TableDropped(s: Mem, d: nat, x: nat, t: nat): Mem
    requires d in s.dirs
  {
    Gave(WithoutTable(s, d, x, t), t, Junk())
  }

  lemma TableDropWork(pool: set<nat>, s: Mem, d: nat, x: nat, t: nat)
    requires Pool(pool, s).Clean? && Owned(s).Clean? && d in s.dirs && TableOf(s, d, x) == Some(t)
    requires x < USER ==> forall y :: Entry(s, d, x, y) == None
    ensures Work(pool, s, TableDropped(s, d, x, t), d).Clean?
  {
    hide Owned, TableOf, Entry, RestOf, Junk;
    var u := WithoutTable(s, d, x, t);
    TableAt(s, d, x);
    WithoutTableRest(s, d, x, t);
    WithoutTableOwned(s, d, x, t);
    GaveOwned(u, t, Junk(), d);
    RestTransitive(s, u, TableDropped(s, d, x, t), d);
    GavePool(pool, s, t, Junk());
    assert Pool(pool, TableDropped(s, d, x, t)).Clean?;
  }

  /** A dropped table is gone from d, with its entries; nothing else of d is. */
  lemma TearView(s: Mem, d: nat, k: nat, t: nat)
    requires Owned(s).Clean? && TableOf(s, d, k) == Some(t)
    ensures d in s.dirs
    ensures forall x: nat :: TableOf(TableDropped(s, d, k, t), d, x) == if x == k then None else TableOf(s, d, x)
    ensures forall x: nat, y: nat ::
      Entry(TableDropped(s, d, k, t), d, x, y) == if x == k then None else Entry(s, d, x, y)
  {
    var u := TableDropped(s, d, k, t);
    TableAt(s, d, k);
    forall x: nat
      ensures TableOf(u, d, x) == if x == k then None else TableOf(s, d, x)
    {
      WithoutTableEntry(s, d, k, t, d, x, 0);
    }
    forall x: nat, y: nat
      ensures Entry(u, d, x, y) == if x == k then None else Entry(s, d, x, y)
    {
      WithoutTableEntry(s, d, k, t, d, x, y);
    }
  }

  lemma TearHands(s0: Mem, s: Mem, d: nat, k: nat, t: nat)
    requires Hands(s0, s, d).AsSaid? && Owned(s).Clean? && TableOf(s, d, k) == Some(t)
    ensures d in s.dirs && Hands(s0, TableDropped(s, d, k, t), d).AsSaid?
  {
    TableAt(s, d, k);
  }

  lemma TearStep(pool: set<nat>, s0: Mem, s: Mem, d: nat, k: nat, k': nat, t: nat)
    requires Tearing(pool, s0, s, d, k).AsSaid? && TableOf(s, d, k) == Some(t) && k' == k + 1
    ensures d in s.dirs && Tearing(pool, s0, TableDropped(s, d, k, t), d, k').AsSaid?
  {
    hide Hands, Junk;
    TearView(s, d, k, t);
    TearHands(s0, s, d, k, t);
    TableDropWork(pool, s, d, k, t);
    WorkOn(pool, s0, s, TableDropped(s, d, k, t), d);
  }

  /** The state after freevm has freed the directory too. */
  function DirDropped(s: Mem, d: nat): Mem {
    Gave(WithoutDir(s, d), d, Junk())
  }

  lemma DirDropWork(pool: set<nat>, s: Mem, d: nat)
    requires Pool(pool, s).Clean? && Owned(s).Clean? && d in s.dirs && forall x :: TableOf(s, d, x) == None
    ensures Work(pool, s, DirDropped(s, d), d).Clean?
  {
    var u := WithoutDir(s, d);
    WithoutDirOwned(s, d);
    GaveOwned(u, d, Junk(), d);
    RestTransitive(s, u, DirDropped(s, d), d);
    GavePool(pool, s, d, Junk());
    assert Pool(pool, DirDropped(s, d)).Clean?;
  }

  lemma TearEnd(pool: set<nat>, s0: Mem, s: Mem, d: nat)
    requires Tearing(pool, s0, s, d, 1024).AsSaid?
    ensures Work(pool, s0, DirDropped(s, d), d).Clean?
    ensures Hands(s0, DirDropped(s, d), d).AsSaid? && d !in DirDropped(s, d).dirs
  {
    forall x ensures TableOf(s, d, x) == None { TableAt(s, d, x); }
    DirDropWork(pool, s, d);
    WorkOn(pool, s0, s, DirDropped(s, d), d);
    forall p ensures Holds(DirDropped(s, d), d, p) <==> Holds(s0, d, p) { assert Holds(s, d, p) <==> Holds(s0, d, p); }
  }

  lemma TornDown(s0: Mem, s: Mem, d: nat)
    requires Owned(s).Clean? && Hands(s0, s, d).AsSaid? && NoneHeld(s0, d) && d !in s.dirs
    ensures NoneOf(s, d)
  {
    forall p | p in s.ow ensures s.ow[p] != Held(d) { assert Holds(s, d, p) <==> Holds(s0, d, p); }
    NothingLeft(s, d);
  }

  // ---- new pages ---------------------------------------------------------

  /** What allocuvm and copyuvm put into the pages they map. */
  datatype Plan = Blank | CopyOf(d: nat)

  function Wanted(plan: Plan, s0: Mem, x: nat, y: nat): Option<(nat, Data)> {
    match plan
    case Blank => Some((PTE_W + PTE_U, Zeroes()))
    case CopyOf(d) => var p := See(s0, d, x, y); if p.Some? then Some((p.value.flags, p.value.bytes)) else None
  }

  predicate Fits(page: Option<Page>, want: Option<(nat, Data)>) {
    page.Some? && want.Some? && want.value == (page.value.flags, page.value.bytes)
  }

  /** The user pages lo..i of d are there and hold what the plan says, the others are what they were. */
  ghost function Planned(s0: Mem, s: Mem, d: nat, lo: nat, i: nat, plan: Plan): Shape {
    if forall x: nat, y: nat | y < 1024 ::
      if lo <= 1024 * x + y < i
      then Fits(See(s, d, x, y), Wanted(plan, s0, x, y))
      else See(s, d, x, y) == See(s0, d, x, y)
    then AsSaid else Otherwise
  }

  ghost function Growing(pool: set<nat>, s0: Mem, s: Mem, d: nat, lo: nat, i: nat, plan: Plan): Shape {
    if && Work(pool, s0, s, d).Clean? && Hands(s0, s, d).AsSaid? && d in s.dirs
       && Planned(s0, s, d, lo, i, plan).AsSaid?
       && KernelKept(s0, s, d).AsSaid?
    then AsSaid else Otherwise
  }

  /** p was free, is now in hand and filled with bytes. */
  ghost function Taken(pool: set<nat>, s0: Mem, s: Mem, d: nat, p: nat, bytes: Data): Shape {
    if && Work(pool, s0, s, d).Clean? && p !in s0.ow && s.ow == s0.ow[p := Held(d)]
       && s.dirs == s0.dirs && s.tabs == s0.tabs && p in s.data && s.data[p] == bytes && SameView(s0, s, d).AsSaid?
    then AsSaid else Otherwise
  }

  lemma TakenHolds(pool: set<nat>, s0: Mem, s: Mem, d: nat, p: nat, bytes: Data)
    requires Owned(s0).Clean? && Work(pool, s0, s, d).Clean? && p !in s0.ow && s.ow == s0.ow[p := Held(d)]
    requires s.dirs == s0.dirs && s.tabs == s0.tabs && s.data == s0.data
    ensures Taken(pool, s0, Filled(s, p, bytes), d, p, bytes).AsSaid?
  {
    var u := Filled(s, p, bytes);
    FilledOwned(s, p, bytes, d);
    RestTransitive(s0, s, u, d);
    assert Pool(pool, u).Clean?;
    forall v, w ensures See(u, d, v, w) == See(s0, d, v, w) { SeeHeld(s0, u, p, d, v, w); }
  }

  lemma PlanStep(s0: Mem, s: Mem, u: Mem, d: nat, lo: nat, x: nat, y: nat, i: nat, i': nat, plan: Plan, page: Page)
    requires Planned(s0, s, d, lo, i, plan).AsSaid? && Shows(s, u, d, x, y, Some(page)).AsSaid?
    requires y < 1024 && i == 1024 * x + y && lo <= i && i' == i + 1 && Fits(Some(page), Wanted(plan, s0, x, y))
    ensures Planned(s0, u, d, lo, i', plan).AsSaid?
  {
    forall v: nat, w: nat | w < 1024
      ensures if lo <= 1024 * v + w < i' then Fits(See(u, d, v, w), Wanted(plan, s0, v, w))
        else See(u, d, v, w) == See(s0, d, v, w)
    {
      if 1024 * v + w == i { SplitUnique(v, w, x, y); }
    }
  }

  lemma TakenHands(pool: set<nat>, s: Mem, t: Mem, u: Mem, d: nat, p: nat, bytes: Data)
    requires Taken(pool, s, t, d, p, bytes).AsSaid? && HandsBut(t, u, d, p).AsSaid?
    ensures Hands(s, u, d).AsSaid?
  {
    forall q ensures Holds(u, d, q) <==> Holds(s, d, q) { assert Holds(u, d, q) <==> q != p && Holds(t, d, q); }
  }

  lemma TakenShows(s: Mem, t: Mem, u: Mem, d: nat, x: nat, y: nat, page: Option<Page>)
    requires SameView(s, t, d).AsSaid? && Shows(t, u, d, x, y, page).AsSaid?
    ensures Shows(s, u, d, x, y, page).AsSaid?
  {
  }

  lemma GrowStep(pool: set<nat>, s0: Mem, s: Mem, t: Mem, u: Mem, d: nat, lo: nat, x: nat, y: nat, i: nat, i': nat,
                 plan: Plan, page: Page)
    requires Growing(pool, s0, s, d, lo, i, plan).AsSaid? && Taken(pool, s, t, d, page.frame, page.bytes).AsSaid?
    requires Mapped(pool, t, u, d, x, y, page).AsSaid?
    requires y < 1024 && i == 1024 * x + y && lo <= i && i' == i + 1 && Fits(Some(page), Wanted(plan, s0, x, y))
    ensures Growing(pool, s0, u, d, lo, i', plan).AsSaid?
  {
    hide Fits, Wanted, Work, Planned, KernelKept, SameView, Shows;
    WorkOn(pool, s0, s, t, d);
    WorkOn(pool, s0, t, u, d);
    TakenHands(pool, s, t, u, d, page.frame, page.bytes);
    TakenShows(s, t, u, d, x, y, Some(page));
    PlanStep(s0, s, u, d, lo, x, y, i, i', plan, page);
    KernelThrough(s0, s, t, u, d);
  }

  /** A page the process may read and write, all zero. */
  predicate Cleared(page: Option<Page>) {
    && page.Some? && page.value.flags == 6 && |page.value.bytes| == 4096
    && forall k | 0 <= k < 4096 :: page.value.bytes[k] == 0
  }

  lemma NewPagesCleared(s0: Mem, s: Mem, d: nat, oldsz: nat, newsz: nat)
    requires Planned(s0, s, d, PagesUp(oldsz), PagesUp(newsz), Blank).AsSaid?
    ensures forall x: nat, y: nat | y < 1024 && oldsz <= 4096 * (1024 * x + y) < newsz ::
      Cleared(See(s, d, x, y)) && See(s, d, x, y).value.bytes != Junk()
  {
    assert Zeroes()[0] != Junk()[0];
    forall x: nat, y: nat | y < 1024 && oldsz <= 4096 * (1024 * x + y) < newsz
      ensures Fits(See(s, d, x, y), Wanted(Blank, s0, x, y))
    {
      SpansUp(PagesUp(oldsz), oldsz);
      SpansUp(PagesUp(newsz), newsz);
    }
  }

  /** All is as it was, as far as a process can tell; d may have tables more than before. */
  ghost function Undone(pool: set<nat>, s0: Mem, s: Mem, d: nat): Shape {
    if && Work(pool, s0, s, d).Clean? && Hands(s0, s, d).AsSaid? && d in s.dirs && SameView(s0, s, d).AsSaid?
       && KernelKept(s0, s, d).AsSaid?
    then AsSaid else Otherwise
  }

  ghost predicate NothingThere(s: Mem, d: nat, lo: nat, hi: nat) {
    forall x: nat, y: nat | y < 1024 && lo <= 1024 * x + y < hi :: See(s, d, x, y) == None
  }

  lemma NothingAt(s: Mem, d: nat, lo: nat, hi: nat, i: nat, x: nat, y: nat)
    requires NothingThere(s, d, lo, hi) && lo <= i < hi && i == 1024 * x + y && y < 1024
    ensures See(s, d, x, y) == None
  {
  }

  /** The first page of d from lo on, below hi, that is there; hi if none is. */
  ghost function Wall(s: Mem, d: nat, lo: nat, hi: nat): (w: nat)
    requires lo <= hi
    ensures lo <= w <= hi
    decreases hi - lo
  {
    if lo == hi || See(s, d, lo / 1024, lo % 1024).Some? then lo else Wall(s, d, lo + 1, hi)
  }

  lemma {:induction false} WallFacts(s: Mem, d: nat, lo: nat, hi: nat, w: nat)
    requires lo <= hi && w == Wall(s, d, lo, hi)
    ensures NothingThere(s, d, lo, w) && (w < hi ==> See(s, d, w / 1024, w % 1024).Some?)
    decreases hi - lo
  {
    if lo < hi && See(s, d, lo / 1024, lo % 1024).None? {
      WallFacts(s, d, lo + 1, hi, w);
      NothingMore(s, d, lo, w, lo / 1024, lo % 1024);
    }
  }

  lemma NothingMore(s: Mem, d: nat, lo: nat, hi: nat, x: nat, y: nat)
    requires NothingThere(s, d, lo + 1, hi) && lo == 1024 * x + y && y < 1024 && See(s, d, x, y) == None
    ensures NothingThere(s, d, lo, hi)
  {
    forall v: nat, w: nat | w < 1024 && lo <= 1024 * v + w < hi
      ensures See(s, d, v, w) == None
    {
      if 1024 * v + w == lo { SplitUnique(v, w, x, y); }
    }
  }

  /** w is the first page from lo on that is there, or hi. */
  ghost predicate Walled(s: Mem, d: nat, lo: nat, w: nat, hi: nat) {
    lo <= w <= hi && NothingThere(s, d, lo, w) && (w < hi ==> See(s, d, w / 1024, w % 1024).Some?)
  }

  lemma IsWalled(s: Mem, d: nat, lo: nat, w: nat, hi: nat)
    requires lo <= hi && w == Wall(s, d, lo, hi)
    ensures Walled(s, d, lo, w, hi)
  {
    WallFacts(s, d, lo, hi, w);
  }

  lemma WallBounds(s: Mem, d: nat, lo: nat, w: nat, hi: nat)
    requires Walled(s, d, lo, w, hi)
    ensures lo <= w <= hi
  {
  }

  /** There are too few free pages to come to hi, or to have one in hand at w. */
  ghost predicate Lacking(s: Mem, d: nat, lo: nat, w: nat, hi: nat) {
    if w == hi then |s.free| < Need(s, d, lo, hi) else |s.free| <= Need(s, d, lo, w)
  }

  lemma NoneLeft(s0: Mem, s: Mem, d: nat, lo: nat, i: nat, w: nat, hi: nat, x: nat, y: nat)
    requires lo <= i == 1024 * x + y && y < 1024 && i < hi && i <= w <= hi && Paid(s0, s, d, lo, i, i - lo).AsSaid?
    requires s.free == []
    ensures Lacking(s0, d, lo, w, hi)
  {
    if i < w { TooFew(s0, s, d, lo, i, w, x, y); } else { PaidAll(s0, s, d, lo, i); }
  }

  lemma OneLeft(s0: Mem, s: Mem, d: nat, lo: nat, i: nat, w: nat, hi: nat, x: nat, y: nat)
    requires lo <= i == 1024 * x + y && y < 1024 && i < w <= hi && Paid(s0, s, d, lo, i, i - lo).AsSaid?
    requires |s.free| == 1 && TableOf(s, d, x) == None
    ensures Lacking(s0, d, lo, w, hi)
  {
    TooFew(s0, s, d, lo, i, w, x, y);
  }

  /** And the page to be mapped next is mapped if it was before the call. */
  lemma AnEntry(pool: set<nat>, s0: Mem, s: Mem, t: Mem, d: nat, lo: nat, i: nat, x: nat, y: nat, plan: Plan, p: nat,
                bytes: Data)
    requires Planned(s0, s, d, lo, i, plan).AsSaid? && Taken(pool, s, t, d, p, bytes).AsSaid?
    requires y < 1024 && i == 1024 * x + y && See(s0, d, x, y).Some?
    ensures Entry(t, d, x, y).Some?
  {
    assert See(t, d, x, y) == See(s, d, x, y) == See(s0, d, x, y);
  }

  /** With a page in hand for page i, mappages panics exactly if i is the wall. */
  lemma AtWall(pool: set<nat>, s0: Mem, s: Mem, t: Mem, d: nat, lo: nat, i: nat, w: nat, hi: nat, x: nat, y: nat,
               p: nat, bytes: Data)
    requires Walled(s0, d, lo, w, hi) && lo <= i < hi && i <= w && i == 1024 * x + y && y < 1024 && x < USER
    requires Planned(s0, s, d, lo, i, Blank).AsSaid? && Taken(pool, s, t, d, p, bytes).AsSaid?
    requires Paid(s0, s, d, lo, i, i - lo).AsSaid? && |s.free| > 0
    ensures Entry(t, d, x, y).Some? <==> i == w
    ensures i == w ==> |s0.free| > Need(s0, d, lo, w)
  {
    if i < w {
      NothingAt(s0, d, lo, w, i, x, y);
      NoEntry(pool, s0, s, t, d, lo, i, x, y, Blank, p, bytes);
    } else {
      AnEntry(pool, s0, s, t, d, lo, i, x, y, Blank, p, bytes);
      PaidAll(s0, s, d, lo, i);
    }
  }

  lemma HoleAgain(s0: Mem, s: Mem, t: Mem, u: Mem, d: nat, lo: nat, i: nat, hi: nat, plan: Plan)
    requires Planned(s0, s, d, lo, i, plan).AsSaid? && SameView(s, t, d).AsSaid? && Hole(t, u, d, lo, hi).AsSaid?
    requires i <= hi
    ensures Hole(s0, u, d, lo, hi).AsSaid?
  {
    forall x: nat, y: nat | y < 1024
      ensures See(u, d, x, y) == if lo <= 1024 * x + y < hi then None else See(s0, d, x, y)
    {
      assert See(t, d, x, y) == See(s, d, x, y);
    }
  }

  /** allocuvm gives up without a page in hand. */
  lemma GiveUp(pool: set<nat>, s0: Mem, s: Mem, u: Mem, d: nat, lo: nat, i: nat, hi: nat, plan: Plan)
    requires Growing(pool, s0, s, d, lo, i, plan).AsSaid? && Clearing(pool, s, u, d, lo, hi).AsSaid? && i <= hi
    ensures Clearing(pool, s0, u, d, lo, hi).AsSaid?
  {
    WorkOn(pool, s0, s, u, d);
    assert SameView(s, s, d).AsSaid?;
    HoleAgain(s0, s, s, u, d, lo, i, hi, plan);
    KernelOn(s0, s, u, d);
  }

  /** allocuvm gives up with a page in hand, which is freed last. */
  lemma GiveUpPage(pool: set<nat>, s0: Mem, s: Mem, t: Mem, u: Mem, w: Mem, d: nat, lo: nat, i: nat, hi: nat,
                   plan: Plan, p: nat, bytes: Data)
    requires Growing(pool, s0, s, d, lo, i, plan).AsSaid? && Taken(pool, s, t, d, p, bytes).AsSaid?
    requires Clearing(pool, t, u, d, lo, hi).AsSaid? && Work(pool, u, w, d).Clean? && w == Gave(u, p, Junk())
    requires SameView(u, w, d).AsSaid? && i <= hi
    ensures Clearing(pool, s0, w, d, lo, hi).AsSaid?
  {
    hide Owned, Planned, Pool, RestOf;
    GiveUpWork(pool, s0, s, t, u, w, d);
    HoleAgain(s0, s, t, u, d, lo, i, hi, plan);
    HoleOn(s0, u, w, d, lo, hi);
    UndoneHands(pool, s, t, u, w, d, p, bytes);
    HandsOn(s0, s, w, d);
    KernelThrough(s0, s, t, u, d);
    KernelThrough(s0, u, w, w, d);
  }

  lemma HoleOn(s0: Mem, u: Mem, w: Mem, d: nat, lo: nat, hi: nat)
    requires Hole(s0, u, d, lo, hi).AsSaid? && SameView(u, w, d).AsSaid?
    ensures Hole(s0, w, d, lo, hi).AsSaid?
  {
  }

  /** Clearing a range leaves what d sees as it was exactly if nothing was there. */
  lemma RestoredExactly(pool: set<nat>, s0: Mem, u: Mem, d: nat, lo: nat, hi: nat)
    requires Owned(s0).Clean? && Clearing(pool, s0, u, d, lo, hi).AsSaid?
    ensures SameView(s0, u, d).AsSaid? <==> NothingThere(s0, d, lo, hi)
  {
    if NothingThere(s0, d, lo, hi) {
      forall x, y
        ensures See(u, d, x, y) == See(s0, d, x, y)
      {
        EntryAt(s0, d, x, y);
        EntryAt(u, d, x, y);
      }
    } else {
      var x: nat, y: nat :| y < 1024 && lo <= 1024 * x + y < hi && See(s0, d, x, y) != None;
      assert See(u, d, x, y) == None;
    }
  }

  /** A range with nothing in it that is cleared is as it was. */
  lemma ClearedUndone(pool: set<nat>, s0: Mem, u: Mem, d: nat, lo: nat, hi: nat)
    requires Owned(s0).Clean? && Clearing(pool, s0, u, d, lo, hi).AsSaid? && NothingThere(s0, d, lo, hi) && d in u.dirs
    ensures Undone(pool, s0, u, d).AsSaid?
  {
    RestoredExactly(pool, s0, u, d, lo, hi);
  }

  lemma GiveUpWork(pool: set<nat>, s0: Mem, s: Mem, t: Mem, u: Mem, w: Mem, d: nat)
    requires Work(pool, s0, s, d).Clean? && Work(pool, s, t, d).Clean? && Work(pool, t, u, d).Clean?
    requires Work(pool, u, w, d).Clean?
    ensures Work(pool, s0, w, d).Clean?
  {
    WorkOn(pool, s0, s, t, d);
    WorkOn(pool, s0, t, u, d);
    WorkOn(pool, s0, u, w, d);
  }

  lemma UndoneHands(pool: set<nat>, s: Mem, t: Mem, u: Mem, w: Mem, d: nat, p: nat, bytes: Data)
    requires Taken(pool, s, t, d, p, bytes).AsSaid? && Hands(t, u, d).AsSaid? && w == Gave(u, p, Junk())
    ensures Hands(s, w, d).AsSaid? && Holds(u, d, p)
  {
    assert Holds(t, d, p);
    forall q ensures Holds(w, d, q) <==> Holds(s, d, q) { assert Holds(u, d, q) <==> Holds(t, d, q); }
  }

  lemma GrowNothing(pool: set<nat>, s: Mem, d: nat, lo: nat)
    requires Pool(pool, s).Clean? && Owned(s).Clean? && d in s.dirs
    ensures Growing(pool, s, s, d, lo, lo, Blank).AsSaid?
  {
    NoWork(pool, s, d);
  }

  /** The page to be mapped next is not mapped: mappages does not panic. */
  lemma NoEntry(pool: set<nat>, s0: Mem, s: Mem, t: Mem, d: nat, lo: nat, i: nat, x: nat, y: nat, plan: Plan, p: nat,
                bytes: Data)
    requires Planned(s0, s, d, lo, i, plan).AsSaid? && Taken(pool, s, t, d, p, bytes).AsSaid?
    requires y < 1024 && i == 1024 * x + y && See(s0, d, x, y) == None && x < USER
    ensures Entry(t, d, x, y) == None
  {
    assert See(t, d, x, y) == See(s, d, x, y) == None;
    EntryAt(t, d, x, y);
  }

  /** After walkpgdir the table has an entry exactly if there was one before. */
  lemma EntryAfterWalk(pool: set<nat>, s0: Mem, s: Mem, d: nat, x: nat, y: nat, t: nat)
    requires Walked(pool, s0, s, d, x, t).AsSaid?
    ensures t in s.tabs && (y in s.tabs[t] <==> Entry(s0, d, x, y).Some?)
  {
    assert Entry(s, d, x, y) == Entry(s0, d, x, y);
  }

  /** A page of another directory p can be seen exactly if its table has an entry. */
  lemma SeeEntry(pool: set<nat>, s1: Mem, s: Mem, d: nat, p: nat, x: nat, y: nat)
    requires Work(pool, s1, s, d).Clean? && p in s.dirs && x < USER
    ensures x in s.dirs[p] ==> s.dirs[p][x] in s.tabs
    ensures See(s, p, x, y).Some? <==> x in s.dirs[p] && y in s.tabs[s.dirs[p][x]]
  {
    TableAt(s, p, x);
    EntryAt(s, p, x, y);
  }

  /** n pages are what sz bytes take. */
  predicate Spans(n: nat, sz: nat) { sz <= 4096 * n < sz + 4096 }

  lemma SpansUp(n: nat, sz: nat)
    ensures Spans(n, sz) <==> n == PagesUp(sz)
  {
  }

  // ---- the kernel half ---------------------------------------------------

  /** One row of kmap: n pages from virt on, mapped to the pages from phys on. */
  datatype Range = Range(virt: nat, phys: nat, n: nat, perm: nat)

  /** Page number of the kernel's data, as the linker places it. */
  newtype DataPage = x | 0x80100 < x < 0x8E000 witness 0x80200

  function Kmap(data: DataPage): seq<Range> {
    [ Range(0x80000, 0, 0x100, PTE_W),
      Range(0x80100, 0x100, data as nat - 0x80100, 0),
      Range(data as nat, data as nat - 0x80000, 0x8E000 - data as nat, PTE_W),
      Range(0xFE000, 0xFE000, 0x2000, PTE_W) ]
  }

  /** What every page directory says about virtual page v of the kernel half. */
  function KernelPte(data: DataPage, v: nat): Option<Pte> {
    if 0x80000 <= v < 0x80100 || data as nat <= v < 0x8E000 then Some(Pte(v - 0x80000, PTE_W))
    else if 0x80100 <= v < data as nat then Some(Pte(v - 0x80000, 0))
    else if 0xFE000 <= v < 0x100000 then Some(Pte(v, PTE_W))
    else None
  }

  /** Below virtual page top the kernel's mappings are there, and nothing else. */
  ghost function Laid(s: Mem, d: nat, data: DataPage, top: nat): Shape {
    if forall x: nat, y: nat | y < 1024 ::
         Entry(s, d, x, y) == if 1024 * x + y < top then KernelPte(data, 1024 * x + y) else None
    then AsSaid else Otherwise
  }

  /** The first n pages of the range are mapped, the rest is what it was. */
  ghost function Placed(s0: Mem, s: Mem, d: nat, r: Range, n: nat): Shape {
    if forall x: nat, y: nat | y < 1024 ::
      Entry(s, d, x, y) == if r.virt <= 1024 * x + y < r.virt + n
        then Some(Pte(r.phys + (1024 * x + y - r.virt), r.perm)) else Entry(s0, d, x, y)
    then AsSaid else Otherwise
  }

  ghost function Placing(pool: set<nat>, s0: Mem, s: Mem, d: nat, r: Range, n: nat): Shape {
    if Work(pool, s0, s, d).Clean? && Hands(s0, s, d).AsSaid? && d in s.dirs && Placed(s0, s, d, r, n).AsSaid?
    then AsSaid else Otherwise
  }

  lemma PlaceNothing(pool: set<nat>, s: Mem, d: nat, r: Range)
    requires Pool(pool, s).Clean? && Owned(s).Clean? && d in s.dirs
    ensures Placing(pool, s, s, d, r, 0).AsSaid?
  {
    NoWork(pool, s, d);
  }

  lemma KernelWork(pool: set<nat>, s0: Mem, s: Mem, d: nat, x: nat, y: nat, t: nat, e: Pte)
    requires Walked(pool, s0, s, d, x, t).AsSaid? && x >= USER
    ensures t in s.tabs && Work(pool, s0, WithKernel(s, y, t, e), d).Clean?
    ensures Hands(s0, WithKernel(s, y, t, e), d).AsSaid?
    ensures forall v, w ::
      Entry(WithKernel(s, y, t, e), d, v, w) == if v == x && w == y then Some(e) else Entry(s0, d, v, w)
  {
    var u := WithKernel(s, y, t, e);
    WithKernelOwned(s, d, x, y, t, e);
    RestTransitive(s0, s, u, d);
    forall p ensures Holds(u, d, p) <==> Holds(s0, d, p) { assert Holds(s, d, p) <==> Holds(s0, d, p); }
    forall v, w
      ensures Entry(u, d, v, w) == if v == x && w == y then Some(e) else Entry(s0, d, v, w)
    {
      assert Entry(s, d, v, w) == Entry(s0, d, v, w);
    }
  }

  lemma PlaceStep(pool: set<nat>, s0: Mem, s: Mem, t: Mem, d: nat, r: Range, n: nat, n': nat, x: nat, y: nat, b: nat,
                  e: Pte)
    requires Placing(pool, s0, s, d, r, n).AsSaid? && Walked(pool, s, t, d, x, b).AsSaid? && x >= USER && y < 1024
    requires r.virt + n == 1024 * x + y && n' == n + 1 && e == Pte(r.phys + n, r.perm)
    ensures b in t.tabs && Placing(pool, s0, WithKernel(t, y, b, e), d, r, n').AsSaid?
  {
    var u := WithKernel(t, y, b, e);
    KernelWork(pool, s, t, d, x, y, b, e);
    WorkOn(pool, s0, s, u, d);
    PlacedStep(s0, s, u, d, r, n, n', x, y, e);
    HandsOn(s0, s, u, d);
  }

  lemma HandsOn(s0: Mem, s: Mem, u: Mem, d: nat)
    requires Hands(s0, s, d).AsSaid? && Hands(s, u, d).AsSaid?
    ensures Hands(s0, u, d).AsSaid?
  {
  }

  lemma PlacedStep(s0: Mem, s: Mem, u: Mem, d: nat, r: Range, n: nat, n': nat, x: nat, y: nat, e: Pte)
    requires Placed(s0, s, d, r, n).AsSaid? && y < 1024 && r.virt + n == 1024 * x + y && n' == n + 1
    requires e == Pte(r.phys + n, r.perm)
    requires forall v, w :: Entry(u, d, v, w) == if v == x && w == y then Some(e) else Entry(s, d, v, w)
    ensures Placed(s0, u, d, r, n').AsSaid?
  {
    forall v: nat, w: nat | w < 1024
      ensures Entry(u, d, v, w) == if r.virt <= 1024 * v + w < r.virt + n'
        then Some(Pte(r.phys + (1024 * v + w - r.virt), r.perm)) else Entry(s0, d, v, w)
    {
      if 1024 * v + w == r.virt + n { SplitUnique(v, w, x, y); }
    }
  }

  lemma LaidNext(s0: Mem, s: Mem, d: nat, data: DataPage, k: nat, top: nat)
    requires k < 4 && Laid(s0, d, data, Kmap(data)[k].virt).AsSaid?
    requires Placed(s0, s, d, Kmap(data)[k], Kmap(data)[k].n).AsSaid?
    requires top == if k < 3 then Kmap(data)[k + 1].virt else 0x100000
    ensures Laid(s, d, data, top).AsSaid?
  {
  }

  ghost predicate Unplaced(s: Mem, d: nat, r: Range) {
    forall x: nat, y: nat | y < 1024 && r.virt <= 1024 * x + y < r.virt + r.n :: Entry(s, d, x, y) == None
  }

  /** The next page of the range is not mapped: mappages does not panic. */
  lemma NoRemap(pool: set<nat>, s0: Mem, s: Mem, t: Mem, d: nat, r: Range, n: nat, x: nat, y: nat, b: nat)
    requires Unplaced(s0, d, r) && Placed(s0, s, d, r, n).AsSaid? && Walked(pool, s, t, d, x, b).AsSaid?
    requires y < 1024 && n < r.n && r.virt + n == 1024 * x + y
    ensures b in t.tabs && y !in t.tabs[b]
  {
    assert Entry(s, d, x, y) == Entry(s0, d, x, y) == None;
    assert Entry(t, d, x, y) == Entry(s, d, x, y);
  }

  /** mappages at work on a row of kmap: the n pages before v are mapped and paid for. */
  ghost function RowDone(pool: set<nat>, s0: Mem, s: Mem, d: nat, r: Range, n: nat, v: nat): Shape {
    if v == r.virt + n && Placing(pool, s0, s, d, r, n).AsSaid? && Paid(s0, s, d, r.virt, v, 0).AsSaid?
    then AsSaid
    else Otherwise
  }

  lemma RowStart(pool: set<nat>, s: Mem, d: nat, r: Range)
    requires Pool(pool, s).Clean? && Owned(s).Clean? && d in s.dirs
    ensures RowDone(pool, s, s, d, r, 0, r.virt).AsSaid?
  {
    PlaceNothing(pool, s, d, r);
    SpentNothing(s, d, r.virt / 1024);
  }

  lemma RowStep(pool: set<nat>, s0: Mem, s: Mem, t: Mem, d: nat, r: Range, n: nat, n': nat, v: nat, v': nat, x: nat,
                y: nat, b: nat, e: Pte)
    requires RowDone(pool, s0, s, d, r, n, v).AsSaid? && Walked(pool, s, t, d, x, b).AsSaid?
    requires WalkCost(s, t, d, x).AsSaid?
    requires x >= USER && y < 1024 && v == 1024 * x + y && n' == n + 1 && v' == v + 1 && e == Pte(r.phys + n, r.perm)
    ensures b in t.tabs && RowDone(pool, s0, WithKernel(t, y, b, e), d, r, n', v').AsSaid?
  {
    PlaceStep(pool, s0, s, t, d, r, n, n', x, y, b, e);
    WriteCost(s, t, d, x, Store(t.tabs, b, y, e), t.ow);
    PayStep(s0, s, s, WithKernel(t, y, b, e), d, r.virt, v, v', x, y, 0, 0, 0);
  }

  lemma RowShort(pool: set<nat>, s0: Mem, s: Mem, d: nat, r: Range, n: nat, v: nat, x: nat, y: nat)
    requires RowDone(pool, s0, s, d, r, n, v).AsSaid? && n < r.n && v == 1024 * x + y && y < 1024 && s.free == []
    requires TableOf(s, d, x) == None
    ensures |s0.free| < RowNeed(s0, d, r)
  {
    PayShort(s0, s, d, r.virt, v, r.virt + r.n, x, y, 0, 0, 0);
  }

  lemma RowEnd(pool: set<nat>, s0: Mem, s: Mem, d: nat, r: Range, v: nat)
    requires RowDone(pool, s0, s, d, r, r.n, v).AsSaid? && r.n > 0
    ensures |s0.free| == RowNeed(s0, d, r) + |s.free|
  {
  }

  /** setupkvm at work: the directory d is new and the first rows of kmap are in. */
  ghost function Setting(pool: set<nat>, s0: Mem, s: Mem, d: nat, data: DataPage, top: nat): Shape {
    if && Work(pool, s0, s, d).Clean? && Hands(s0, s, d).AsSaid? && d in s.dirs && d !in s0.ow
       && Laid(s, d, data, top).AsSaid?
    then AsSaid else Otherwise
  }

  lemma SetStart(pool: set<nat>, s0: Mem, s: Mem, d: nat, data: DataPage)
    requires Owned(s0).Clean? && Work(pool, s0, s, d).Clean? && d !in s0.ow && s.ow == s0.ow[d := Held(d)]
    requires s.dirs == s0.dirs
    requires s.tabs == s0.tabs
    ensures Setting(pool, s0, WithDir(s, d), d, data, 0x80000).AsSaid?
  {
    var u := WithDir(s, d);
    WithDirOwned(s, d);
    RestTransitive(s0, s, u, d);
    assert Pool(pool, u).Clean?;
    forall p ensures Holds(u, d, p) <==> Holds(s0, d, p) {}
    forall x: nat, y: nat ensures Entry(u, d, x, y) == None { assert Entry(u, d, x, y) == Entry(s, d, x, y); }
  }

  lemma SetStep(pool: set<nat>, s0: Mem, s: Mem, u: Mem, d: nat, data: DataPage, k: nat, top: nat)
    requires k < 4 && Setting(pool, s0, s, d, data, Kmap(data)[k].virt).AsSaid?
    requires RowDone(pool, s, u, d, Kmap(data)[k], Kmap(data)[k].n, Kmap(data)[k].virt + Kmap(data)[k].n).AsSaid?
    requires top == Top(data, k + 1)
    ensures Setting(pool, s0, u, d, data, top).AsSaid?
  {
    WorkOn(pool, s0, s, u, d);
    HandsOn(s0, s, u, d);
    LaidNext(s, u, d, data, k, top);
  }

  /** The directory and the tables setupkvm makes. */
  const KERNELPAGES: nat := 65

  /** Where the tables end, after k rows of kmap. */
  function TabEnd(data: DataPage, k: nat): nat {
    match k
    case 0 => 512
    case 1 => 513
    case 2 => (data as nat + 1023) / 1024
    case _ => 568
  }

  function Tables(data: DataPage, k: nat): int { if k < 4 then TabEnd(data, k) - 512 else 64 }

  predicate InTables(data: DataPage, k: nat, x: nat) { 512 <= x < TabEnd(data, k) || (k >= 4 && 1016 <= x < 1024) }

  /** After k rows d has just the tables they need, and they and d are what has been taken. */
  ghost function Furnished(s0: Mem, s: Mem, d: nat, data: DataPage, k: nat): Shape {
    if |s.free| + 1 + Tables(data, k) == |s0.free| && forall x: nat :: TableOf(s, d, x).Some? <==> InTables(data, k, x)
    then AsSaid else Otherwise
  }

  /** The tables row k has to add. */
  function RowNeed(s: Mem, d: nat, r: Range): nat { Missing(s, d, r.virt / 1024, (r.virt + r.n + 1023) / 1024) }

  lemma RowCost(s0: Mem, s: Mem, d: nat, data: DataPage, k: nat)
    requires k < 4 && Furnished(s0, s, d, data, k).AsSaid?
    ensures RowNeed(s, d, Kmap(data)[k]) == Tables(data, k + 1) - Tables(data, k) && Tables(data, k + 1) <= 64
  {
    var r := Kmap(data)[k];
    MissingIs(s, d, r.virt / 1024, if k < 3 then TabEnd(data, k) else 1016, (r.virt + r.n + 1023) / 1024);
  }

  lemma FurnishStep(s0: Mem, s: Mem, u: Mem, d: nat, data: DataPage, k: nat, k': nat)
    requires k < 4 && k' == k + 1 && Furnished(s0, s, d, data, k).AsSaid?
    requires Paid(s, u, d, Kmap(data)[k].virt, Kmap(data)[k].virt + Kmap(data)[k].n, 0).AsSaid?
    ensures Furnished(s0, u, d, data, k').AsSaid?
  {
    RowCost(s0, s, d, data, k);
  }

  lemma RowFree(s: Mem, d: nat, data: DataPage, k: nat)
    requires k < 4 && Laid(s, d, data, Kmap(data)[k].virt).AsSaid?
    ensures Unplaced(s, d, Kmap(data)[k])
  {
  }

  function Top(data: DataPage, k: nat): nat { if k < 4 then Kmap(data)[k].virt else 0x100000 }

  /** Everything in use is as it was and in order; the free list has the same pages, each once,
      though perhaps in another order. */
  ghost function Same(pool: set<nat>, s0: Mem, s: Mem): Shape {
    if && s.dirs == s0.dirs && s.tabs == s0.tabs && s.ow == s0.ow
       && (forall p | p in s.ow ::
             (p in s.data <==> p in s0.data) && (p in s.data && p in s0.data ==> s.data[p] == s0.data[p]))
       && (forall p :: p in s.free <==> p in s0.free) && |s.free| == |s0.free|
       && Pool(pool, s).Clean? && Owned(s).Clean?
    then AsSaid else Otherwise
  }

  lemma SameFacts(pool: set<nat>, s0: Mem, s: Mem)
    requires Same(pool, s0, s).AsSaid?
    ensures Pool(pool, s).Clean? && Owned(s).Clean? && |s.free| == |s0.free| && (Quiet(s0) ==> Quiet(s))
  {
  }

  lemma SameHolds(pool: set<nat>, s: Mem)
    requires Pool(pool, s).Clean? && Owned(s).Clean?
    ensures Same(pool, s, s).AsSaid?
  {
  }

  /** Between calls nothing is in hand, before and after one that keeps the hands as they were. */
  lemma QuietHands(s0: Mem, s: Mem, d: nat)
    requires Quiet(s0) && RestOf(s0, s, d).Clean? && Hands(s0, s, d).AsSaid?
    ensures Quiet(s) && NoneHeld(s, d)
  {
    forall p | p in s.ow ensures s.ow[p] != Held(d) { assert Holds(s, d, p) <==> Holds(s0, d, p); }
    StaysQuiet(s0, s, d);
  }

  /** A directory built and torn down again leaves no trace. */
  lemma NoTrace(pool: set<nat>, s0: Mem, s: Mem, u: Mem, d: nat)
    requires Pool(pool, s0).Clean? && Owned(s0).Clean? && Quiet(s0) && d !in s0.ow
    requires Work(pool, s0, s, d).Clean? && Hands(s0, s, d).AsSaid?
    requires Work(pool, s, u, d).Clean? && Hands(s, u, d).AsSaid? && d !in u.dirs
    ensures Same(pool, s0, u).AsSaid?
  {
    WorkOn(pool, s0, s, u, d);
    HandsOn(s0, s, u, d);
    FreshNone(s0, d);
    TornDown(s0, u, d);
    BackToStart(pool, s0, u, d);
    SameLength(s0.free, u.free);
  }

  // ---- copying -----------------------------------------------------------

  ghost predicate AllThere(s: Mem, d: nat, n: nat) {
    forall x: nat, y: nat | y < 1024 && 1024 * x + y < n :: See(s, d, x, y).Some?
  }

  /** The first page of d from i on, below n, that is missing; n if none is. */
  ghost function Gap(s: Mem, d: nat, i: nat, n: nat): (w: nat)
    requires i <= n
    ensures i <= w <= n
    decreases n - i
  {
    if i == n || See(s, d, i / 1024, i % 1024).None? then i else Gap(s, d, i + 1, n)
  }

  /** All pages of d from lo to n are there. */
  ghost predicate ThereFrom(s: Mem, d: nat, lo: nat, n: nat) {
    forall x: nat, y: nat | y < 1024 && lo <= 1024 * x + y < n :: See(s, d, x, y).Some?
  }

  lemma {:induction false} GapFacts(s: Mem, d: nat, i: nat, n: nat, w: nat)
    requires i <= n && w == Gap(s, d, i, n)
    ensures ThereFrom(s, d, i, w) && (w < n ==> See(s, d, w / 1024, w % 1024) == None)
    decreases n - i
  {
    if i < n && See(s, d, i / 1024, i % 1024).Some? {
      GapFacts(s, d, i + 1, n, w);
      forall x: nat, y: nat | y < 1024 && i <= 1024 * x + y < w
        ensures See(s, d, x, y).Some?
      {
        if 1024 * x + y == i { SplitUnique(x, y, i / 1024, i % 1024); }
      }
    }
  }

  lemma AllFrom(s: Mem, d: nat, n: nat)
    requires ThereFrom(s, d, 0, n)
    ensures AllThere(s, d, n)
  {
  }

  lemma ThereAt(s: Mem, d: nat, n: nat, i: nat, x: nat, y: nat)
    requires AllThere(s, d, n) && i < n && i == 1024 * x + y && y < 1024
    ensures See(s, d, x, y).Some?
  {
  }

  /** The user pages of d are copies of the first n of p, in frames of their own. */
  ghost predicate Copied(s0: Mem, s: Mem, p: nat, d: nat, n: nat) {
    forall x: nat, y: nat | y < 1024 ::
      if 1024 * x + y < n then
        && See(s, d, x, y).Some? && See(s0, p, x, y).Some?
        && See(s, d, x, y).value.frame != See(s0, p, x, y).value.frame
        && See(s, d, x, y).value.bytes == See(s0, p, x, y).value.bytes
        && See(s, d, x, y).value.flags == See(s0, p, x, y).value.flags
      else See(s, d, x, y) == None
  }

  ghost predicate KernelIn(s: Mem, d: nat, data: DataPage) {
    forall x: nat, y: nat | USER <= x < 1024 && y < 1024 :: Entry(s, d, x, y) == KernelPte(data, 1024 * x + y)
  }

  /** d is new and its own: a copy of the first n user pages of p, with the kernel's mappings. */
  ghost function Forked(pool: set<nat>, s0: Mem, s: Mem, p: nat, d: nat, data: DataPage, n: nat): Shape {
    if && Work(pool, s0, s, d).Clean? && d !in s0.ow && d in s.dirs && NoneHeld(s, d)
       && Copied(s0, s, p, d, n) && KernelIn(s, d, data)
    then AsSaid else Otherwise
  }

  /** Free pages a copy of n user pages takes: the kernel's half, the pages, and their tables. */
  function CopyNeed(n: nat): nat { KERNELPAGES + n + (n + 1023) / 1024 }

  lemma CopyCosts(s0: Mem, s: Mem, d: nat, data: DataPage, n: nat)
    requires Furnished(s0, s, d, data, 4).AsSaid? && n <= UPAGES
    ensures |s0.free| >= CopyNeed(n) <==> |s.free| >= Need(s, d, 0, n)
  {
    MissingIs(s, d, 0, 0, (n + 1023) / 1024);
  }

  lemma NoUser(s: Mem, d: nat, data: DataPage, x: nat, y: nat)
    requires Laid(s, d, data, 0x100000).AsSaid? && Owned(s).Clean?
    ensures See(s, d, x, y) == None
  {
    EntryAt(s, d, x, y);
  }

  lemma CopyStart(pool: set<nat>, s0: Mem, s: Mem, d: nat, p: nat, data: DataPage)
    requires Setting(pool, s0, s, d, data, 0x100000).AsSaid?
    ensures Growing(pool, s, s, d, 0, 0, CopyOf(p)).AsSaid?
  {
    NoWork(pool, s, d);
  }

  lemma CopyNext(pool: set<nat>, s0: Mem, s1: Mem, s: Mem, d: nat, p: nat, data: DataPage, i: nat, n: nat, x: nat,
                 y: nat)
    requires Setting(pool, s0, s1, d, data, 0x100000).AsSaid? && Owned(s0).Clean? && p in s0.ow && i < n <= UPAGES
    requires Growing(pool, s1, s, d, 0, i, CopyOf(p)).AsSaid? && y < 1024 && i == 1024 * x + y
    ensures See(s, p, x, y) == See(s1, p, x, y) == See(s0, p, x, y) && (p in s0.dirs ==> p in s.dirs)
    ensures x < USER && See(s1, d, x, y) == None
  {
    RestView(s0, s1, d, p, x, y);
    RestView(s1, s, d, p, x, y);
    NoUser(s1, d, data, x, y);
  }

  lemma CopyWork(pool: set<nat>, s0: Mem, s1: Mem, s: Mem, d: nat, data: DataPage)
    requires Setting(pool, s0, s1, d, data, 0x100000).AsSaid? && Work(pool, s1, s, d).Clean? && Hands(s1, s, d).AsSaid?
    ensures Work(pool, s0, s, d).Clean? && Hands(s0, s, d).AsSaid?
  {
    WorkOn(pool, s0, s1, s, d);
    HandsOn(s0, s1, s, d);
  }

  lemma CopyDone(pool: set<nat>, s0: Mem, s1: Mem, s: Mem, d: nat, p: nat, data: DataPage, n: nat)
    requires Setting(pool, s0, s1, d, data, 0x100000).AsSaid? && Owned(s0).Clean? && p in s0.ow && AllThere(s0, p, n)
    requires Growing(pool, s1, s, d, 0, n, CopyOf(p)).AsSaid?
    ensures Copied(s0, s, p, d, n)
  {
    forall x: nat, y: nat | y < 1024
      ensures if 1024 * x + y < n then
        && See(s, d, x, y).Some? && See(s0, p, x, y).Some?
        && See(s, d, x, y).value.frame != See(s0, p, x, y).value.frame
        && See(s, d, x, y).value.bytes == See(s0, p, x, y).value.bytes
        && See(s, d, x, y).value.flags == See(s0, p, x, y).value.flags
      else See(s, d, x, y) == None
    {
      CopyPageDone(pool, s0, s1, s, d, p, data, n, x, y);
    }
  }

  lemma CopyPageDone(pool: set<nat>, s0: Mem, s1: Mem, s: Mem, d: nat, p: nat, data: DataPage, n: nat, x: nat, y: nat)
    requires Setting(pool, s0, s1, d, data, 0x100000).AsSaid? && Owned(s0).Clean? && p in s0.ow && AllThere(s0, p, n)
    requires Growing(pool, s1, s, d, 0, n, CopyOf(p)).AsSaid? && y < 1024
    ensures if 1024 * x + y < n then
        && See(s, d, x, y).Some? && See(s0, p, x, y).Some?
        && See(s, d, x, y).value.frame != See(s0, p, x, y).value.frame
        && See(s, d, x, y).value.bytes == See(s0, p, x, y).value.bytes
        && See(s, d, x, y).value.flags == See(s0, p, x, y).value.flags
      else See(s, d, x, y) == None
  {
    NoUser(s1, d, data, x, y);
    if 1024 * x + y < n {
      assert Fits(See(s, d, x, y), Wanted(CopyOf(p), s1, x, y));
      RestView(s0, s1, d, p, x, y);
      RestView(s1, s, d, p, x, y);
      EntryAt(s, d, x, y);
      EntryAt(s, p, x, y);
    }
  }

  lemma CopyKernel(s: Mem, u: Mem, d: nat, data: DataPage)
    requires Laid(s, d, data, 0x100000).AsSaid? && KernelKept(s, u, d).AsSaid?
    ensures KernelIn(u, d, data)
  {
  }

  lemma KfreeHeld(pool: set<nat>, s1: Mem, s: Mem, t: Mem, d: nat, p: nat, bytes: Data)
    requires Work(pool, s1, s, d).Clean? && Hands(s1, s, d).AsSaid? && Taken(pool, s, t, d, p, bytes).AsSaid?
    ensures Holds(t, d, p) && Work(pool, s1, t, d).Clean? && Hands(s1, Gave(t, p, Junk()), d).AsSaid?
  {
    WorkOn(pool, s1, s, t, d);
    forall q ensures Holds(Gave(t, p, Junk()), d, q) <==> Holds(s, d, q) {}
  }

  lemma CopyEnd(pool: set<nat>, s0: Mem, s1: Mem, s: Mem, d: nat, p: nat, data: DataPage, n: nat)
    requires Quiet(s0) && Setting(pool, s0, s1, d, data, 0x100000).AsSaid? && Owned(s0).Clean? && p in s0.ow
    requires AllThere(s0, p, n)
    requires Growing(pool, s1, s, d, 0, n, CopyOf(p)).AsSaid?
    ensures Forked(pool, s0, s, p, d, data, n).AsSaid?
  {
    CopyWork(pool, s0, s1, s, d, data);
    CopyDone(pool, s0, s1, s, d, p, data, n);
    CopyKernel(s1, s, d, data);
    forall q | q in s.ow ensures s.ow[q] != Held(d) { assert Holds(s, d, q) <==> Holds(s0, d, q); }
  }
}
