/** vm.c and kalloc.c: the methods that grow, shrink, copy and free address spaces, over the
    pool of physical pages. */
module Vm {
  import opened Common
  import opened PageTables
  import opened AddressSpace

  predicate Between(lo: nat, p: nat, hi: nat) { lo <= p < hi }

  /** How mappages ends for one page: done, without a page for a table, or with its panic. */
  datatype Mapping = Fine | NoPage | Remap

  /** The size allocuvm returns, or the panic of mappages. */
  datatype Sizing = Size(value: nat) | Panic

  /** How copyuvm ends: with a new directory, for want of memory, or with its panic. */
  datatype Fork = Child(dir: nat) | NoMemory | Missing

  class Vm {
    ghost const pool: set<nat>
    const datapage: DataPage
    var free: seq<nat>                       // kmem.freelist
    var dirs: map<nat, map<nat, nat>>        // page directories: index to table
    var tabs: map<nat, map<nat, Pte>>        // page tables: index to present entry
    var data: map<nat, Data>                 // contents of pages used for data
    ghost var ow: map<nat, Owner>

    /** freerange: every page from lo up to hi becomes free. */
    constructor Freerange(lo: nat, hi: nat, datapage: DataPage)
      requires lo <= hi
      ensures Valid() && Quiet(M()) && dirs == map[] && this.datapage == datapage
      ensures forall p: nat :: p in free <==> lo <= p < hi
      ensures forall p: nat | lo <= p < hi :: p in data && Trash(data[p])
    {
      this.datapage := datapage;
      pool := set p: nat | p < hi && Between(lo, p, hi);
      free, dirs, tabs, data, ow := [], map[], map[], map[], map[];
      new;
      for p := lo to hi
        invariant |free| == p - lo && forall k | 0 <= k < |free| :: free[k] == p - 1 - k
        invariant dirs == map[] && tabs == map[] && ow == map[]
        invariant forall q: nat | lo <= q < p :: q in data && Trash(data[q])
      {
        Put(p);
      }
      forall p: nat | Between(lo, p, hi) ensures p in free { assert free[hi - 1 - p] == p; }
      assert Owned(M()).Clean? && Pool(pool, M()).Clean?;
    }

    ghost function M(): Mem
      reads this
    {
      Mem(free, dirs, tabs, data, ow)
    }

    ghost predicate Valid()
      reads this
    {
      Pool(pool, M()).Clean? && Owned(M()).Clean?
    }

    method Kalloc(ghost d: nat) returns (r: Option<nat>)
      requires Valid()
      modifies this`free, this`ow
      ensures r.None? ==> M() == old(M()) && free == []
      ensures r.Some? ==>
        Work(pool, old(M()), M(), d).Clean? && r.value !in old(ow) && ow == old(ow)[r.value := Held(d)]
      ensures r.Some? ==> old(free) == [r.value] + free
    {
      if free == [] { return None; }
      TookPool(pool, M(), d);
      TookOwned(M(), Took(M(), d), free[0], d);
      r := Some(free[0]);
      ow := ow[free[0] := Held(d)];
      free := free[1..];
    }

    /** kfree: fill with junk, put at the head of the free list. */
    method Put(p: nat)
      modifies this`free, this`data
      ensures free == [p] + old(free) && data == old(data)[p := Junk()] && Trash(data[p])
    {
      data := data[p := Junk()];
      free := [p] + free;
    }

    method Kfree(p: nat, ghost d: nat)
      requires Valid() && p in ow && ow[p] == Held(d)
      modifies this`free, this`ow, this`data
      ensures Work(pool, old(M()), M(), d).Clean? && M() == Gave(old(M()), p, Junk())
      ensures free == [p] + old(free) && p in data && Trash(data[p])
      ensures forall e, x, y :: See(M(), e, x, y) == See(old(M()), e, x, y)
    {
      GavePool(pool, M(), p, Junk());
      GaveOwned(M(), p, Junk(), d);
      forall e, x, y
        ensures See(Gave(M(), p, Junk()), e, x, y) == See(M(), e, x, y)
      {
        SeeHeld(M(), Gave(M(), p, Junk()), p, e, x, y);
      }
      Put(p);
      ow := ow - {p};
    }

    /** walkpgdir, allocating, down to the table. */
    method Walk(d: nat, x: nat) returns (r: Option<nat>)
      requires Valid() && d in dirs && x < 1024
      modifies this`free, this`dirs, this`tabs, this`ow
      ensures r.Some? ==> Walked(pool, old(M()), M(), d, x, r.value).AsSaid? && WalkCost(old(M()), M(), d, x).AsSaid?
      ensures r.None? ==> M() == old(M()) && free == [] && TableOf(M(), d, x) == None
    {
      hide Pool, Owned;
      if x in dirs[d] {
        TableAt(M(), d, x);
        return Some(dirs[d][x]);
      }
      r := Kalloc(d);
      if r.None? { return; }
      ghost var s := M();
      TableWork(pool, old(M()), s, d, x, r.value);
      TableQuiet(old(M()), s, d, x, r.value);
      TableCost(old(M()), s, d, x, r.value);
      tabs := tabs[r.value := map[]];
      dirs := Enter(dirs, d, x, r.value);
      ow := ow[r.value := Table(d, x)];
    }

    /** mappages for one user page. It panics exactly if a page is mapped there already. */
    method MapUser(d: nat, x: nat, y: nat, frame: nat, flags: nat) returns (r: Mapping)
      requires Valid() && d in dirs && x < USER && y < 1024
      requires frame in ow && ow[frame] == Held(d) && frame in data
      modifies this`free, this`dirs, this`tabs, this`ow
      ensures Valid() && (r.Remap? <==> Entry(old(M()), d, x, y).Some?)
      ensures r.NoPage? ==> M() == old(M()) && free == [] && TableOf(M(), d, x) == None
      ensures r.Fine? ==> WalkCost(old(M()), M(), d, x).AsSaid?
      ensures r.Fine? ==> Mapped(pool, old(M()), M(), d, x, y, Page(frame, flags, old(data[frame]))).AsSaid?
    {
      var t := Walk(d, x);
      if t.None? { return NoPage; }
      ghost var s := M();
      EntryAfterWalk(pool, old(M()), s, d, x, y, t.value);
      if y in tabs[t.value] { return Remap; }
      assert s.data == old(data);
      PageMapped(pool, old(M()), s, d, x, y, t.value, Pte(frame, flags));
      WriteCost(old(M()), s, d, x, Store(tabs, t.value, y, Pte(frame, flags)), ow[frame := Frame(d, x, y)]);
      tabs := Store(tabs, t.value, y, Pte(frame, flags));
      ow := ow[frame := Frame(d, x, y)];
      r := Fine;
    }

    /** The body of deallocuvm's loop for a page that is there. */
    method Unmap(d: nat, x: nat, y: nat)
      requires Valid() && x < USER && y < 1024 && Entry(M(), d, x, y).Some?
      modifies this`free, this`tabs, this`data, this`ow
      ensures Unmapped(pool, old(M()), M(), d, x, y).AsSaid?
    {
      ghost var s := M();
      TableAt(s, d, x);
      var t := dirs[d][x];
      var f := tabs[t][y].frame;
      DropWork(pool, s, d, x, y, t, f);
      DropShows(s, d, x, y, t, f);
      DropKernel(s, d, x, y, t, f);
      EntryAt(s, d, x, y);
      DropHands(s, d, y, t, f);
      Put(f);
      tabs := Erase(tabs, t, y);
      ow := ow[f := Held(d)] - {f};
      assert M() == Dropped(s, d, y, t, f);
    }

    /** deallocuvm's loop, over page numbers. */
    method Dealloc(d: nat, lo: nat, hi: nat)
      requires Valid() && d in dirs && lo <= hi <= UPAGES
      modifies this`free, this`tabs, this`data, this`ow
      ensures Clearing(pool, old(M()), M(), d, lo, hi).AsSaid?
    {
      ClearNothing(pool, M(), d, lo);
      var i := lo;
      while i < hi
        invariant lo <= i && dirs == old(dirs)
        invariant Clearing(pool, old(M()), M(), d, lo, if i < hi then i else hi).AsSaid?
        decreases hi - i
      {
        i := ClearPage(d, lo, hi, i, old(M()));
      }
    }

    /** One round of it. */
    method ClearPage(d: nat, lo: nat, hi: nat, i: nat, ghost s0: Mem) returns (next: nat)
      requires d in dirs && lo <= i < hi <= UPAGES && Clearing(pool, s0, M(), d, lo, i).AsSaid?
      modifies this`free, this`tabs, this`data, this`ow
      ensures i < next
      ensures Clearing(pool, s0, M(), d, lo, if next < hi then next else hi).AsSaid?
    {
      ghost var s := M();
      var x, y := i / 1024, i % 1024;
      if x !in dirs[d] {
        next := 1024 * (x + 1);
        ClearTable(pool, s0, s, d, lo, x, y, i, if next < hi then next else hi);
        return;
      }
      TableAt(s, d, x);
      next := i + 1;
      if y in tabs[dirs[d][x]] {
        Unmap(d, x, y);
        ClearStep(pool, s0, s, M(), d, lo, x, y, i, next);
      } else {
        ClearAbsent(pool, s0, s, d, lo, x, y, i, next);
      }
    }

    /** freevm */
    method Freevm(d: nat)
      requires Valid() && d in dirs
      modifies this`free, this`dirs, this`tabs, this`data, this`ow
      ensures Work(pool, old(M()), M(), d).Clean? && Hands(old(M()), M(), d).AsSaid? && d !in dirs
      ensures Valid() && (old(Quiet(M())) ==> Quiet(M()) && NoneOf(M(), d))
    {
      Dealloc(d, 0, UPAGES);
      TearStart(pool, old(M()), M(), d);
      for x := 0 to 1024
        invariant Tearing(pool, old(M()), M(), d, x).AsSaid?
      {
        FreeTable(d, x, old(M()));
      }
      ghost var s := M();
      TearEnd(pool, old(M()), s, d);
      Put(d);
      dirs := dirs - {d};
      ow := ow[d := Held(d)] - {d};
      assert M() == DirDropped(s, d);
      if old(Quiet(M())) {
        QuietHands(old(M()), M(), d);
        TornDown(old(M()), M(), d);
      }
    }

    method FreeTable(d: nat, x: nat, ghost s0: Mem)
      requires Tearing(pool, s0, M(), d, x).AsSaid?
      modifies this`free, this`dirs, this`tabs, this`data, this`ow
      ensures Tearing(pool, s0, M(), d, x + 1).AsSaid?
    {
      if x !in dirs[d] { return; }
      ghost var s := M();
      var t := dirs[d][x];
      TearStep(pool, s0, s, d, x, x + 1, t);
      Put(t);
      dirs := Leave(dirs, d, x);
      tabs := tabs - {t};
      ow := ow[t := Held(d)] - {t};
      assert M() == TableDropped(s, d, x, t);
    }

    /** deallocuvm */
    method Deallocuvm(d: nat, oldsz: nat, newsz: nat) returns (r: nat)
      requires Valid() && d in dirs && oldsz <= KERNBASE
      modifies this`free, this`tabs, this`data, this`ow
      ensures newsz >= oldsz ==> r == oldsz && M() == old(M())
      ensures newsz < oldsz ==> r == newsz && Clearing(pool, old(M()), M(), d, PagesUp(newsz), PagesUp(oldsz)).AsSaid?
      ensures Valid() && (old(Quiet(M())) ==> Quiet(M()))
    {
      if newsz >= oldsz { return oldsz; }
      Dealloc(d, PagesUp(newsz), PagesUp(oldsz));
      if old(Quiet(M())) { QuietHands(old(M()), M(), d); }
      r := newsz;
    }

    /** kalloc, then memset or memmove. */
    method NewPage(d: nat, bytes: Data) returns (r: Option<nat>)
      requires Valid()
      modifies this`free, this`data, this`ow
      ensures r.None? ==> M() == old(M()) && free == []
      ensures r.Some? ==> Taken(pool, old(M()), M(), d, r.value, bytes).AsSaid? && |free| + 1 == |old(free)|
    {
      r := Kalloc(d);
      if r.None? { return; }
      TakenHolds(pool, old(M()), M(), d, r.value, bytes);
      data := data[r.value := bytes];
    }

    /** allocuvm. It panics exactly if it comes to a page that is mapped already with a free page
        in hand, and fails exactly if there are too few free pages to come to that or to the end.
        When it fails the whole range is cleared: all is as it was if nothing was there before. */
    method Allocuvm(d: nat, oldsz: nat, newsz: nat) returns (r: Sizing)
      requires Valid() && d in dirs
      modifies this`free, this`dirs, this`tabs, this`data, this`ow
      ensures newsz >= KERNBASE ==> r == Size(0) && M() == old(M())
      ensures newsz < KERNBASE && newsz < oldsz ==> r == Size(oldsz) && M() == old(M())
      ensures oldsz <= newsz < KERNBASE ==> PagesUp(oldsz) <= PagesUp(newsz)
      ensures oldsz <= newsz < KERNBASE ==>
        var lo, hi := PagesUp(oldsz), PagesUp(newsz);
        var w := Wall(old(M()), d, lo, hi);
        if w < hi && |old(free)| > Need(old(M()), d, lo, w) then r.Panic?
        else if w == hi && |old(free)| >= Need(old(M()), d, lo, hi) then
          r == Size(newsz) && Growing(pool, old(M()), M(), d, lo, hi, Blank).AsSaid?
        else
          && r == Size(0) && Clearing(pool, old(M()), M(), d, lo, hi).AsSaid?
          && (w == hi ==> Undone(pool, old(M()), M(), d).AsSaid?)
      ensures oldsz <= newsz < KERNBASE && r == Size(newsz) ==>
        forall x: nat, y: nat | y < 1024 && oldsz <= 4096 * (1024 * x + y) < newsz ::
          Cleared(See(M(), d, x, y)) && See(M(), d, x, y).value.bytes != Junk()
      ensures Valid() && (old(Quiet(M())) && r.Size? ==> Quiet(M()))
    {
      if newsz >= KERNBASE { return Size(0); }
      if newsz < oldsz { return Size(oldsz); }
      ghost var lo, hi := PagesUp(oldsz), PagesUp(newsz);
      ghost var w := Wall(M(), d, lo, hi);
      IsWalled(M(), d, lo, w, hi);
      GrowNothing(pool, M(), d, lo);
      SpentNothing(M(), d, lo / 1024);
      var step := GrowPages(d, oldsz, newsz, PagesUp(oldsz), hi, w, M());
      if step.Remap? { return Panic; }
      if old(Quiet(M())) { QuietHands(old(M()), M(), d); }
      if step.NoPage? {
        if w == hi { ClearedUndone(pool, old(M()), M(), d, lo, hi); }
        return Size(0);
      }
      PaidAll(old(M()), M(), d, lo, hi);
      NewPagesCleared(old(M()), M(), d, oldsz, newsz);
      r := Size(newsz);
    }

    /** allocuvm's loop, from page lo on. The first page that is there already is w. */
    method GrowPages(d: nat, oldsz: nat, newsz: nat, lo: nat, ghost hi: nat, ghost w: nat,
                     ghost s0: Mem) returns (r: Mapping)
      requires oldsz <= newsz < KERNBASE && Spans(lo, oldsz) && Spans(hi, newsz) && Walled(s0, d, lo, w, hi)
      requires Paid(s0, M(), d, lo, lo, 0).AsSaid? && Growing(pool, s0, M(), d, lo, lo, Blank).AsSaid?
      modifies this`free, this`dirs, this`tabs, this`data, this`ow
      ensures Valid() && (r.Fine? ==> w == hi && Growing(pool, s0, M(), d, lo, hi, Blank).AsSaid?)
      ensures r.Fine? ==> Paid(s0, M(), d, lo, hi, hi - lo).AsSaid?
      ensures r.NoPage? ==> Clearing(pool, s0, M(), d, lo, hi).AsSaid? && d in dirs && Lacking(s0, d, lo, w, hi)
      ensures r.Remap? ==> w < hi && |s0.free| > Need(s0, d, lo, w)
    {
      hide Owned, Walled, Need, Clearing, KernelKept, Hands, Planned, Lacking;
      WallBounds(s0, d, lo, w, hi);
      var i := lo;
      while 4096 * i < newsz
        invariant lo <= i <= w && Growing(pool, s0, M(), d, lo, i, Blank).AsSaid?
        invariant Paid(s0, M(), d, lo, i, i - lo).AsSaid?
        decreases hi - i
      {
        r := GrowPage(d, oldsz, newsz, i, lo, hi, w, i + 1, s0);
        if !r.Fine? { return; }
        i := i + 1;
      }
      assert i == hi;
      r := Fine;
    }

    method GrowPage(d: nat, oldsz: nat, newsz: nat, i: nat, ghost lo: nat, ghost hi: nat, ghost w: nat, ghost i': nat,
                    ghost s0: Mem) returns (r: Mapping)
      requires oldsz < newsz < KERNBASE && Spans(lo, oldsz) && Spans(hi, newsz) && lo <= i < hi && i' == i + 1
      requires i <= w && Walled(s0, d, lo, w, hi) && Paid(s0, M(), d, lo, i, i - lo).AsSaid?
      requires Growing(pool, s0, M(), d, lo, i, Blank).AsSaid?
      modifies this`free, this`dirs, this`tabs, this`data, this`ow
      ensures Valid() && (r.Fine? ==> i < w && Growing(pool, s0, M(), d, lo, i', Blank).AsSaid?)
      ensures r.Fine? ==> Paid(s0, M(), d, lo, i', i' - lo).AsSaid?
      ensures r.NoPage? ==> Clearing(pool, s0, M(), d, lo, hi).AsSaid? && d in dirs && Lacking(s0, d, lo, w, hi)
      ensures r.Remap? ==> w < hi && |s0.free| > Need(s0, d, lo, w)
    {
      hide Owned, Walled, Clearing, Need, Paid, Growing, Lacking;
      var x, y := i / 1024, i % 1024;
      SpansUp(lo, oldsz);
      SpansUp(hi, newsz);
      r := GrowAt(d, oldsz, newsz, x, y, i, lo, hi, w, i', s0);
    }

    method GrowAt(d: nat, oldsz: nat, newsz: nat, x: nat, y: nat, ghost i: nat, ghost lo: nat, ghost hi: nat,
                  ghost w: nat, ghost i': nat, ghost s0: Mem) returns (r: Mapping)
      requires oldsz < newsz < KERNBASE && lo == PagesUp(oldsz) && hi == PagesUp(newsz) && lo <= i < hi && i <= w
      requires i == 1024 * x + y && x < USER && y < 1024 && i' == i + 1
      requires Walled(s0, d, lo, w, hi) && Paid(s0, M(), d, lo, i, i - lo).AsSaid?
      requires Growing(pool, s0, M(), d, lo, i, Blank).AsSaid?
      modifies this`free, this`dirs, this`tabs, this`data, this`ow
      ensures Valid() && (r.Fine? ==> i < w && Growing(pool, s0, M(), d, lo, i', Blank).AsSaid?)
      ensures r.Fine? ==> Paid(s0, M(), d, lo, i', i' - lo).AsSaid?
      ensures r.NoPage? ==> Clearing(pool, s0, M(), d, lo, hi).AsSaid? && d in dirs && Lacking(s0, d, lo, w, hi)
      ensures r.Remap? ==> w < hi && |s0.free| > Need(s0, d, lo, w)
    {
      hide Owned, Walled, Need, Paid, Hands, Planned, KernelKept, PagesUp, Lacking;
      ghost var s := M();
      WallBounds(s0, d, lo, w, hi);
      var mem := NewPage(d, Zeroes());
      if mem.None? {
        NoneLeft(s0, s, d, lo, i, w, hi, x, y);
        GiveBack(d, oldsz, newsz, i, s0);
        return NoPage;
      }
      ghost var t := M();
      AtWall(pool, s0, s, t, d, lo, i, w, hi, x, y, mem.value, Zeroes());
      r := MapUser(d, x, y, mem.value, PTE_W + PTE_U);
      if r.Fine? {
        GrowStep(pool, s0, s, t, M(), d, lo, x, y, i, i', Blank, Page(mem.value, PTE_W + PTE_U, Zeroes()));
        PayStep(s0, s, t, M(), d, lo, i, i', x, y, 1, i - lo, i' - lo);
      } else if r.NoPage? {
        OneLeft(s0, s, d, lo, i, w, hi, x, y);
        BackOut(d, oldsz, newsz, i, mem.value, s0, s);
      }
    }

    /** deallocuvm, when kalloc failed. */
    method GiveBack(d: nat, oldsz: nat, newsz: nat, ghost i: nat, ghost s0: Mem)
      requires oldsz < newsz < KERNBASE && PagesUp(oldsz) <= i < PagesUp(newsz)
      requires Growing(pool, s0, M(), d, PagesUp(oldsz), i, Blank).AsSaid?
      modifies this`free, this`tabs, this`data, this`ow
      ensures Valid() && d in dirs && Clearing(pool, s0, M(), d, PagesUp(oldsz), PagesUp(newsz)).AsSaid?
    {
      hide PagesUp, Owned, Hands, KernelKept, Planned;
      ghost var s := M();
      var _ := Deallocuvm(d, newsz, oldsz);
      GiveUp(pool, s0, s, M(), d, PagesUp(oldsz), i, PagesUp(newsz), Blank);
    }

    /** deallocuvm and kfree, when mappages failed. */
    method BackOut(d: nat, oldsz: nat, newsz: nat, ghost i: nat, mem: nat, ghost s0: Mem, ghost s: Mem)
      requires oldsz < newsz < KERNBASE && i < PagesUp(newsz)
      requires Growing(pool, s0, s, d, PagesUp(oldsz), i, Blank).AsSaid?
      requires Taken(pool, s, M(), d, mem, Zeroes()).AsSaid?
      modifies this`free, this`tabs, this`data, this`ow
      ensures Valid() && d in dirs && Clearing(pool, s0, M(), d, PagesUp(oldsz), PagesUp(newsz)).AsSaid?
    {
      hide PagesUp, Owned, Gave;
      ghost var t, lo, hi := M(), PagesUp(oldsz), PagesUp(newsz);
      var _ := Deallocuvm(d, newsz, oldsz);
      ghost var u := M();
      UndoneHands(pool, s, t, u, Gave(u, mem, Junk()), d, mem, Zeroes());
      Kfree(mem, d);
      assert SameView(u, M(), d).AsSaid?;
      GiveUpPage(pool, s0, s, t, u, M(), d, lo, i, hi, Blank, mem, Zeroes());
    }

    /** mappages for a range of the kernel half that is not mapped yet. */
    method MapKernel(d: nat, r: Range) returns (ok: bool)
      requires Valid() && d in dirs && 524288 <= r.virt && r.virt + r.n <= 1048576 && r.n > 0
      requires Unplaced(M(), d, r)
      modifies this`free, this`dirs, this`tabs, this`ow
      ensures ok <==> |old(free)| >= RowNeed(old(M()), d, r)
      ensures ok ==> RowDone(pool, old(M()), M(), d, r, r.n, r.virt + r.n).AsSaid?
      ensures !ok ==> Work(pool, old(M()), M(), d).Clean? && Hands(old(M()), M(), d).AsSaid? && d in dirs
    {
      RowStart(pool, M(), d, r);
      ok := MapRow(d, r, M());
      if ok { RowEnd(pool, old(M()), M(), d, r, r.virt + r.n); }
    }

    method MapRow(d: nat, r: Range, ghost s0: Mem) returns (ok: bool)
      requires 524288 <= r.virt && r.virt + r.n <= 1048576 && Unplaced(s0, d, r)
      requires RowDone(pool, s0, M(), d, r, 0, r.virt).AsSaid?
      modifies this`free, this`dirs, this`tabs, this`ow
      ensures ok ==> RowDone(pool, s0, M(), d, r, r.n, r.virt + r.n).AsSaid?
      ensures !ok ==>
        Work(pool, s0, M(), d).Clean? && Hands(s0, M(), d).AsSaid? && d in dirs && |s0.free| < RowNeed(s0, d, r)
    {
      hide Unplaced, Work, Hands, RowNeed, Paid;
      var n, a := 0, r.virt;
      while n < r.n
        invariant n <= r.n && a == r.virt + n && RowDone(pool, s0, M(), d, r, n, a).AsSaid?
      {
        ok := MapKernelPage(d, r, n, n + 1, a, a + 1, s0);
        if !ok { return; }
        n, a := n + 1, a + 1;
      }
      ok := true;
    }

    method MapKernelPage(d: nat, r: Range, n: nat, ghost n': nat, a: nat, ghost a': nat,
                         ghost s0: Mem) returns (ok: bool)
      requires 524288 <= r.virt && n < r.n && a < 1048576 && n' == n + 1 && a' == a + 1
      requires Unplaced(s0, d, r) && RowDone(pool, s0, M(), d, r, n, a).AsSaid?
      modifies this`free, this`dirs, this`tabs, this`ow
      ensures ok ==> RowDone(pool, s0, M(), d, r, n', a').AsSaid?
      ensures !ok ==> M() == old(M()) && |s0.free| < RowNeed(s0, d, r)
    {
      ghost var s := M();
      var x, y := a / 1024, a % 1024;
      var t := Walk(d, x);
      if t.None? {
        RowShort(pool, s0, s, d, r, n, a, x, y);
        return false;
      }
      NoRemap(pool, s0, s, M(), d, r, n, x, y, t.value);
      assert y !in tabs[t.value];    // else panic("remap")
      RowStep(pool, s0, s, M(), d, r, n, n', a, a', x, y, t.value, Pte(r.phys + n, r.perm));
      tabs := Store(tabs, t.value, y, Pte(r.phys + n, r.perm));
      ok := true;
    }

    /** setupkvm */
    method Setupkvm() returns (r: Option<nat>)
      requires Valid() && Quiet(M())
      modifies this`free, this`dirs, this`tabs, this`data, this`ow
      ensures r.Some? <==> |old(free)| >= KERNELPAGES
      ensures r.Some? ==> Setting(pool, old(M()), M(), r.value, datapage, 0x100000).AsSaid?
      ensures r.Some? ==> Furnished(old(M()), M(), r.value, datapage, 4).AsSaid?
      ensures r.None? ==> Same(pool, old(M()), M()).AsSaid? && |free| == |old(free)|
      ensures Valid() && Quiet(M())
    {
      ghost var d0 := if free == [] then 0 else free[0];
      SameHolds(pool, M());
      r := Kalloc(d0);
      if r.None? { return; }
      var d := r.value;
      SetStart(pool, old(M()), M(), d, datapage);
      dirs := dirs[d := map[]];
      ow := ow[d := Directory];
      var k := 0;
      while k < 4
        invariant k <= 4 && Setting(pool, old(M()), M(), d, datapage, Top(datapage, k)).AsSaid?
        invariant Furnished(old(M()), M(), d, datapage, k).AsSaid?
      {
        var ok := SetRow(d, k, k + 1, old(M()));
        if !ok {
          SameFacts(pool, old(M()), M());
          return None;
        }
        k := k + 1;
      }
      QuietHands(old(M()), M(), d);
    }

    method SetRow(d: nat, k: nat, ghost k': nat, ghost s0: Mem) returns (ok: bool)
      requires k < 4 && k' == k + 1 && Pool(pool, s0).Clean? && Owned(s0).Clean? && Quiet(s0)
      requires Setting(pool, s0, M(), d, datapage, Top(datapage, k)).AsSaid?
      requires Furnished(s0, M(), d, datapage, k).AsSaid?
      modifies this`free, this`dirs, this`tabs, this`data, this`ow
      ensures ok ==>
        Setting(pool, s0, M(), d, datapage, Top(datapage, k')).AsSaid? && Furnished(s0, M(), d, datapage, k').AsSaid?
      ensures !ok ==> Same(pool, s0, M()).AsSaid? && |s0.free| < KERNELPAGES
    {
      ghost var s := M();
      RowFree(s, d, datapage, k);
      RowCost(s0, s, d, datapage, k);
      ok := MapKernel(d, Kmap(datapage)[k]);
      if ok {
        SetStep(pool, s0, s, M(), d, datapage, k, Top(datapage, k'));
        FurnishStep(s0, s, M(), d, datapage, k, k');
        return;
      }
      ghost var t := M();
      WorkOn(pool, s0, s, t, d);
      HandsOn(s0, s, t, d);
      Freevm(d);
      NoTrace(pool, s0, t, M(), d);
    }

    /** copyuvm. It panics exactly if it comes to a page of p that is missing. */
    method Copyuvm(p: nat, sz: nat) returns (r: Fork)
      requires Valid() && Quiet(M()) && p in dirs && sz <= KERNBASE
      modifies this`free, this`dirs, this`tabs, this`data, this`ow
      ensures r.Missing? <==>
        var w := Gap(old(M()), p, 0, PagesUp(sz)); w < PagesUp(sz) && |old(free)| >= CopyNeed(w)
      ensures r.Child? <==>
        Gap(old(M()), p, 0, PagesUp(sz)) == PagesUp(sz) && |old(free)| >= CopyNeed(PagesUp(sz))
      ensures r.Child? ==> Forked(pool, old(M()), M(), p, r.dir, datapage, PagesUp(sz)).AsSaid?
      ensures r.NoMemory? ==> Same(pool, old(M()), M()).AsSaid? && |free| == |old(free)|
      ensures Valid() && (!r.Missing? ==> Quiet(M()))
    {
      ghost var s0, n := M(), PagesUp(sz);
      ghost var w := Gap(s0, p, 0, n);
      GapFacts(s0, p, 0, n, w);
      AllFrom(s0, p, w);
      assert p in s0.ow;
      var dir := Setupkvm();
      if dir.None? { return NoMemory; }
      var d := dir.value;
      ghost var s1 := M();
      CopyStart(pool, s0, s1, d, p, datapage);
      SpentNothing(s1, d, 0);
      CopyCosts(s0, s1, d, datapage, w);
      var step := CopyPages(p, d, sz, n, w, s0, s1);
      if step.Remap? {
        PaidAll(s1, M(), d, 0, w);
        return Missing;
      }
      if step.NoPage? {
        SameFacts(pool, s0, M());
        return NoMemory;
      }
      PaidAll(s1, M(), d, 0, n);
      CopyEnd(pool, s0, s1, M(), d, p, datapage, n);
      StaysQuiet(s0, M(), d);
      r := Child(d);
    }

    /** copyuvm's loop. The first page of p that is missing is w; Remap stands for the panic. */
    method CopyPages(p: nat, d: nat, sz: nat, ghost n: nat, ghost w: nat, ghost s0: Mem,
                     ghost s1: Mem) returns (r: Mapping)
      requires Pool(pool, s0).Clean? && Owned(s0).Clean? && Quiet(s0) && p in s0.ow && p in s0.dirs
      requires AllThere(s0, p, w) && w <= n
      requires w < n ==> See(s0, p, w / 1024, w % 1024) == None
      requires Spans(n, sz) && n <= UPAGES
      requires Setting(pool, s0, s1, d, datapage, 0x100000).AsSaid?
      requires Growing(pool, s1, M(), d, 0, 0, CopyOf(p)).AsSaid?
      requires Paid(s1, M(), d, 0, 0, 0).AsSaid?
      modifies this`free, this`dirs, this`tabs, this`data, this`ow
      ensures Valid() && (r.Fine? ==> w == n && Growing(pool, s1, M(), d, 0, n, CopyOf(p)).AsSaid?)
      ensures r.Remap? ==> w < n
      ensures r.Fine? || r.Remap? ==> Paid(s1, M(), d, 0, w, w).AsSaid?
      ensures r.NoPage? ==> Same(pool, s0, M()).AsSaid? && |s1.free| < Need(s1, d, 0, w)
    {
      hide Pool, Owned, Quiet, AllThere, Setting, Same, Need, Hands, Planned, KernelKept;
      var i := 0;
      while 4096 * i < sz
        invariant i <= w && Growing(pool, s1, M(), d, 0, i, CopyOf(p)).AsSaid? && Paid(s1, M(), d, 0, i, i).AsSaid?
        decreases n - i
      {
        r := CopyPage(p, d, i, i + 1, n, w, s0, s1);
        if !r.Fine? { return; }
        i := i + 1;
      }
      assert i == n;
      r := Fine;
    }

    method CopyPage(p: nat, d: nat, i: nat, ghost i': nat, ghost n: nat, ghost w: nat, ghost s0: Mem,
                    ghost s1: Mem) returns (r: Mapping)
      requires Pool(pool, s0).Clean? && Owned(s0).Clean? && Quiet(s0) && p in s0.ow && p in s0.dirs
      requires AllThere(s0, p, w)
      requires i <= w <= n <= UPAGES && i < n && i' == i + 1 && (w < n ==> See(s0, p, w / 1024, w % 1024) == None)
      requires Setting(pool, s0, s1, d, datapage, 0x100000).AsSaid?
      requires Growing(pool, s1, M(), d, 0, i, CopyOf(p)).AsSaid?
      requires Paid(s1, M(), d, 0, i, i).AsSaid?
      modifies this`free, this`dirs, this`tabs, this`data, this`ow
      ensures Valid() && (r.Remap? <==> i == w) && (r.Remap? ==> M() == old(M()))
      ensures r.Fine? ==> Growing(pool, s1, M(), d, 0, i', CopyOf(p)).AsSaid? && Paid(s1, M(), d, 0, i', i').AsSaid?
      ensures r.NoPage? ==> Same(pool, s0, M()).AsSaid? && |s1.free| < Need(s1, d, 0, w)
    {
      hide Pool, Owned, Quiet, AllThere, Setting, Paid, Same, Need, Hands, Planned, KernelKept;
      var x, y := i / 1024, i % 1024;
      CopyNext(pool, s0, s1, M(), d, p, datapage, i, n, x, y);
      SeeEntry(pool, s1, M(), d, p, x, y);
      if x !in dirs[p] || y !in tabs[dirs[p][x]] {    // walkpgdir, without allocating
        if i < w { ThereAt(s0, p, w, i, x, y); }
        return Remap;
      }
      r := CopyOver(p, d, x, y, i, i', w, s0, s1);
    }

    /** The copying of a page that is there. */
    method CopyOver(p: nat, d: nat, x: nat, y: nat, ghost i: nat, ghost i': nat, ghost w: nat, ghost s0: Mem,
                    ghost s1: Mem) returns (r: Mapping)
      requires Pool(pool, s0).Clean? && Owned(s0).Clean? && Quiet(s0) && i < w && i' == i + 1
      requires i == 1024 * x + y && y < 1024 && x < USER && See(s1, d, x, y) == None
      requires See(M(), p, x, y) == See(s1, p, x, y) && See(s1, p, x, y).Some?
      requires Setting(pool, s0, s1, d, datapage, 0x100000).AsSaid?
      requires Growing(pool, s1, M(), d, 0, i, CopyOf(p)).AsSaid?
      requires Paid(s1, M(), d, 0, i, i).AsSaid?
      modifies this`free, this`dirs, this`tabs, this`data, this`ow
      ensures Valid() && !r.Remap?
      ensures r.Fine? ==> Growing(pool, s1, M(), d, 0, i', CopyOf(p)).AsSaid? && Paid(s1, M(), d, 0, i', i').AsSaid?
      ensures r.NoPage? ==> Same(pool, s0, M()).AsSaid? && |s1.free| < Need(s1, d, 0, w)
    {
      hide Pool, Owned, Quiet, Setting, Paid, Same, Need, Hands, Planned, KernelKept;
      ghost var s := M();
      var e := tabs[dirs[p][x]][y];
      var mem := NewPage(d, data[e.frame]);
      if mem.None? {
        TooFew(s1, s, d, 0, i, w, x, y);
        Bad(d, s0, s1);
        return NoPage;
      }
      ghost var t, bytes := M(), s.data[e.frame];
      NoEntry(pool, s1, s, t, d, 0, i, x, y, CopyOf(p), mem.value, bytes);
      r := MapUser(d, x, y, mem.value, e.flags);
      if r.Fine? {
        GrowStep(pool, s1, s, t, M(), d, 0, x, y, i, i', CopyOf(p), Page(mem.value, e.flags, bytes));
        PayStep(s1, s, t, M(), d, 0, i, i', x, y, 1, i, i');
        return;
      }
      TooFew(s1, s, d, 0, i, w, x, y);
      DropCopy(d, mem.value, s0, s1, s, bytes);
    }

    /** A copied page that could not be mapped is freed, and the copying given up. */
    method DropCopy(d: nat, mem: nat, ghost s0: Mem, ghost s1: Mem, ghost s: Mem, ghost bytes: Data)
      requires Pool(pool, s0).Clean? && Owned(s0).Clean? && Quiet(s0)
      requires Setting(pool, s0, s1, d, datapage, 0x100000).AsSaid?
      requires Work(pool, s1, s, d).Clean? && Hands(s1, s, d).AsSaid? && Taken(pool, s, M(), d, mem, bytes).AsSaid?
      requires d in dirs
      modifies this`free, this`dirs, this`tabs, this`data, this`ow
      ensures Valid() && Same(pool, s0, M()).AsSaid?
    {
      hide Setting, Hands, Same, Quiet;
      ghost var t := M();
      KfreeHeld(pool, s1, s, t, d, mem, bytes);
      Kfree(mem, d);
      WorkOn(pool, s1, t, M(), d);
      Bad(d, s0, s1);
    }

    /** copyuvm's bad: */
    method Bad(d: nat, ghost s0: Mem, ghost s1: Mem)
      requires Pool(pool, s0).Clean? && Owned(s0).Clean? && Quiet(s0)
      requires Setting(pool, s0, s1, d, datapage, 0x100000).AsSaid?
      requires d in dirs && Work(pool, s1, M(), d).Clean? && Hands(s1, M(), d).AsSaid?
      modifies this`free, this`dirs, this`tabs, this`data, this`ow
      ensures Valid() && Same(pool, s0, M()).AsSaid?
    {
      ghost var t := M();
      CopyWork(pool, s0, s1, t, d, datapage);
      Freevm(d);
      NoTrace(pool, s0, t, M(), d);
    }
  }
}
