/** umalloc.c: the storage allocator of section 8.7 of The C Programming Language. Addresses
    count headers (8 bytes), the unit the code does its pointer arithmetic in. */
module Umalloc {
  type Addr = nat

  // ---- the free list -----------------------------------------------------

  datatype Shape = Circular | Broken

  /** q follows p in address order among fl, or p is the last and q the first, base. */
  ghost predicate Follows(base: Addr, fl: set<Addr>, p: Addr, q: Addr) {
    if q == base then forall x | x in fl :: x <= p
    else p < q && forall x | x in fl :: x <= p || q <= x
  }

  /** b's pointer leads to the block that follows it. */
  ghost predicate Linked(base: Addr, fl: set<Addr>, ptr: map<Addr, Addr>, b: Addr) {
    b in ptr && ptr[b] in fl && Follows(base, fl, b, ptr[b])
  }

  /** The blocks fl form one circular list in address order, from base and back to it. */
  ghost function Links(base: Addr, fl: set<Addr>, ptr: map<Addr, Addr>): Shape {
    if && base in fl && (forall b | b in fl :: b >= base)
       && forall b {:trigger Linked(base, fl, ptr, b)} | b in fl :: Linked(base, fl, ptr, b)
    then Circular else Broken
  }

  /** They are disjoint and never touch; base, which lies below the heap, is empty. */
  ghost function Gaps(base: Addr, fl: set<Addr>, size: map<Addr, nat>): Shape {
    if && base in fl && fl <= size.Keys && size[base] == 0
       && (forall b | b in fl :: b == base || size[b] > 0)
       && (forall a, b | a in fl && b in fl && a < b :: a + size[a] < b)
    then Circular else Broken
  }

  // ---- changing the links ------------------------------------------------

  lemma LinksAt(base: Addr, fl: set<Addr>, ptr: map<Addr, Addr>, p: Addr)
    requires Links(base, fl, ptr).Circular? && p in fl
    ensures p in ptr && ptr[p] in fl && Follows(base, fl, p, ptr[p]) && p >= base
  {
    assert Linked(base, fl, ptr, p);
  }

  /** bp goes in between p and q, the block after p. */
  ghost predicate Between(base: Addr, p: Addr, bp: Addr, q: Addr) {
    p < bp && (q == base || bp < q)
  }

  lemma LinksInsert(base: Addr, fl: set<Addr>, ptr: map<Addr, Addr>, p: Addr, bp: Addr, q: Addr)
    requires Links(base, fl, ptr).Circular? && p in fl && p in ptr && q == ptr[p] && Between(base, p, bp, q)
    ensures bp !in fl && Links(base, fl + {bp}, ptr[bp := q][p := bp]).Circular?
  {
    hide Follows, Between;
    LinksAt(base, fl, ptr, p);
    NewFollows(base, fl, p, q, bp);
    var ptr' := ptr[bp := q][p := bp];
    forall b | b in fl + {bp}
      ensures Linked(base, fl + {bp}, ptr', b)
    {
      if b in fl && b != p {
        LinksAt(base, fl, ptr, b);
        OthersFollow(base, fl, p, q, b, ptr[b], bp);
      }
    }
  }

  lemma NewFollows(base: Addr, fl: set<Addr>, p: Addr, q: Addr, bp: Addr)
    requires Follows(base, fl, p, q) && p in fl && q in fl && p >= base && Between(base, p, bp, q)
    ensures bp !in fl && bp > base && Follows(base, fl + {bp}, p, bp) && Follows(base, fl + {bp}, bp, q)
  {
  }

  lemma OthersFollow(base: Addr, fl: set<Addr>, p: Addr, q: Addr, b: Addr, c: Addr, bp: Addr)
    requires Follows(base, fl, p, q) && Follows(base, fl, b, c) && p in fl && q in fl && b in fl && c in fl && b != p
    requires Between(base, p, bp, q) && base in fl && (forall x | x in fl :: x >= base)
    ensures Follows(base, fl + {bp}, b, c)
  {
  }

  /** q, the block after p, goes out. */
  lemma LinksDrop(base: Addr, fl: set<Addr>, ptr: map<Addr, Addr>, p: Addr, q: Addr)
    requires Links(base, fl, ptr).Circular? && p in fl && p in ptr && q == ptr[p] != base
    ensures q in fl && q in ptr && p != q && Links(base, fl - {q}, ptr[p := ptr[q]]).Circular?
  {
    LinksAt(base, fl, ptr, p);
    LinksAt(base, fl, ptr, q);
    var ptr' := ptr[p := ptr[q]];
    forall b | b in fl - {q}
      ensures Linked(base, fl - {q}, ptr', b)
    {
      LinksAt(base, fl, ptr, b);
    }
  }

  /** Pointers outside the list do not matter. */
  lemma LinksFrame(base: Addr, fl: set<Addr>, ptr: map<Addr, Addr>, ptr': map<Addr, Addr>)
    requires Links(base, fl, ptr).Circular? && forall b | b in fl :: b in ptr && b in ptr' && ptr'[b] == ptr[b]
    ensures Links(base, fl, ptr').Circular?
  {
    forall b | b in fl
      ensures Linked(base, fl, ptr', b)
    {
      LinksAt(base, fl, ptr, b);
    }
  }

  // ---- who owns a unit ---------------------------------------------------

  ghost predicate IsBlock(base: Addr, fl: set<Addr>, live: map<Addr, nat>, b: Addr) {
    b in live || (b in fl && b != base)
  }

  /** Unit u lies in the block at says. */
  ghost predicate UnitOk(base: Addr, fl: set<Addr>, size: map<Addr, nat>, live: map<Addr, nat>, at: map<Addr, Addr>,
                         u: Addr)
    requires u in at
  {
    IsBlock(base, fl, live, at[u]) && at[u] in size && at[u] <= u < at[u] + size[at[u]]
  }

  /** All units of block b are its own. */
  ghost predicate BlockOk(base: Addr, size: map<Addr, nat>, at: map<Addr, Addr>, b: Addr) {
    b > base && b in size && size[b] > 0 && forall u: nat | b <= u < b + size[b] :: u in at && at[u] == b
  }

  datatype Account = Exact | Wrong

  /** Every unit obtained from sbrk is in exactly one block, free or live: at says which. */
  ghost function Units(base: Addr, fl: set<Addr>, size: map<Addr, nat>, live: map<Addr, nat>,
                       at: map<Addr, Addr>): Account {
    if && (forall b | b in live :: b in size && size[b] == live[b] && b !in fl)
       && (forall u {:trigger UnitOk(base, fl, size, live, at, u)} | u in at :: UnitOk(base, fl, size, live, at, u))
       && (forall b: nat {:trigger BlockOk(base, size, at, b)} | IsBlock(base, fl, live, b) ::
         BlockOk(base, size, at, b))
    then Exact else Wrong
  }

  lemma UnitAt(base: Addr, fl: set<Addr>, size: map<Addr, nat>, live: map<Addr, nat>, at: map<Addr, Addr>, u: Addr)
    requires Units(base, fl, size, live, at).Exact? && u in at
    ensures IsBlock(base, fl, live, at[u]) && at[u] in size && at[u] <= u < at[u] + size[at[u]]
  {
    assert UnitOk(base, fl, size, live, at, u);
  }

  lemma BlockAt(base: Addr, fl: set<Addr>, size: map<Addr, nat>, live: map<Addr, nat>, at: map<Addr, Addr>, b: Addr)
    requires Units(base, fl, size, live, at).Exact? && IsBlock(base, fl, live, b)
    ensures BlockOk(base, size, at, b) && b in at && at[b] == b
  {
    assert BlockOk(base, size, at, b);
  }

  // ---- free --------------------------------------------------------------

  /** A live block does not overlap its neighbours in the list. */
  lemma Apart(base: Addr, fl: set<Addr>, size: map<Addr, nat>, live: map<Addr, nat>, at: map<Addr, Addr>, p: Addr,
              bp: Addr, q: Addr)
    requires Gaps(base, fl, size).Circular? && Units(base, fl, size, live, at).Exact? && bp in live && p in fl
    requires q in fl
    requires Between(base, p, bp, q) && p >= base
    ensures bp in size && size[bp] > 0 && p + size[p] <= bp && bp > base && bp !in fl
    ensures q != base ==> bp + size[bp] <= q
  {
    BlockAt(base, fl, size, live, at, bp);
    if q != base { BlockAt(base, fl, size, live, at, q); }
    if p != base { BlockAt(base, fl, size, live, at, p); }
  }

  lemma GapsPlain(base: Addr, fl: set<Addr>, size: map<Addr, nat>, p: Addr, bp: Addr, q: Addr)
    requires Gaps(base, fl, size).Circular? && p in fl && q in fl && Follows(base, fl, p, q) && Between(base, p, bp, q)
    requires bp in size && size[bp] > 0 && p + size[p] < bp && (q != base ==> bp + size[bp] < q)
    ensures Gaps(base, fl + {bp}, size).Circular?
  {
  }

  lemma GapsNext(base: Addr, fl: set<Addr>, size: map<Addr, nat>, p: Addr, bp: Addr, q: Addr, n: nat)
    requires Gaps(base, fl, size).Circular? && p in fl && q in fl && Follows(base, fl, p, q) && Between(base, p, bp, q)
    requires bp in size && size[bp] > 0 && p + size[p] < bp && q != base && bp + size[bp] == q
    requires n == size[bp] + size[q]
    ensures Gaps(base, fl + {bp} - {q}, size[bp := n]).Circular?
  {
  }

  /** p grows up to what followed bp. */
  lemma GapsJoin(base: Addr, fl: set<Addr>, size: map<Addr, nat>, p: Addr, bp: Addr, m: nat, n: nat)
    requires Gaps(base, fl, size).Circular? && p in fl && p != base && bp !in fl && n > 0
    requires forall x | x in fl && x > p :: p + n < x
    ensures Gaps(base, fl, size[bp := m][p := n]).Circular?
  {
  }

  lemma GapsDrop(base: Addr, fl: set<Addr>, size: map<Addr, nat>, q: Addr)
    requires Gaps(base, fl, size).Circular?
    ensures q != base ==> Gaps(base, fl - {q}, size).Circular?
  {
  }

  // ---- changing hands ----------------------------------------------------

  ghost function Reowned(at: map<Addr, Addr>, b: Addr, a: Addr): map<Addr, Addr> {
    map u | u in at :: if at[u] == b then a else at[u]
  }

  /** A live block joins the list. */
  lemma UnitsFree(base: Addr, fl: set<Addr>, size: map<Addr, nat>, live: map<Addr, nat>, at: map<Addr, Addr>, bp: Addr)
    requires Units(base, fl, size, live, at).Exact? && bp in live && bp > base
    ensures Units(base, fl + {bp}, size, live - {bp}, at).Exact?
  {
    forall u | u in at
      ensures UnitOk(base, fl + {bp}, size, live - {bp}, at, u)
    {
      UnitAt(base, fl, size, live, at, u);
    }
    forall b: nat | IsBlock(base, fl + {bp}, live - {bp}, b)
      ensures BlockOk(base, size, at, b)
    {
      BlockAt(base, fl, size, live, at, b);
    }
  }

  /** Two touching free blocks become one. */
  lemma UnitsJoin(base: Addr, fl: set<Addr>, size: map<Addr, nat>, live: map<Addr, nat>, at: map<Addr, Addr>, a: Addr,
                  b: Addr, n: nat)
    requires Units(base, fl, size, live, at).Exact? && a in fl && b in fl && base != a && base != b && a in size
    requires b in size
    requires a + size[a] == b && a < b && n == size[a] + size[b]
    ensures Units(base, fl - {b}, size[a := n], live, Reowned(at, b, a)).Exact?
  {
    var at', size' := Reowned(at, b, a), size[a := n];
    BlockAt(base, fl, size, live, at, a);
    BlockAt(base, fl, size, live, at, b);
    forall u | u in at' ensures UnitOk(base, fl - {b}, size', live, at', u) { UnitAt(base, fl, size, live, at, u); }
    forall x: nat | IsBlock(base, fl - {b}, live, x)
      ensures BlockOk(base, size', at', x)
    {
      BlockAt(base, fl, size, live, at, x);
    }
  }

  /** A free block leaves the list and is live. */
  lemma UnitsTake(base: Addr, fl: set<Addr>, size: map<Addr, nat>, live: map<Addr, nat>, at: map<Addr, Addr>, p: Addr)
    requires Units(base, fl, size, live, at).Exact? && p in fl && p != base && p in size
    ensures p !in live && Units(base, fl - {p}, size, live[p := size[p]], at).Exact?
  {
    var live' := live[p := size[p]];
    forall u | u in at ensures UnitOk(base, fl - {p}, size, live', at, u) { UnitAt(base, fl, size, live, at, u); }
    forall b: nat | IsBlock(base, fl - {p}, live', b)
      ensures BlockOk(base, size, at, b)
    {
      BlockAt(base, fl, size, live, at, b);
    }
  }

  ghost function Split(at: map<Addr, Addr>, p: Addr, r: Addr): map<Addr, Addr> {
    map u | u in at :: if at[u] == p && u >= r then r else at[u]
  }

  /** The upper n units of a free block become a live block of their own. */
  lemma UnitsSplit(base: Addr, fl: set<Addr>, size: map<Addr, nat>, live: map<Addr, nat>, at: map<Addr, Addr>, p: Addr,
                   n: nat, r: Addr)
    requires Units(base, fl, size, live, at).Exact? && p in fl && p != base && p in size && 0 < n < size[p]
    requires r == p + size[p] - n
    ensures r !in live && r !in fl && p < r
    ensures Units(base, fl, size[p := size[p] - n][r := n], live[r := n], Split(at, p, r)).Exact?
  {
    BlockAt(base, fl, size, live, at, p);
    assert at[r] == p;
    InsideNoBlock(base, fl, size, live, at, r);
    var size', live', at' := size[p := size[p] - n][r := n], live[r := n], Split(at, p, r);
    forall u | u in at' ensures UnitOk(base, fl, size', live', at', u) { UnitAt(base, fl, size, live, at, u); }
    forall x: nat | IsBlock(base, fl, live', x)
      ensures BlockOk(base, size', at', x)
    {
      if x != r { BlockAt(base, fl, size, live, at, x); }
    }
  }

  /** A unit inside a block is not itself the start of one. */
  lemma InsideNoBlock(base: Addr, fl: set<Addr>, size: map<Addr, nat>, live: map<Addr, nat>, at: map<Addr, Addr>,
                      r: Addr)
    requires Units(base, fl, size, live, at).Exact? && r in at && r > base
    ensures IsBlock(base, fl, live, r) <==> at[r] == r
  {
    UnitAt(base, fl, size, live, at, r);
    if IsBlock(base, fl, live, r) { BlockAt(base, fl, size, live, at, r); }
  }

  ghost predicate InCore(a: Addr, n: nat, u: Addr) {
    a <= u < a + n
  }

  ghost function Grown(at: map<Addr, Addr>, a: Addr, n: nat): map<Addr, Addr> {
    at + map u: nat | a <= u < a + n && InCore(a, n, u) :: a
  }

  /** A block from sbrk, above everything else, counts as live until it is freed. */
  lemma UnitsGrow(base: Addr, fl: set<Addr>, size: map<Addr, nat>, live: map<Addr, nat>, at: map<Addr, Addr>, a: Addr,
                  n: nat)
    requires Units(base, fl, size, live, at).Exact? && a > base && n > 0 && (forall u | u in at :: u < a) && base in fl
    requires fl <= size.Keys
    ensures a !in live && a !in fl && Units(base, fl, size[a := n], live[a := n], Grown(at, a, n)).Exact?
  {
    var size', live', at' := size[a := n], live[a := n], Grown(at, a, n);
    if IsBlock(base, fl, live, a) { BlockAt(base, fl, size, live, at, a); }
    forall u | u in at'
      ensures UnitOk(base, fl, size', live', at', u)
    {
      if u in at { UnitAt(base, fl, size, live, at, u); }
    }
    forall x: nat | IsBlock(base, fl, live', x)
      ensures BlockOk(base, size', at', x)
    {
      if x != a { BlockBelow(base, fl, size, live, at, x, a); }
    }
  }

  lemma BlockBelow(base: Addr, fl: set<Addr>, size: map<Addr, nat>, live: map<Addr, nat>, at: map<Addr, Addr>, x: Addr,
                   a: Addr)
    requires Units(base, fl, size, live, at).Exact? && IsBlock(base, fl, live, x) && (forall u | u in at :: u < a)
    ensures BlockOk(base, size, at, x) && x + size[x] <= a
  {
    BlockAt(base, fl, size, live, at, x);
    assert x + size[x] - 1 in at;
  }

  // ---- free as a whole ---------------------------------------------------

  /** The list after bp went in before q, took q in if it touches it (next), and was itself
      taken in by its predecessor if that touches bp (prev). */
  ghost function Joined(fl: set<Addr>, bp: Addr, q: Addr, next: bool, prev: bool): set<Addr> {
    var fl1 := if next then fl + {bp} - {q} else fl + {bp};
    if prev then fl1 - {bp} else fl1
  }

  ghost function JoinedAt(at: map<Addr, Addr>, p: Addr, bp: Addr, q: Addr, next: bool, prev: bool): map<Addr, Addr> {
    var at1 := if next then Reowned(at, q, bp) else at;
    if prev then Reowned(at1, bp, p) else at1
  }

  // what free leaves in the headers

  function FreedPtr(ptr: map<Addr, Addr>, p: Addr, bp: Addr, q: Addr, next: bool, prev: bool): map<Addr, Addr>
    requires q in ptr
  {
    var follow := if next then ptr[q] else q;
    ptr[bp := follow][p := if prev then follow else bp]
  }

  function FreedSize(size: map<Addr, nat>, p: Addr, bp: Addr, q: Addr, next: bool, prev: bool): map<Addr, nat>
    requires p in size && bp in size && q in size
  {
    var n := if next then size[bp] + size[q] else size[bp];
    if prev then size[bp := n][p := size[p] + n] else size[bp := n]
  }

  lemma LinksFreed(base: Addr, fl: set<Addr>, ptr: map<Addr, Addr>, p: Addr, bp: Addr, q: Addr, next: bool, prev: bool)
    requires Links(base, fl, ptr).Circular? && p in fl && p in ptr && q == ptr[p] && Between(base, p, bp, q)
    requires bp !in fl
    requires q in ptr && (next ==> q != base)
    ensures Links(base, Joined(fl, bp, q, next, prev), FreedPtr(ptr, p, bp, q, next, prev)).Circular?
  {
    var fl', ptr' := Joined(fl, bp, q, next, prev), FreedPtr(ptr, p, bp, q, next, prev);
    LinksAt(base, fl, ptr, p);
    if prev {
      if next { LinksDrop(base, fl, ptr, p, q); }
      assert fl' == if next then fl - {q} else fl;
      LinksFrame(base, fl', if next then ptr[p := ptr[q]] else ptr, ptr') by {
        forall b | b in fl' ensures b in ptr { LinksAt(base, fl, ptr, b); }
      }
    } else {
      LinksInsert(base, fl, ptr, p, bp, q);
      if next {
        var ptr1 := ptr[bp := q][p := bp];
        LinksDrop(base, fl + {bp}, ptr1, bp, q);
        assert ptr1[bp := ptr1[q]] == ptr';
      }
    }
  }

  lemma GapsPrev(base: Addr, fl: set<Addr>, size: map<Addr, nat>, p: Addr, bp: Addr, q: Addr, next: bool, n: nat)
    requires Gaps(base, fl, size).Circular? && p in fl && q in fl && Follows(base, fl, p, q) && Between(base, p, bp, q)
    requires bp in size && bp !in fl && bp > base && size[bp] > 0 && p + size[p] == bp
    requires (q != base ==> bp + size[bp] <= q) && next == (q != base && bp + size[bp] == q)
    requires n == if next then size[bp] + size[q] else size[bp]
    ensures Gaps(base, Joined(fl, bp, q, next, true), FreedSize(size, p, bp, q, next, true)).Circular?
  {
    var rest := if next then fl - {q} else fl;
    GapsDrop(base, fl, size, q);
    forall x | x in rest && x > p
      ensures p + (size[p] + n) < x
    {
      assert q <= x && q != base;
    }
    GapsJoin(base, rest, size, p, bp, n, size[p] + n);
    assert Joined(fl, bp, q, next, true) == rest;
  }

  lemma GapsFreed(base: Addr, fl: set<Addr>, size: map<Addr, nat>, p: Addr, bp: Addr, q: Addr, next: bool, prev: bool)
    requires Gaps(base, fl, size).Circular? && p in fl && q in fl && Follows(base, fl, p, q) && Between(base, p, bp, q)
    requires bp in size && bp !in fl && bp > base && size[bp] > 0 && p + size[p] <= bp
    requires (q != base ==> bp + size[bp] <= q)
    requires next == (q != base && bp + size[bp] == q) && prev == (p + size[p] == bp)
    ensures Gaps(base, Joined(fl, bp, q, next, prev), FreedSize(size, p, bp, q, next, prev)).Circular?
  {
    var n := if next then size[bp] + size[q] else size[bp];
    if prev {
      GapsPrev(base, fl, size, p, bp, q, next, n);
    } else if next {
      GapsNext(base, fl, size, p, bp, q, n);
    } else {
      GapsPlain(base, fl, size, p, bp, q);
      assert size[bp := n] == size;
    }
  }

  lemma UnitsFreed(base: Addr, fl: set<Addr>, size: map<Addr, nat>, live: map<Addr, nat>, at: map<Addr, Addr>,
                   p: Addr, bp: Addr, q: Addr, next: bool, prev: bool)
    requires Units(base, fl, size, live, at).Exact? && bp in live && bp > base && p in fl && q in fl && p in size
    requires q in size
    requires bp in size
    requires (next ==> q != base && bp + size[bp] == q) && (prev ==> p != base && p + size[p] == bp && p < bp)
    requires bp !in fl && (next && prev ==> p != q) && size[bp] > 0
    ensures Units(base, Joined(fl, bp, q, next, prev), FreedSize(size, p, bp, q, next, prev),
                  live - {bp}, JoinedAt(at, p, bp, q, next, prev)).Exact?
  {
    var n := if next then size[bp] + size[q] else size[bp];
    UnitsFree(base, fl, size, live, at, bp);
    var fl1, size1, live1, at1 := fl + {bp}, size[bp := n], live - {bp}, at;
    if next {
      UnitsJoin(base, fl1, size, live1, at1, bp, q, n);
      fl1, at1 := fl1 - {q}, Reowned(at, q, bp);
    } else {
      assert size1 == size;
    }
    if prev { UnitsJoin(base, fl1, size1, live1, at1, p, bp, size[p] + n); }
  }

  datatype Verdict = Sound | Corrupt

  /** The whole invariant of the allocator. */
  ghost function Books(base: Addr, fl: set<Addr>, ptr: map<Addr, Addr>, size: map<Addr, nat>, live: map<Addr, nat>,
                       at: map<Addr, Addr>): Verdict {
    if Links(base, fl, ptr).Circular? && Gaps(base, fl, size).Circular? && Units(base, fl, size, live, at).Exact?
    then Sound else Corrupt
  }

  lemma BooksFacts(base: Addr, fl: set<Addr>, ptr: map<Addr, Addr>, size: map<Addr, nat>, live: map<Addr, nat>,
                   at: map<Addr, Addr>)
    requires Books(base, fl, ptr, size, live, at).Sound?
    ensures Links(base, fl, ptr).Circular? && Gaps(base, fl, size).Circular? && Units(base, fl, size, live, at).Exact?
    ensures base in fl && fl <= size.Keys && forall b | b in live :: b in size && size[b] == live[b] && b !in fl
  {
  }

  lemma NoneZero(base: Addr, fl: set<Addr>, ptr: map<Addr, Addr>, size: map<Addr, nat>, live: map<Addr, nat>,
                 at: map<Addr, Addr>, x: Addr)
    requires Books(base, fl, ptr, size, live, at).Sound? && base > 0 && x in fl
    ensures x != 0
  {
  }

  /** Whether a unit is live changes only for the units of bp. */
  lemma JoinedKeeps(live: map<Addr, nat>, at: map<Addr, Addr>, p: Addr, bp: Addr, q: Addr, next: bool, prev: bool)
    requires p !in live && q !in live
    ensures JoinedAt(at, p, bp, q, next, prev).Keys == at.Keys
    ensures forall u | u in at :: JoinedAt(at, p, bp, q, next, prev)[u] in live - {bp} <==> at[u] in live - {bp}
  {
  }

  /** What free needs to know of the neighbours it found. */
  lemma Neighbours(base: Addr, fl: set<Addr>, ptr: map<Addr, Addr>, size: map<Addr, nat>, live: map<Addr, nat>,
                   at: map<Addr, Addr>,
                   p: Addr, bp: Addr, q: Addr)
    requires Books(base, fl, ptr, size, live, at).Sound? && bp in live && p in fl && p in ptr && q == ptr[p]
    requires Between(base, p, bp, q)
    ensures q in fl && q in ptr && q in size && p in size && bp in size && bp !in fl && bp > base
    ensures size[bp] == live[bp] > 0
    ensures Follows(base, fl, p, q) && p !in live && q !in live && bp in at && at[bp] == bp
    ensures p + size[p] <= bp && (q != base ==> bp + size[bp] <= q) && (p + size[p] == bp ==> p != base)
    ensures (q == base ==> bp + size[bp] != q)
  {
    BooksFacts(base, fl, ptr, size, live, at);
    LinksAt(base, fl, ptr, p);
    LinksAt(base, fl, ptr, q);
    Apart(base, fl, size, live, at, p, bp, q);
    BlockAt(base, fl, size, live, at, bp);
  }

  /** free keeps the books. */
  lemma FreedBooks(base: Addr, fl: set<Addr>, ptr: map<Addr, Addr>, size: map<Addr, nat>, live: map<Addr, nat>,
                   at: map<Addr, Addr>,
                   p: Addr, bp: Addr, q: Addr, next: bool, prev: bool)
    requires Books(base, fl, ptr, size, live, at).Sound? && bp in live && p in fl && p in ptr && q == ptr[p]
    requires Between(base, p, bp, q)
    requires bp in size && p in size && q in size && q in ptr && next == (bp + size[bp] == q)
    requires prev == (p + size[p] == bp)
    ensures Books(base, Joined(fl, bp, q, next, prev), FreedPtr(ptr, p, bp, q, next, prev),
                  FreedSize(size, p, bp, q, next, prev), live - {bp}, JoinedAt(at, p, bp, q, next, prev)).Sound?
  {
    BooksFacts(base, fl, ptr, size, live, at);
    Neighbours(base, fl, ptr, size, live, at, p, bp, q);
    LinksFreed(base, fl, ptr, p, bp, q, next, prev);
    GapsFreed(base, fl, size, p, bp, q, next, prev);
    UnitsFreed(base, fl, size, live, at, p, bp, q, next, prev);
    BooksHold(base, Joined(fl, bp, q, next, prev), FreedPtr(ptr, p, bp, q, next, prev),
              FreedSize(size, p, bp, q, next, prev), live - {bp}, JoinedAt(at, p, bp, q, next, prev));
  }

  lemma BooksHold(base: Addr, fl: set<Addr>, ptr: map<Addr, Addr>, size: map<Addr, nat>, live: map<Addr, nat>,
                  at: map<Addr, Addr>)
    requires Links(base, fl, ptr).Circular? && Gaps(base, fl, size).Circular? && Units(base, fl, size, live, at).Exact?
    ensures Books(base, fl, ptr, size, live, at).Sound?
  {
  }

  // ---- walking the list --------------------------------------------------

  /** The blocks from p up to, but not including, t, going round. */
  ghost function Ahead(fl: set<Addr>, p: Addr, t: Addr): set<Addr> {
    set x | x in fl && (if p <= t then p <= x < t else x >= p || x < t)
  }

  /** A step along the list leaves exactly the block it starts from behind. */
  lemma StepAhead(base: Addr, fl: set<Addr>, ptr: map<Addr, Addr>, p: Addr, t: Addr)
    requires Links(base, fl, ptr).Circular? && p in fl && t in fl && p != t
    ensures p in ptr && p in Ahead(fl, p, t) && Ahead(fl, ptr[p], t) == Ahead(fl, p, t) - {p}
  {
    LinksAt(base, fl, ptr, p);
    LinksAt(base, fl, ptr, t);
    forall x | x in fl
      ensures x in Ahead(fl, ptr[p], t) <==> x in Ahead(fl, p, t) - {p}
    {
      LinksAt(base, fl, ptr, x);
    }
  }

  /** From just after t once round to t there is all of the list. */
  lemma WholeRound(base: Addr, fl: set<Addr>, ptr: map<Addr, Addr>, t: Addr)
    requires Links(base, fl, ptr).Circular? && t in fl
    ensures t in ptr && Ahead(fl, ptr[t], t) + {t} == fl
  {
    LinksAt(base, fl, ptr, t);
    forall x | x in fl
      ensures x in Ahead(fl, ptr[t], t) + {t}
    {
      LinksAt(base, fl, ptr, x);
    }
  }

  /** Where an address above base belongs. */
  lemma PlaceExists(base: Addr, fl: set<Addr>, ptr: map<Addr, Addr>, bp: Addr) returns (t: Addr)
    requires Links(base, fl, ptr).Circular? && bp > base && bp !in fl
    ensures t in fl && t in ptr && Between(base, t, bp, ptr[t])
  {
    t := base;
    LinksAt(base, fl, ptr, t);
    while !(ptr[t] == base || bp < ptr[t])
      invariant t in fl && t in ptr && t < bp
      decreases bp - t
    {
      LinksAt(base, fl, ptr, t);
      t := ptr[t];
      LinksAt(base, fl, ptr, t);
    }
  }

  // ---- malloc ------------------------------------------------------------

  /** Blocks examined and blocks to come are different ones. */
  lemma AheadApart(base: Addr, fl: set<Addr>, ptr: map<Addr, Addr>, f: Addr, p: Addr)
    requires Links(base, fl, ptr).Circular? && f in fl && p in fl && f in ptr
    ensures Ahead(fl, ptr[f], p) !! Ahead(fl, p, f) && f !in Ahead(fl, ptr[f], p)
  {
    LinksAt(base, fl, ptr, f);
    LinksAt(base, fl, ptr, p);
    forall x | x in fl
      ensures !(x in Ahead(fl, ptr[f], p) && (x in Ahead(fl, p, f) || x == f))
    {
      LinksAt(base, fl, ptr, x);
    }
  }

  lemma GapsShrink(base: Addr, fl: set<Addr>, size: map<Addr, nat>, p: Addr, n: nat, r: Addr, m: nat)
    requires Gaps(base, fl, size).Circular? && p in fl && p != base && 0 < n < size[p] && r !in fl
    ensures Gaps(base, fl, size[p := n][r := m]).Circular?
  {
  }

  /** The block p behind prevp, of the right size, leaves the list. */
  lemma TakenWhole(base: Addr, fl: set<Addr>, ptr: map<Addr, Addr>, size: map<Addr, nat>, live: map<Addr, nat>,
                   at: map<Addr, Addr>, prevp: Addr, p: Addr)
    requires Books(base, fl, ptr, size, live, at).Sound? && prevp in fl && prevp in ptr && p == ptr[prevp] && p in size
    requires size[p] > 0
    ensures p in ptr && p in fl && prevp != p && p !in live
    ensures Books(base, fl - {p}, ptr[prevp := ptr[p]], size, live[p := size[p]], at).Sound?
  {
    BooksFacts(base, fl, ptr, size, live, at);
    LinksAt(base, fl, ptr, prevp);
    LinksDrop(base, fl, ptr, prevp, p);
    GapsDrop(base, fl, size, p);
    UnitsTake(base, fl, size, live, at, p);
    BooksHold(base, fl - {p}, ptr[prevp := ptr[p]], size, live[p := size[p]], at);
  }

  lemma SplitKeeps(live: map<Addr, nat>, at: map<Addr, Addr>, p: Addr, r: Addr)
    requires p !in live && r !in live
    ensures Split(at, p, r).Keys == at.Keys && forall u | u in at :: Split(at, p, r)[u] in live <==> at[u] in live
  {
  }

  /** The tail end of the block p becomes a block of its own. */
  lemma TakenTail(base: Addr, fl: set<Addr>, ptr: map<Addr, Addr>, size: map<Addr, nat>, live: map<Addr, nat>,
                  at: map<Addr, Addr>,
                  p: Addr, n: nat, m: nat, r: Addr)
    requires Books(base, fl, ptr, size, live, at).Sound? && p in fl && p in size && 0 < n < size[p] && m == size[p] - n
    requires r == p + m
    ensures p !in live && r !in live && r != p
    ensures Books(base, fl, ptr, size[p := m][r := n], live[r := n], Split(at, p, r)).Sound?
  {
    BooksFacts(base, fl, ptr, size, live, at);
    UnitsSplit(base, fl, size, live, at, p, n, r);
    GapsShrink(base, fl, size, p, m, r, n);
    BooksHold(base, fl, ptr, size[p := m][r := n], live[r := n], Split(at, p, r));
  }

  /** A new, empty list. */
  lemma FirstBooks(base: Addr, ptr: map<Addr, Addr>, size: map<Addr, nat>)
    ensures Books(base, {base}, ptr[base := base], size[base := 0], map[], map[]).Sound?
  {
    assert Linked(base, {base}, ptr[base := base], base);
  }

  /** Memory from sbrk, entered as a live block. */
  lemma CoreBooks(base: Addr, fl: set<Addr>, ptr: map<Addr, Addr>, size: map<Addr, nat>, live: map<Addr, nat>,
                  at: map<Addr, Addr>, a: Addr, n: nat)
    requires Books(base, fl, ptr, size, live, at).Sound? && a > base && n > 0 && forall u | u in at :: u < a
    ensures a !in live && Books(base, fl, ptr, size[a := n], live[a := n], Grown(at, a, n)).Sound?
  {
    BooksFacts(base, fl, ptr, size, live, at);
    UnitsGrow(base, fl, size, live, at, a, n);
    GapsElsewhere(base, fl, size, a, n);
    BooksHold(base, fl, ptr, size[a := n], live[a := n], Grown(at, a, n));
  }

  lemma GapsElsewhere(base: Addr, fl: set<Addr>, size: map<Addr, nat>, a: Addr, n: nat)
    requires Gaps(base, fl, size).Circular? && a !in fl
    ensures Gaps(base, fl, size[a := n]).Circular?
  {
  }

  // ---- conservation ------------------------------------------------------

  /** Different blocks share no unit. */
  lemma BlocksDisjoint(base: Addr, fl: set<Addr>, ptr: map<Addr, Addr>, size: map<Addr, nat>, live: map<Addr, nat>,
                       at: map<Addr, Addr>,
                       a: Addr, b: Addr)
    requires Books(base, fl, ptr, size, live, at).Sound? && IsBlock(base, fl, live, a) && IsBlock(base, fl, live, b)
    requires a < b
    ensures a in size && a + size[a] <= b
  {
    BlockAt(base, fl, size, live, at, a);
    BlockAt(base, fl, size, live, at, b);
  }

  ghost function Total(size: map<Addr, nat>, bs: set<Addr>): nat
    requires bs <= size.Keys
  {
    if bs == {} then 0 else var x :| x in bs; size[x] + Total(size, bs - {x})
  }

  lemma {:induction false} TotalPick(size: map<Addr, nat>, bs: set<Addr>, x: Addr)
    requires bs <= size.Keys && x in bs
    ensures Total(size, bs) == size[x] + Total(size, bs - {x})
  {
    var y :| y in bs && Total(size, bs) == size[y] + Total(size, bs - {y});
    if y != x {
      TotalPick(size, bs - {y}, x);
      TotalPick(size, bs - {x}, y);
      assert bs - {y} - {x} == bs - {x} - {y};
    }
  }

  lemma {:induction false} TotalUnion(size: map<Addr, nat>, a: set<Addr>, b: set<Addr>)
    requires a <= size.Keys && b <= size.Keys && a !! b
    ensures Total(size, a + b) == Total(size, a) + Total(size, b)
  {
    if a == {} {
      assert a + b == b;
    } else {
      var x :| x in a;
      TotalPick(size, a, x);
      TotalPick(size, a + b, x);
      TotalUnion(size, a - {x}, b);
      assert a + b - {x} == a - {x} + b;
    }
  }

  ghost function Range(a: Addr, n: nat): (r: set<Addr>)
    ensures |r| == n && forall u :: u in r <==> a <= u < a + n
  {
    if n == 0 then {} else Range(a, n - 1) + {a + n - 1}
  }

  ghost function Without(at: map<Addr, Addr>, x: Addr): map<Addr, Addr> {
    map u | u in at && at[u] != x :: at[u]
  }

  lemma WithoutBlock(base: Addr, size: map<Addr, nat>, at: map<Addr, Addr>, x: Addr, b: Addr)
    requires BlockOk(base, size, at, b) && b != x
    ensures BlockOk(base, size, Without(at, x), b)
  {
  }

  lemma WithoutCount(base: Addr, size: map<Addr, nat>, at: map<Addr, Addr>, x: Addr)
    requires BlockOk(base, size, at, x) && forall u | u in at && at[u] == x :: x <= u < x + size[x]
    ensures |at.Keys| == |Without(at, x).Keys| + size[x]
  {
    assert at.Keys == Without(at, x).Keys + Range(x, size[x]);
    assert Without(at, x).Keys !! Range(x, size[x]);
  }

  lemma {:induction false} CountUnits(base: Addr, size: map<Addr, nat>, at: map<Addr, Addr>, bs: set<Addr>)
    requires bs <= size.Keys && (forall b {:trigger BlockOk(base, size, at, b)} | b in bs :: BlockOk(base, size, at, b))
    requires forall u | u in at :: at[u] in bs && at[u] <= u < at[u] + size[at[u]]
    ensures |at.Keys| == Total(size, bs)
    decreases bs
  {
    if bs == {} {
      assert at.Keys == {};
    } else {
      var x :| x in bs;
      assert BlockOk(base, size, at, x);
      forall b | b in bs - {x}
        ensures BlockOk(base, size, Without(at, x), b)
      {
        assert BlockOk(base, size, at, b);
        WithoutBlock(base, size, at, x, b);
      }
      CountUnits(base, size, Without(at, x), bs - {x});
      TotalPick(size, bs, x);
      WithoutCount(base, size, at, x);
    }
  }

  /** Free units and live units together are the units obtained from sbrk. */
  lemma Conservation(base: Addr, fl: set<Addr>, ptr: map<Addr, Addr>, size: map<Addr, nat>, live: map<Addr, nat>,
                     at: map<Addr, Addr>)
    requires Books(base, fl, ptr, size, live, at).Sound?
    ensures fl - {base} <= size.Keys && live.Keys <= size.Keys
    ensures Total(size, fl - {base}) + Total(size, live.Keys) == |at.Keys|
  {
    BooksFacts(base, fl, ptr, size, live, at);
    var bs := fl - {base} + live.Keys;
    forall b | b in bs ensures BlockOk(base, size, at, b) { BlockAt(base, fl, size, live, at, b); }
    forall u | u in at ensures at[u] in bs && at[u] <= u < at[u] + size[at[u]] { UnitAt(base, fl, size, live, at, u); }
    CountUnits(base, size, at, bs);
    TotalUnion(size, fl - {base}, live.Keys);
  }

  // ---- the allocator -----------------------------------------------------

  class Heap {
    const base: Addr           // where the static empty block lies
    var freep: Addr            // zero before the first malloc
    var ptr: map<Addr, Addr>   // s.ptr of the header at an address
    var size: map<Addr, nat>   // s.size of the header at an address
    ghost var fl: set<Addr>
    ghost var live: map<Addr, nat>
    ghost var at: map<Addr, Addr>

    ghost predicate Valid()
      reads this
    {
      && base > 0
      && (freep == 0 ==> live == map[] && at == map[])
      && (freep != 0 ==>
            freep in fl && Books(base, fl, ptr, size, live, at).Sound?)
    }

    /** After any calls of malloc and free the units of the blocks in use and of the free list are
        the units sbrk gave, whose addresses malloc's and morecore's contracts track in at. */
    lemma Accounts()
      requires Valid() && freep != 0
      ensures fl - {base} <= size.Keys && live.Keys <= size.Keys
      ensures Total(size, fl - {base}) + Total(size, live.Keys) == |at.Keys|
    {
      Conservation(base, fl, ptr, size, live, at);
    }

    constructor (base: Addr)
      requires base > 0
      ensures Valid() && live == map[] && at == map[]
    {
      this.base, freep, ptr, size := base, 0, map[], map[];
      fl, live, at := {}, map[], map[];
    }

    /** free's loop: the block that bp comes after. */
    method FindPlace(bp: Addr) returns (p: Addr)
      requires Valid() && freep != 0 && bp in live
      ensures p in fl && p in ptr && Between(base, p, bp, ptr[p])
    {
      BlockAt(base, fl, size, live, at, bp);
      ghost var t := PlaceExists(base, fl, ptr, bp);
      p := freep;
      LinksAt(base, fl, ptr, p);
      while !(bp > p && bp < ptr[p])
        invariant p in fl && p in ptr
        decreases Ahead(fl, p, t)
      {
        LinksAt(base, fl, ptr, p);
        LinksAt(base, fl, ptr, t);
        if p >= ptr[p] && (bp > p || bp < ptr[p]) { break; }
        assert p != t;
        StepAhead(base, fl, ptr, p, t);
        p := ptr[p];
        LinksAt(base, fl, ptr, p);
      }
      LinksAt(base, fl, ptr, p);
    }

    /** The header updates of free, with p the block bp comes after. */
    method Link(p: Addr, bp: Addr, ghost q: Addr, ghost next: bool, ghost prev: bool)
      requires p in ptr && q == ptr[p] && p in size && bp in size && q in ptr && q in size && p != bp && bp != q
      requires next == (bp + size[bp] == q) && prev == (p + size[p] == bp)
      modifies this`ptr, this`size, this`freep
      ensures ptr == FreedPtr(old(ptr), p, bp, q, next, prev) && size == FreedSize(old(size), p, bp, q, next, prev)
      ensures freep == p
    {
      if bp + size[bp] == ptr[p] {
        size := size[bp := size[bp] + size[ptr[p]]];
        ptr := ptr[bp := ptr[ptr[p]]];
      } else {
        ptr := ptr[bp := ptr[p]];
      }
      if p + size[p] == bp {
        size := size[p := size[p] + size[bp]];
        ptr := ptr[p := ptr[bp]];
      } else {
        ptr := ptr[p := bp];
      }
      freep := p;
    }

    /** free: the block goes back, and its units with it, joined with the free blocks it
        touches. */
    method Free(ap: Addr)
      requires Valid() && freep != 0 && ap > 0 && ap - 1 in live
      modifies this
      ensures Valid() && freep != 0 && live == old(live) - {ap - 1} && at.Keys == old(at.Keys)
      ensures forall u | u in at :: at[u] in live <==> old(at)[u] in live
      ensures ap - 1 in at && at[ap - 1] in fl && at[ap - 1] in size && size[at[ap - 1]] >= old(live)[ap - 1]
      ensures freep in old(fl) && freep in old(ptr) && Between(base, freep, ap - 1, old(ptr)[freep])
    {
      var bp := ap - 1;
      var p := FindPlace(bp);
      ghost var q := ptr[p];
      Neighbours(base, fl, ptr, size, live, at, p, bp, q);
      ghost var next, prev := bp + size[bp] == q, p + size[p] == bp;
      FreedBooks(base, fl, ptr, size, live, at, p, bp, q, next, prev);
      JoinedKeeps(live, at, p, bp, q, next, prev);
      Link(p, bp, q, next, prev);
      fl, live, at := Joined(fl, bp, q, next, prev), live - {bp}, JoinedAt(at, p, bp, q, next, prev);
    }

    /** malloc's first call makes a list of one empty block, base. */
    method Start()
      requires Valid() && freep == 0
      modifies this
      ensures Valid() && freep != 0 && live == old(live) && at == old(at)
    {
      FirstBooks(base, ptr, size);
      freep := base;
      ptr, size := ptr[base := base], size[base := 0];
      fl := {base};
    }

    /** malloc's loop, once round from freep: the first block of at least n units, and the
        one before it. */
    method Scan(n: nat) returns (found: bool, prevp: Addr, p: Addr)
      requires Valid() && freep != 0 && n > 0
      ensures found ==> prevp in fl && prevp in ptr && p == ptr[prevp] && p in fl && p in size && size[p] >= n
      ensures found ==> NextFit(fl, ptr, size, freep, n, prevp)
      ensures !found ==> forall x | x in fl :: size[x] < n
    {
      BooksFacts(base, fl, ptr, size, live, at);
      prevp := freep;
      WholeRound(base, fl, ptr, freep);
      LinksAt(base, fl, ptr, prevp);
      p := ptr[prevp];
      while true
        invariant prevp in fl && prevp in ptr && p == ptr[prevp] && p in fl
        invariant forall x | x in fl && x !in Ahead(fl, p, freep) && x != freep :: size[x] < n
        decreases Ahead(fl, p, freep)
      {
        if size[p] >= n {
          AheadApart(base, fl, ptr, freep, p);
          return true, prevp, p;
        }
        if p == freep {
          return false, prevp, p;
        }
        StepAhead(base, fl, ptr, p, freep);
        prevp, p := p, ptr[p];
        LinksAt(base, fl, ptr, prevp);
      }
    }

    /** The whole block p behind prevp leaves the list. */
    method CutWhole(prevp: Addr, p: Addr)
      requires Valid() && freep != 0 && prevp in fl && prevp in ptr && p == ptr[prevp] && p in size && size[p] > 0
      modifies this
      ensures Valid() && freep != 0 && p !in old(live) && live == old(live)[p := old(size)[p]] && at == old(at)
      ensures freep == prevp && p in old(ptr) && ptr == old(ptr)[prevp := old(ptr)[p]] && size == old(size)
    {
      TakenWhole(base, fl, ptr, size, live, at, prevp, p);
      ptr := ptr[prevp := ptr[p]];
      fl, live := fl - {p}, live[p := size[p]];
      freep := prevp;
    }

    /** The last n units of the block p leave it and become a block of their own. */
    method CutTail(prevp: Addr, p0: Addr, n: nat) returns (p: Addr)
      requires Valid() && freep != 0 && prevp in fl && p0 in fl && p0 in size && size[p0] > n > 0
      modifies this
      ensures Valid() && freep != 0 && p !in old(live) && live == old(live)[p := n] && at.Keys == old(at.Keys)
      ensures forall u | u in at :: at[u] in old(live) <==> old(at)[u] in old(live)
      ensures freep == prevp && ptr == old(ptr) && p == p0 + (old(size)[p0] - n)
      ensures size == old(size)[p0 := old(size)[p0] - n][p := n]
    {
      hide Books, Split;
      NoneZero(base, fl, ptr, size, live, at, prevp);
      p := p0;
      ghost var r := p + (size[p] - n);
      TakenTail(base, fl, ptr, size, live, at, p, n, size[p] - n, r);
      SplitKeeps(live, at, p, r);
      size := size[p := size[p] - n];
      p := p + size[p];
      size := size[p := n];
      live, at := live[p := n], Split(at, p0, p);
      freep := prevp;
    }

    /** malloc's cut: n units of the block p behind prevp. */
    method Cut(prevp: Addr, p0: Addr, n: nat) returns (p: Addr)
      requires Valid() && freep != 0 && prevp in fl && prevp in ptr && p0 == ptr[prevp] && p0 in fl && p0 in size
      requires size[p0] >= n > 0
      modifies this
      ensures Valid() && freep != 0 && p !in old(live) && live == old(live)[p := n] && at.Keys == old(at.Keys)
      ensures forall u | u in at :: at[u] in old(live) <==> old(at)[u] in old(live)
      ensures freep == prevp && p == p0 + (old(size)[p0] - n)
      ensures if old(size)[p0] == n then p0 in old(ptr) && ptr == old(ptr)[prevp := old(ptr)[p0]] else ptr == old(ptr)
      ensures size == if old(size)[p0] == n then old(size) else old(size)[p0 := old(size)[p0] - n][p := n]
    {
      if size[p0] == n {
        CutWhole(prevp, p0);
        p := p0;
      } else {
        p := CutTail(prevp, p0, n);
      }
    }

    /** morecore: ask sbrk for n units or 4096, and free what it gives. core is what sbrk
        returns, zero for its failure. */
    method Morecore(n: nat, core: Addr) returns (ok: bool)
      requires Valid() && freep != 0 && n > 0 && (core != 0 ==> core > base && forall u | u in at :: u < core)
      modifies this
      ensures ok == (core != 0) && Valid() && freep != 0 && live == old(live)
      ensures !ok ==> fl == old(fl) && at == old(at)
      ensures ok ==> at.Keys == Grown(old(at), core, if n < 4096 then 4096 else n).Keys && exists x ::
        x in fl && x in size && size[x] >= n
      ensures forall u | u in old(at) :: u in at && (at[u] in live <==> old(at)[u] in live)
    {
      var nu := if n < 4096 then 4096 else n;
      if core == 0 { return false; }
      CoreBooks(base, fl, ptr, size, live, at, core, nu);
      size := size[core := nu];
      live, at := live[core := nu], Grown(at, core, nu);
      Free(core + 1);
      ok := true;
    }

    /** malloc. core is what sbrk returns if it is asked; r is zero for failure. */
    method Malloc(nbytes: nat, core: Addr) returns (r: Addr, ghost cores: nat)
      requires Valid() && nbytes < 0x7FFF_FFF0 && (core != 0 ==> core > base && forall u | u in at :: u < core)
      modifies this
      ensures Valid() && freep != 0 && cores <= 1
      ensures r != 0 ==> r - 1 !in old(live) && live == old(live)[r - 1 := Nunits(nbytes)]
      ensures r == 0 ==> cores == 1 && core == 0 && live == old(live)
      ensures cores == 1 ==> old(freep) == 0 || NoneFits(old(fl), old(size), Nunits(nbytes))
      ensures cores == 0 && old(freep) != 0 ==>
        && NextFit(old(fl), old(ptr), old(size), old(freep), Nunits(nbytes), freep)
        && r - 1 == old(ptr)[freep] + (old(size)[old(ptr)[freep]] - Nunits(nbytes))
      ensures at.Keys == if cores == 1 && core != 0 then Grown(old(at), core, Core(nbytes)).Keys else old(at.Keys)
      ensures forall u | u in old(at) :: u in at && (at[u] in old(live) <==> old(at)[u] in old(live))
    {
      hide Books, Grown;
      var nunits := Nunits(nbytes);
      cores := 0;
      if freep == 0 { Start(); }
      var found, prevp, p := Scan(nunits);
      assert !found && old(freep) != 0 ==> NoneFits(old(fl), old(size), nunits);
      while !found
        invariant !found || cores == 1 ==> old(freep) == 0 || NoneFits(old(fl), old(size), nunits)
        invariant Valid() && freep != 0 && live == old(live) && (cores == 0 || (cores == 1 && found && core != 0))
        invariant found ==> prevp in fl && prevp in ptr && p == ptr[prevp] && p in fl && p in size && size[p] >= nunits
        invariant (!found ==> at == old(at))
        invariant cores == 0 && old(freep) != 0 ==> fl == old(fl) && ptr == old(ptr) && size == old(size)
        invariant cores == 0 && old(freep) != 0 && found ==> NextFit(fl, ptr, size, old(freep), nunits, prevp)
        invariant at.Keys == if cores == 1 then Grown(old(at), core, Core(nbytes)).Keys else old(at.Keys)
        invariant forall u | u in old(at) :: u in at && (at[u] in old(live) <==> old(at)[u] in old(live))
        decreases 1 - cores
      {
        cores := 1;
        var ok := Morecore(nunits, core);
        if !ok { return 0, cores; }
        found, prevp, p := Scan(nunits);
      }
      p := Cut(prevp, p, nunits);
      r := p + 1;
    }
  }

  /** The block behind q is the first from the rover on that has n units. */
  ghost predicate NextFit(fl: set<Addr>, ptr: map<Addr, Addr>, size: map<Addr, nat>, rover: Addr, n: nat, q: Addr) {
    && rover in ptr && q in ptr && ptr[q] in fl && ptr[q] in size && size[ptr[q]] >= n
    && forall x | x in Ahead(fl, ptr[rover], ptr[q]) :: x in size && size[x] < n
  }

  /** No block of the free list is as large as n units. */
  ghost predicate NoneFits(fl: set<Addr>, size: map<Addr, nat>, n: nat) {
    forall x | x in fl && x in size :: size[x] < n
  }

  /** How many units a request takes: its bytes rounded up to units, and one for the header, in
      unsigned 32-bit arithmetic. */
  function Nunits(nbytes: nat): nat {
    (nbytes + 7) % 0x1_0000_0000 / 8 + 1
  }

  /** What morecore asks for. */
  function Core(nbytes: nat): nat {
    if Nunits(nbytes) < 4096 then 4096 else Nunits(nbytes)
  }

  /** The block malloc cuts has room for the request behind its header, with less than a
      header to spare, and what sbrk is asked for is no negative int. */
  lemma RoomEnough(nbytes: nat)
    requires nbytes < 0x7FFF_FFF0
    ensures nbytes <= 8 * (Nunits(nbytes) - 1) < nbytes + 8 && 8 * Core(nbytes) < 0x8000_0000
  {
  }
}
