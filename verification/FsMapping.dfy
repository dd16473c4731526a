/** What one call of bmap may do to the state, and why it composes. */
module FsMapping {
  import opened Blocks
  import opened FsLayout
  import opened FsOwnership

  /** Blocks logged on account of the indirect block when slot s is filled. */
  ghost function IndirectLogged(sb: Superblock, ind: nat, ind': nat, s: nat): set<nat> {
    if s <= NDIRECT then {}
    else if ind != 0 then {ind'}
    else {ind', BitmapBlock(sb, ind')}
  }

  ghost predicate PtrsKept(v: View, w: View, i: nat)
    requires i < |v.ips| && i < |w.ips|
  {
    forall t: nat | Ptr(v.d, v.ips[i], t) != 0 :: Ptr(w.d, w.ips[i], t) == Ptr(v.d, v.ips[i], t)
  }

  /** Slot s of inode i was empty and now holds the fresh, zeroed block b; nothing that had
      an owner changed hands. */
  ghost predicate FillsSlot(sb: Superblock, v: View, w: View, i: nat, s: nat, b: nat) {
    && Fsck(sb, w).Clean? && Change(sb, v, w, i).Growth?
    && i < |v.ips| && i < |w.ips| && 0 < b < |w.d|
    && Ptr(v.d, v.ips[i], s) == 0 && Ptr(w.d, w.ips[i], s) == b && PtrsKept(v, w, i)
    && b !in v.ow && w.d[b] == ZeroBlock()
    && w.logged <= v.logged + {BitmapBlock(sb, b), b}
                   + IndirectLogged(sb, Ptr(v.d, v.ips[i], NDIRECT), Ptr(w.d, w.ips[i], NDIRECT), s)
  }

  datatype Lookup = Found | Filled | Wrong

  /** The outcome of looking slot s of inode i up and getting block b. */
  ghost function Mapping(sb: Superblock, v: View, w: View, i: nat, s: nat, b: nat): Lookup {
    if w == v && Fsck(sb, v).Clean? && i < |v.ips| && 0 < Ptr(v.d, v.ips[i], s) == b < |v.d| then Found
    else if FillsSlot(sb, v, w, i, s, b) then Filled
    else Wrong
  }

  lemma MappingFacts(sb: Superblock, v: View, w: View, i: nat, s: nat, b: nat)
    requires !Mapping(sb, v, w, i, s, b).Wrong?
    ensures Fsck(sb, w).Clean? && i < |v.ips| && i < |w.ips| && |w.ips| == |v.ips| && |w.d| == |v.d|
    ensures 0 < b < |w.d| && Ptr(w.d, w.ips[i], s) == b && PtrsKept(v, w, i)
    ensures Change(sb, v, w, i).Growth?
    ensures Ptr(v.d, v.ips[i], s) != 0 ==> w == v
  {
    if w == v { NoChange(sb, v, i); }
  }

  lemma NoChange(sb: Superblock, v: View, i: nat)
    requires Fsck(sb, v).Clean? && i < |v.ips|
    ensures Change(sb, v, v, i).Growth?
  {
  }

  lemma AddrFilled(sb: Superblock, v: View, i: nat, s: nat, b: nat)
    requires Fsck(sb, v).Clean? && i < |v.ips| && s <= NDIRECT && |v.ips[i].addrs| == 13 && v.ips[i].addrs[s] == 0
    requires b < sb.size && BitmapBlock(sb, b) < |v.d| && b < |v.d| && !Used(sb, v.d, b)
    ensures Mapping(sb, v, View(Allocated(sb, v.d, b), v.ips[i := v.ips[i].(addrs := v.ips[i].addrs[s := b])],
                                v.ow[b := (i, s)], v.logged + {BitmapBlock(sb, b), b}), i, s, b).Filled?
  {
    var logged := v.logged + {BitmapBlock(sb, b), b};
    GrowAddrView(sb, v, i, s, b, logged);
    var w := View(Allocated(sb, v.d, b), v.ips[i := v.ips[i].(addrs := v.ips[i].addrs[s := b])], v.ow[b := (i, s)],
      logged);
    assert FillsSlot(sb, v, w, i, s, b);
  }

  lemma EntryFilled(sb: Superblock, v: View, i: nat, e: nat, b: nat, data: Block)
    requires Fsck(sb, v).Clean? && i < |v.ips| && e < WORDS && |v.ips[i].addrs| == 13
    requires 0 < v.ips[i].addrs[NDIRECT] < |v.d| && Word(v.d[v.ips[i].addrs[NDIRECT]], e) == 0
    requires b < sb.size && BitmapBlock(sb, b) < |v.d| && b < |v.d| && !Used(sb, v.d, b)
    requires StoresWord(v.d[v.ips[i].addrs[NDIRECT]], data, e, b)
    ensures var ind := v.ips[i].addrs[NDIRECT];
      Mapping(sb, v, View(Allocated(sb, v.d, b)[ind := data], v.ips, v.ow[b := (i, 13 + e)],
                          v.logged + {BitmapBlock(sb, b), b} + {ind}), i, 13 + e, b).Filled?
  {
    var ind := v.ips[i].addrs[NDIRECT];
    var logged := v.logged + {BitmapBlock(sb, b), b} + {ind};
    GrowEntryView(sb, v, i, e, b, data, logged);
    var w := View(Allocated(sb, v.d, b)[ind := data], v.ips, v.ow[b := (i, 13 + e)], logged);
    assert Ptr(v.d, v.ips[i], NDIRECT) == ind;
    assert FillsSlot(sb, v, w, i, 13 + e, b);
  }

  lemma BothFilled(sb: Superblock, u: View, v: View, w: View, i: nat, ind: nat, e: nat, b: nat)
    requires FillsSlot(sb, u, v, i, NDIRECT, ind) && FillsSlot(sb, v, w, i, 13 + e, b)
    ensures FillsSlot(sb, u, w, i, 13 + e, b)
  {
    GrowthTransitive(sb, u, v, w, i);
    FewerOwned(sb, u, v, i, b);
    assert Ptr(u.d, u.ips[i], 13 + e) == 0;
    assert Ptr(w.d, w.ips[i], NDIRECT) == ind;
    assert PtrsKept(u, w, i);
  }

  lemma FewerOwned(sb: Superblock, u: View, v: View, i: nat, b: nat)
    requires Change(sb, u, v, i).Growth? && b !in v.ow
    ensures b !in u.ow
  {
  }

  /** bmap past the direct blocks: the indirect block first, then its entry. */
  lemma ThroughIndirect(sb: Superblock, u: View, v: View, w: View, i: nat, ind: nat, e: nat, b: nat)
    requires !Mapping(sb, u, v, i, NDIRECT, ind).Wrong? && !Mapping(sb, v, w, i, 13 + e, b).Wrong?
    ensures !Mapping(sb, u, w, i, 13 + e, b).Wrong?
  {
    if Mapping(sb, u, v, i, NDIRECT, ind).Filled? {
      EmptyIndirect(sb, u, v, i, ind, 13 + e);
      BothFilled(sb, u, v, w, i, ind, e, b);
    }
  }

  /** A fresh indirect block has no entries. */
  lemma EmptyIndirect(sb: Superblock, u: View, v: View, i: nat, ind: nat, t: nat)
    requires FillsSlot(sb, u, v, i, NDIRECT, ind) && t > NDIRECT
    ensures Ptr(v.d, v.ips[i], t) == 0
  {
    assert t < NSLOTS ==> Word(ZeroBlock(), t - 13) == 0;
  }
}
