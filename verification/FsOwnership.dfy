/** Who owns which block: a block is marked in use exactly when it is metadata or some
    inode's pointer refers to it, and then exactly one does. */
module FsOwnership {
  import opened Blocks
  import opened FsLayout

  /** For each owned block, the inode and slot that point to it. */
  type Owners = map<nat, (nat, nat)>

  ghost predicate WellFormed(sb: Superblock, d: Disk, ips: seq<Inode>) {
    && ValidSb(sb) && |d| >= sb.size && |ips| == sb.ninodes
    && forall i | 0 <= i < |ips| :: |ips[i].addrs| == 13
  }

  ghost predicate PointersOwned(d: Disk, ips: seq<Inode>, ow: Owners) {
    forall i: nat, s: nat | i < |ips| && Ptr(d, ips[i], s) != 0 ::
      Ptr(d, ips[i], s) in ow && ow[Ptr(d, ips[i], s)] == (i, s)
  }

  ghost predicate OwnersPoint(sb: Superblock, d: Disk, ips: seq<Inode>, ow: Owners) {
    forall b | b in ow ::
      && DataStart(sb) <= b < sb.size
      && ow[b].0 < |ips| && Ptr(d, ips[ow[b].0], ow[b].1) == b
  }

  /** ow says who owns what; in particular no block has two owners. */
  ghost predicate Owned(sb: Superblock, d: Disk, ips: seq<Inode>, ow: Owners) {
    WellFormed(sb, d, ips) && PointersOwned(d, ips, ow) && OwnersPoint(sb, d, ips, ow)
  }

  /** The free map marks metadata, owned blocks, and the loose blocks just allocated. */
  ghost predicate MapExact(sb: Superblock, d: Disk, ow: Owners, loose: set<nat>) {
    forall b: nat | b < sb.size :: Used(sb, d, b) <==> b < DataStart(sb) || b in ow || b in loose
  }

  // ---- what changes no pointer -------------------------------------------

  /** d' differs from d in no indirect block. */
  ghost predicate SameIndirect(d: Disk, d': Disk, ips: seq<Inode>) {
    && |d'| == |d|
    && forall i | 0 <= i < |ips| && 0 < Ptr(d, ips[i], NDIRECT) < |d| ::
         d'[Ptr(d, ips[i], NDIRECT)] == d[Ptr(d, ips[i], NDIRECT)]
  }

  lemma SamePointers(sb: Superblock, d: Disk, d': Disk, ips: seq<Inode>, ow: Owners)
    requires Owned(sb, d, ips, ow) && SameIndirect(d, d', ips)
    ensures Owned(sb, d', ips, ow)
    ensures forall i: nat, s: nat | i < |ips| :: Ptr(d', ips[i], s) == Ptr(d, ips[i], s)
  {
    forall i: nat, s: nat | i < |ips|
      ensures Ptr(d', ips[i], s) == Ptr(d, ips[i], s)
    {
    }
  }

  /** A write to a block that is no inode's indirect block changes no pointer. */
  lemma WriteElsewhere(sb: Superblock, d: Disk, ips: seq<Inode>, ow: Owners, b: nat, data: Block)
    requires Owned(sb, d, ips, ow) && b < |d|
    requires b in ow ==> ow[b].1 != NDIRECT
    ensures var d' := d[b := data];
      && SameIndirect(d, d', ips) && Owned(sb, d', ips, ow)
      && forall i: nat, s: nat | i < |ips| :: Ptr(d', ips[i], s) == Ptr(d, ips[i], s)
  {
    var d' := d[b := data];
    forall i | 0 <= i < |ips| && 0 < Ptr(d, ips[i], NDIRECT) < |d|
      ensures d'[Ptr(d, ips[i], NDIRECT)] == d[Ptr(d, ips[i], NDIRECT)]
    {
      assert ow[Ptr(d, ips[i], NDIRECT)] == (i, NDIRECT);
    }
    SamePointers(sb, d, d', ips, ow);
  }

  /** Writing outside the free map leaves it as it is. */
  lemma MapKept(sb: Superblock, d: Disk, b: nat, data: Block)
    requires ValidSb(sb) && |d| >= sb.size && b < |d|
    requires forall x: nat | x < sb.size :: BitmapBlock(sb, x) != b
    ensures forall x: nat | x < sb.size :: Used(sb, d[b := data], x) == Used(sb, d, x)
  {
  }

  /** ... and exact if it was. */
  lemma MapExactElsewhere(sb: Superblock, d: Disk, ow: Owners, b: nat, data: Block)
    requires ValidSb(sb) && |d| >= sb.size && b < |d| && MapExact(sb, d, ow, {})
    requires forall x: nat | x < sb.size :: BitmapBlock(sb, x) != b
    ensures MapExact(sb, d[b := data], ow, {})
  {
    MapKept(sb, d, b, data);
    var d' := d[b := data];
    forall x: nat | x < sb.size
      ensures Used(sb, d', x) <==> x < DataStart(sb) || x in ow || x in {}
    {
      assert Used(sb, d', x) == Used(sb, d, x);
    }
  }

  lemma DataNotMap(sb: Superblock, b: nat)
    requires ValidSb(sb) && (b >= DataStart(sb) || b < sb.bmapstart)
    ensures forall x: nat | x < sb.size :: BitmapBlock(sb, x) != b
  {
  }

  datatype Space = Full | Room

  /** Is any block free? */
  ghost function FreeSpace(sb: Superblock, d: Disk): Space {
    if forall x: nat | x < sb.size :: Used(sb, d, x) then Full else Room
  }

  // ---- allocation --------------------------------------------------------

  /** The disk after balloc picks block b: marked, and zeroed. */
  function Allocated(sb: Superblock, d: Disk, b: nat): Disk
    requires BitmapBlock(sb, b) < |d| && b < |d| && !Used(sb, d, b)
  {
    d[BitmapBlock(sb, b) := RaiseBit(d[BitmapBlock(sb, b)], b % BPB)][b := ZeroBlock()]
  }

  lemma BitRaised(sb: Superblock, d: Disk, b: nat, x: nat)
    requires ValidSb(sb) && |d| >= sb.size && b < sb.size && x < sb.size && !Used(sb, d, b)
    ensures var m := BitmapBlock(sb, b); Used(sb, d[m := RaiseBit(d[m], b % BPB)], x) == (x == b || Used(sb, d, x))
  {
    var m := BitmapBlock(sb, b);
    BitRaise(d[m], b % BPB);
    assert BitmapBlock(sb, x) == m && x % BPB == b % BPB ==> x == b;
  }

  /** Allocating makes b loose and disturbs no owner. */
  lemma AllocateKeeps(sb: Superblock, d: Disk, ips: seq<Inode>, ow: Owners, loose: set<nat>, b: nat)
    requires Owned(sb, d, ips, ow) && MapExact(sb, d, ow, loose) && b < sb.size && !Used(sb, d, b)
    ensures b >= DataStart(sb) && b !in ow && b !in loose
    ensures var d' := Allocated(sb, d, b);
      && Owned(sb, d', ips, ow) && MapExact(sb, d', ow, loose + {b})
      && SameIndirect(d, d', ips)
      && forall i: nat, s: nat | i < |ips| :: Ptr(d', ips[i], s) == Ptr(d, ips[i], s)
  {
    var m := BitmapBlock(sb, b);
    var d1 := d[m := RaiseBit(d[m], b % BPB)];
    var d2 := d1[b := ZeroBlock()];
    WriteElsewhere(sb, d, ips, ow, m, RaiseBit(d[m], b % BPB));
    WriteElsewhere(sb, d1, ips, ow, b, ZeroBlock());
    DataNotMap(sb, b);
    MapKept(sb, d1, b, ZeroBlock());
    forall x: nat | x < sb.size
      ensures Used(sb, d2, x) <==> x < DataStart(sb) || x in ow || x in loose + {b}
    {
      BitRaised(sb, d, b, x);
    }
  }

  // ---- attaching a loose block -------------------------------------------

  /** addrs[s] := b, for an empty direct slot or an empty indirect slot and a zeroed block. */
  lemma AttachAddr(sb: Superblock, d: Disk, ips: seq<Inode>, ow: Owners, i: nat, s: nat, b: nat)
    requires Owned(sb, d, ips, ow) && i < |ips| && s <= NDIRECT && ips[i].addrs[s] == 0
    requires DataStart(sb) <= b < sb.size && b !in ow && b != 0
    requires s == NDIRECT ==> d[b] == ZeroBlock()
    ensures var ip' := ips[i].(addrs := ips[i].addrs[s := b]);
      && Owned(sb, d, ips[i := ip'], ow[b := (i, s)])
      && forall t: nat :: Ptr(d, ip', t) == if t == s then b else Ptr(d, ips[i], t)
  {
    var ip' := ips[i].(addrs := ips[i].addrs[s := b]);
    var ips' := ips[i := ip'];
    var ow' := ow[b := (i, s)];
    forall t: nat 
      ensures Ptr(d, ip', t) == if t == s then b else Ptr(d, ips[i], t)
    {
    }
    forall j: nat, t: nat | j < |ips'| && Ptr(d, ips'[j], t) != 0
      ensures Ptr(d, ips'[j], t) in ow' && ow'[Ptr(d, ips'[j], t)] == (j, t)
    {
      assert j != i || t != s ==> Ptr(d, ips[j], t) in ow;
    }
    forall x | x in ow'
      ensures DataStart(sb) <= x < sb.size
      ensures ow'[x].0 < |ips'| && Ptr(d, ips'[ow'[x].0], ow'[x].1) == x
    {
      assert x != b ==> Ptr(d, ips[ow[x].0], ow[x].1) == x;
      assert Ptr(d, ips[i], s) == 0;
    }
  }

  /** Entry e of inode i's indirect block := b. */
  lemma AttachEntry(sb: Superblock, d: Disk, ips: seq<Inode>, ow: Owners, i: nat, e: nat, b: nat, data: Block)
    requires Owned(sb, d, ips, ow) && i < |ips| && e < WORDS && 0 < ips[i].addrs[NDIRECT] < |d|
    requires DataStart(sb) <= b < sb.size && b !in ow && b != 0
    requires Ptr(d, ips[i], 13 + e) == 0 && StoresWord(d[ips[i].addrs[NDIRECT]], data, e, b)
    ensures var ind := ips[i].addrs[NDIRECT];
      var d' := d[ind := data];
      && Owned(sb, d', ips, ow[b := (i, 13 + e)])
      && (forall t: nat :: Ptr(d', ips[i], t) == if t == 13 + e then b else Ptr(d, ips[i], t))
      && (forall j: nat, t: nat | j < |ips| && j != i :: Ptr(d', ips[j], t) == Ptr(d, ips[j], t))
      && (forall x: nat | x < sb.size :: Used(sb, d', x) == Used(sb, d, x))
  {
    var ind := ips[i].addrs[NDIRECT];
    var d' := d[ind := data];
    assert Ptr(d, ips[i], NDIRECT) == ind && ow[ind] == (i, NDIRECT);
    forall t: nat 
      ensures Ptr(d', ips[i], t) == if t == 13 + e then b else Ptr(d, ips[i], t)
    {
    }
    forall j: nat, t: nat | j < |ips| && j != i 
      ensures Ptr(d', ips[j], t) == Ptr(d, ips[j], t)
    {
      assert Ptr(d, ips[j], NDIRECT) == ips[j].addrs[NDIRECT];
      assert ips[j].addrs[NDIRECT] != ind;
    }
    DataNotMap(sb, ind);
    MapKept(sb, d, ind, data);
    var ow' := ow[b := (i, 13 + e)];
    forall j: nat, t: nat | j < |ips| && Ptr(d', ips[j], t) != 0
      ensures Ptr(d', ips[j], t) in ow' && ow'[Ptr(d', ips[j], t)] == (j, t)
    {
      assert j != i || t != 13 + e ==> Ptr(d', ips[j], t) == Ptr(d, ips[j], t) && Ptr(d, ips[j], t) in ow;
    }
    forall x | x in ow'
      ensures DataStart(sb) <= x < sb.size
      ensures ow'[x].0 < |ips| && Ptr(d', ips[ow'[x].0], ow'[x].1) == x
    {
      assert x != b ==> Ptr(d, ips[ow[x].0], ow[x].1) == x;
    }
  }

  // ---- growing one file --------------------------------------------------

  /** Inode i may have gained blocks; every block that had an owner keeps it, no data block
      and nothing of another inode changed, and the inode blocks are as they were. */
  ghost predicate Extends(sb: Superblock, d: Disk, ips: seq<Inode>, ow: Owners,
                          d': Disk, ips': seq<Inode>, ow': Owners, i: nat)
  {
    && |d'| == |d| && |ips'| == |ips| && i < |ips|
    && (forall j | 0 <= j < |ips| && j != i :: ips'[j] == ips[j])
    && ips'[i] == ips[i].(addrs := ips'[i].addrs)
    && (forall b | b in ow :: b in ow' && ow'[b] == ow[b] && b < |d|)
    && (forall b | b in ow && (ow[b].1 != NDIRECT || ow[b].0 != i) && b < |d| :: d'[b] == d[b])
    && (forall b: nat | b < sb.bmapstart && b < |d| :: d'[b] == d[b])
  }

  lemma ExtendsTransitive(sb: Superblock, d: Disk, ips: seq<Inode>, ow: Owners, d1: Disk, ips1: seq<Inode>, ow1: Owners,
                          d2: Disk, ips2: seq<Inode>, ow2: Owners, i: nat)
    requires Extends(sb, d, ips, ow, d1, ips1, ow1, i) && Extends(sb, d1, ips1, ow1, d2, ips2, ow2, i)
    ensures Extends(sb, d, ips, ow, d2, ips2, ow2, i)
  {
  }

  lemma AllocateExtends(sb: Superblock, d: Disk, ips: seq<Inode>, ow: Owners, i: nat, b: nat)
    requires Owned(sb, d, ips, ow) && i < |ips| && DataStart(sb) <= b < sb.size && b !in ow && !Used(sb, d, b)
    ensures Extends(sb, d, ips, ow, Allocated(sb, d, b), ips, ow, i)
  {
    assert sb.bmapstart <= BitmapBlock(sb, b) < DataStart(sb);
  }

  lemma LooseToOwned(sb: Superblock, d: Disk, ow: Owners, b: nat, by_: (nat, nat))
    requires ValidSb(sb) && |d| >= sb.size && MapExact(sb, d, ow, {b})
    ensures MapExact(sb, d, ow[b := by_], {})
  {
  }

  /** Allocate block b and put it in the empty slot s of inode i (s <= NDIRECT). */
  lemma GrowAddr(sb: Superblock, d: Disk, ips: seq<Inode>, ow: Owners, i: nat, s: nat, b: nat)
    requires Owned(sb, d, ips, ow) && MapExact(sb, d, ow, {}) && i < |ips| && s <= NDIRECT && ips[i].addrs[s] == 0
    requires b < sb.size && !Used(sb, d, b)
    ensures b >= DataStart(sb) && b != 0 && b !in ow
    ensures var d' := Allocated(sb, d, b);
      var ips' := ips[i := ips[i].(addrs := ips[i].addrs[s := b])];
      var ow' := ow[b := (i, s)];
      && Owned(sb, d', ips', ow') && MapExact(sb, d', ow', {}) && Extends(sb, d, ips, ow, d', ips', ow', i)
      && (forall t: nat :: Ptr(d', ips'[i], t) == if t == s then b else Ptr(d, ips[i], t))
  {
    AllocateKeeps(sb, d, ips, ow, {}, b);
    var d' := Allocated(sb, d, b);
    var ips' := ips[i := ips[i].(addrs := ips[i].addrs[s := b])];
    var ow' := ow[b := (i, s)];
    assert {} + {b} == {b};
    LooseToOwned(sb, d', ow, b, (i, s));
    AttachAddr(sb, d', ips, ow, i, s, b);
    AllocateExtends(sb, d, ips, ow, i, b);
    assert Extends(sb, d', ips, ow, d', ips', ow', i);
    ExtendsTransitive(sb, d, ips, ow, d', ips, ow, d', ips', ow', i);
  }

  /** An allocation never lands on the indirect block in use. */
  lemma IndirectUntouched(sb: Superblock, d: Disk, ips: seq<Inode>, ow: Owners, i: nat, b: nat)
    requires Owned(sb, d, ips, ow) && i < |ips| && 0 < ips[i].addrs[NDIRECT] < |d|
    requires DataStart(sb) <= b < sb.size && b !in ow && !Used(sb, d, b)
    ensures var ind := ips[i].addrs[NDIRECT];
      b != ind && ind in ow && ow[ind] == (i, NDIRECT) && Allocated(sb, d, b)[ind] == d[ind]
  {
    assert Ptr(d, ips[i], NDIRECT) == ips[i].addrs[NDIRECT];
  }

  /** Allocate block b and put it in the empty entry e of inode i's indirect block. */
  lemma GrowEntry(sb: Superblock, d: Disk, ips: seq<Inode>, ow: Owners, i: nat, e: nat, b: nat, data: Block)
    requires Owned(sb, d, ips, ow) && MapExact(sb, d, ow, {}) && i < |ips| && e < WORDS
    requires 0 < ips[i].addrs[NDIRECT] < |d| && Word(d[ips[i].addrs[NDIRECT]], e) == 0
    requires b < sb.size && !Used(sb, d, b) && StoresWord(d[ips[i].addrs[NDIRECT]], data, e, b)
    ensures b >= DataStart(sb) && b != 0 && b !in ow && b != ips[i].addrs[NDIRECT]
    ensures var ind := ips[i].addrs[NDIRECT];
      var d' := Allocated(sb, d, b)[ind := data];
      var ow' := ow[b := (i, 13 + e)];
      && Owned(sb, d', ips, ow') && MapExact(sb, d', ow', {})
      && (forall t: nat :: Ptr(d', ips[i], t) == if t == 13 + e then b else Ptr(d, ips[i], t))
  {
    AllocateKeeps(sb, d, ips, ow, {}, b);
    IndirectUntouched(sb, d, ips, ow, i, b);
    var d1 := Allocated(sb, d, b);
    AttachEntry(sb, d1, ips, ow, i, e, b, data);
    assert {} + {b} == {b};
    LooseToOwned(sb, d1, ow, b, (i, 13 + e));
  }

  lemma GrowEntryExtends(sb: Superblock, d: Disk, ips: seq<Inode>, ow: Owners, i: nat, b: nat, data: Block, s: nat)
    requires Owned(sb, d, ips, ow) && i < |ips| && 0 < ips[i].addrs[NDIRECT] < |d|
    requires DataStart(sb) <= b < sb.size && b !in ow && !Used(sb, d, b)
    requires Owned(sb, Allocated(sb, d, b), ips, ow)
    ensures Extends(sb, d, ips, ow, Allocated(sb, d, b)[ips[i].addrs[NDIRECT] := data], ips, ow[b := (i, s)], i)
  {
    var d1 := Allocated(sb, d, b);
    var ind := ips[i].addrs[NDIRECT];
    IndirectUntouched(sb, d, ips, ow, i, b);
    AllocateExtends(sb, d, ips, ow, i, b);
    EntryExtends(sb, d1, ips, ow, i, ind, data, b, s);
    ExtendsTransitive(sb, d, ips, ow, d1, ips, ow, d1[ind := data], ips, ow[b := (i, s)], i);
  }

  lemma EntryExtends(sb: Superblock, d: Disk, ips: seq<Inode>, ow: Owners, i: nat, ind: nat, data: Block, b: nat,
                     s: nat)
    requires Owned(sb, d, ips, ow) && i < |ips| && b !in ow && ind in ow && ow[ind] == (i, NDIRECT)
    ensures Extends(sb, d, ips, ow, d[ind := data], ips, ow[b := (i, s)], i)
  {
  }

  // ---- the state as a whole ----------------------------------------------

  /** The logical disk, the in-memory inodes, the owner of every block in use, and the
      blocks passed to log_write since begin_op. */
  datatype View = View(d: Disk, ips: seq<Inode>, ow: Owners, logged: set<nat>)

  datatype Verdict = Clean | Corrupt

  /** The file system check: every block is free or owned exactly once. */
  ghost function Fsck(sb: Superblock, v: View): Verdict {
    if Owned(sb, v.d, v.ips, v.ow) && MapExact(sb, v.d, v.ow, {}) then Clean else Corrupt
  }

  datatype Effect = Growth | Rewrite | Other

  /** Inode i may have gained blocks and its data may differ, but nothing else changed. */
  ghost predicate Rewrites(sb: Superblock, v: View, w: View, i: nat) {
    && |w.d| == |v.d| && |w.ips| == |v.ips| && i < |v.ips|
    && (forall j | 0 <= j < |v.ips| && j != i :: w.ips[j] == v.ips[j])
    && w.ips[i] == v.ips[i].(addrs := w.ips[i].addrs)
    && (forall b | b in v.ow :: b in w.ow && w.ow[b] == v.ow[b] && b < |v.d|)
    && (forall b | b in v.ow && v.ow[b].0 != i && b < |v.d| :: w.d[b] == v.d[b])
    && (forall b: nat | b < sb.bmapstart && b < |v.d| :: w.d[b] == v.d[b])
  }

  /** What happened to file i between v and w: it only gained blocks, its data may also have
      changed, or something else changed too. */
  ghost function Change(sb: Superblock, v: View, w: View, i: nat): Effect {
    if Extends(sb, v.d, v.ips, v.ow, w.d, w.ips, w.ow, i) then Growth
    else if Rewrites(sb, v, w, i) then Rewrite
    else Other
  }

  lemma GrowthTransitive(sb: Superblock, u: View, v: View, w: View, i: nat)
    requires Change(sb, u, v, i).Growth? && Change(sb, v, w, i).Growth?
    ensures Change(sb, u, w, i).Growth?
  {
    ExtendsTransitive(sb, u.d, u.ips, u.ow, v.d, v.ips, v.ow, w.d, w.ips, w.ow, i);
  }

  lemma LocalIsRewrite(sb: Superblock, v: View, w: View, i: nat)
    ensures !Change(sb, v, w, i).Other? <==> Rewrites(sb, v, w, i)
  {
  }

  lemma ChangeTransitive(sb: Superblock, u: View, v: View, w: View, i: nat)
    requires !Change(sb, u, v, i).Other? && !Change(sb, v, w, i).Other?
    ensures !Change(sb, u, w, i).Other?
  {
    LocalIsRewrite(sb, u, v, i);
    LocalIsRewrite(sb, v, w, i);
    assert Rewrites(sb, u, w, i);
  }

  /** balloc and the store of its result in addrs, as one step of the whole state. */
  lemma GrowAddrView(sb: Superblock, v: View, i: nat, s: nat, b: nat, logged: set<nat>)
    requires Fsck(sb, v).Clean? && i < |v.ips| && s <= NDIRECT && |v.ips[i].addrs| == 13 && v.ips[i].addrs[s] == 0
    requires b < sb.size && BitmapBlock(sb, b) < |v.d| && b < |v.d| && !Used(sb, v.d, b)
    ensures b != 0 && b !in v.ow
    ensures var w := View(Allocated(sb, v.d, b), v.ips[i := v.ips[i].(addrs := v.ips[i].addrs[s := b])],
                          v.ow[b := (i, s)], logged);
      && Fsck(sb, w).Clean? && Change(sb, v, w, i).Growth?
      && (forall t: nat :: Ptr(w.d, w.ips[i], t) == if t == s then b else Ptr(v.d, v.ips[i], t))
  {
    GrowAddr(sb, v.d, v.ips, v.ow, i, s, b);
  }

  lemma GrowEntryView(sb: Superblock, v: View, i: nat, e: nat, b: nat, data: Block, logged: set<nat>)
    requires Fsck(sb, v).Clean? && i < |v.ips| && e < WORDS && |v.ips[i].addrs| == 13
    requires 0 < v.ips[i].addrs[NDIRECT] < |v.d| && Word(v.d[v.ips[i].addrs[NDIRECT]], e) == 0
    requires b < sb.size && BitmapBlock(sb, b) < |v.d| && b < |v.d| && !Used(sb, v.d, b)
    requires StoresWord(v.d[v.ips[i].addrs[NDIRECT]], data, e, b)
    ensures b != 0 && b !in v.ow && b != v.ips[i].addrs[NDIRECT]
    ensures var ind := v.ips[i].addrs[NDIRECT];
      var w := View(Allocated(sb, v.d, b)[ind := data], v.ips, v.ow[b := (i, 13 + e)], logged);
      && Fsck(sb, w).Clean? && Change(sb, v, w, i).Growth?
      && (forall t: nat :: Ptr(w.d, w.ips[i], t) == if t == 13 + e then b else Ptr(v.d, v.ips[i], t))
  {
    var ind := v.ips[i].addrs[NDIRECT];
    GrowEntry(sb, v.d, v.ips, v.ow, i, e, b, data);
    AllocateKeeps(sb, v.d, v.ips, v.ow, {}, b);
    GrowEntryExtends(sb, v.d, v.ips, v.ow, i, b, data, 13 + e);
  }

  /** A pointer of a sound file system refers to an existing block owned through it. */
  lemma PointerOwned(sb: Superblock, v: View, i: nat, s: nat)
    requires Fsck(sb, v).Clean? && i < |v.ips| && Ptr(v.d, v.ips[i], s) != 0
    ensures var b := Ptr(v.d, v.ips[i], s);
      && b in v.ow && v.ow[b] == (i, s) && DataStart(sb) <= b < sb.size && b < |v.d|
  {
  }

  lemma Shape(sb: Superblock, v: View)
    requires Fsck(sb, v).Clean?
    ensures WellFormed(sb, v.d, v.ips)
  {
  }
}
