/** itrunc: giving all blocks of a file back, one at a time. */
module FsTrunc {
  import opened Blocks
  import opened FsLayout
  import opened FsOwnership
  import opened FsFile
  import opened FsWrite
  import opened FsInode

  /** Block x belongs to one of the slots in dn of inode i. */
  ghost predicate OwnedBy(ow: Owners, i: nat, dn: set<nat>, x: nat) {
    x in ow && ow[x].0 == i && ow[x].1 in dn
  }

  datatype Freeing = Freed | Mistaken

  /** From v.d to d exactly the blocks in the slots dn of inode i were marked free, and no
      block outside the free map changed. */
  ghost function Cleared(sb: Superblock, v: View, d: Disk, i: nat, dn: set<nat>): Freeing {
    if && |d| == |v.d|
       && (forall x: nat | x < sb.size :: Used(sb, d, x) <==> Used(sb, v.d, x) && !OwnedBy(v.ow, i, dn, x))
       && (forall b: nat | b < |d| && (b < sb.bmapstart || b >= DataStart(sb)) :: d[b] == v.d[b])
    then Freed else Mistaken
  }

  lemma ClearedNone(sb: Superblock, v: View, i: nat)
    ensures Cleared(sb, v, v.d, i, {}).Freed?
  {
  }

  /** The disk after bfree of a block in use. */
  function Bfreed(sb: Superblock, d: Disk, b: nat): Disk
    requires BitmapBlock(sb, b) < |d| && Used(sb, d, b)
  {
    d[BitmapBlock(sb, b) := LowerBit(d[BitmapBlock(sb, b)], b % BPB)]
  }

  lemma BitLowered(sb: Superblock, d: Disk, b: nat, x: nat)
    requires ValidSb(sb) && |d| >= sb.size && b < sb.size && x < sb.size && Used(sb, d, b)
    ensures Used(sb, Bfreed(sb, d, b), x) == (x != b && Used(sb, d, x))
  {
    var m := BitmapBlock(sb, b);
    BitLower(d[m], b % BPB);
    assert BitmapBlock(sb, x) == m && x % BPB == b % BPB ==> x == b;
  }

  /** The block of a slot that is yet to be cleared is in use: bfree does not panic. */
  lemma StillUsed(sb: Superblock, v: View, d: Disk, i: nat, dn: set<nat>, s: nat, b: nat)
    requires Fsck(sb, v).Clean? && i < |v.ips| && Cleared(sb, v, d, i, dn).Freed?
    requires b == Ptr(v.d, v.ips[i], s) != 0 && s !in dn
    ensures b < sb.size && BitmapBlock(sb, b) < |d| && Used(sb, d, b)
    ensures v.ow.Keys >= {b} && v.ow[b] == (i, s) && sb.bmapstart <= BitmapBlock(sb, b) < DataStart(sb)
  {
    PointerOwned(sb, v, i, s);
    Shape(sb, v);
  }

  lemma ClearOne(sb: Superblock, v: View, d: Disk, i: nat, dn: set<nat>, s: nat, b: nat)
    requires Fsck(sb, v).Clean? && i < |v.ips| && Cleared(sb, v, d, i, dn).Freed?
    requires b == Ptr(v.d, v.ips[i], s) != 0 && s !in dn
    ensures b < sb.size && BitmapBlock(sb, b) < |d| && Used(sb, d, b)
    ensures Cleared(sb, v, Bfreed(sb, d, b), i, dn + {s}).Freed?
  {
    StillUsed(sb, v, d, i, dn, s, b);
    Shape(sb, v);
    var d' := Bfreed(sb, d, b);
    forall x: nat | x < sb.size
      ensures Used(sb, d', x) <==> Used(sb, v.d, x) && !OwnedBy(v.ow, i, dn + {s}, x)
    {
      BitLowered(sb, d, b, x);
      OwnerUnique(sb, v, i, s, b, x);
    }
  }

  lemma OwnerUnique(sb: Superblock, v: View, i: nat, s: nat, b: nat, x: nat)
    requires Fsck(sb, v).Clean? && i < |v.ips| && b == Ptr(v.d, v.ips[i], s)
    ensures x in v.ow && v.ow[x] == (i, s) ==> x == b && b != 0
  {
  }

  lemma ClearNone(sb: Superblock, v: View, d: Disk, i: nat, dn: set<nat>, s: nat)
    requires Fsck(sb, v).Clean? && i < |v.ips| && Cleared(sb, v, d, i, dn).Freed?
    requires Ptr(v.d, v.ips[i], s) == 0
    ensures Cleared(sb, v, d, i, dn + {s}).Freed?
  {
    forall x: nat | x < sb.size
      ensures OwnedBy(v.ow, i, dn + {s}, x) <==> OwnedBy(v.ow, i, dn, x)
    {
      OwnerUnique(sb, v, i, s, 0, x);
    }
  }

  /** The slots below n, but for the indirect block itself. */
  ghost function UpTo(dn: set<nat>, n: nat): Freeing {
    if forall s: nat :: s in dn <==> s < n && s != NDIRECT then Freed else Mistaken
  }

  lemma UpToDirect(dn: set<nat>)
    requires forall s: nat :: s in dn <==> s < NDIRECT
    ensures UpTo(dn, 13).Freed?
  {
  }

  lemma UpToMore(dn: set<nat>, n: nat, n': nat)
    requires UpTo(dn, n).Freed? && n != NDIRECT && n' == n + 1
    ensures UpTo(dn + {n}, n').Freed?
  {
  }

  /** Without an indirect block there is nothing in its slots. */
  lemma NoEntries(sb: Superblock, v: View, d: Disk, i: nat, was: set<nat>) returns (dn: set<nat>)
    requires Fsck(sb, v).Clean? && i < |v.ips| && Cleared(sb, v, d, i, was).Freed? && Ptr(v.d, v.ips[i], NDIRECT) == 0
    requires forall s: nat | s < NDIRECT :: s in was
    ensures Cleared(sb, v, d, i, dn).Freed? && forall s: nat | s < NSLOTS :: s in dn
  {
    Shape(sb, v);
    dn := was;
    var k := NDIRECT;
    while k < NSLOTS
      invariant k <= NSLOTS && Cleared(sb, v, d, i, dn).Freed? && forall s: nat | s < k :: s in dn
    {
      ClearNone(sb, v, d, i, dn, k);
      dn := dn + {k};
      k := k + 1;
    }
  }

  lemma OwnerSlot(sb: Superblock, v: View, i: nat, dn: set<nat>, x: nat)
    requires Fsck(sb, v).Clean? && (forall s: nat | s < NSLOTS :: s in dn)
    ensures OwnedBy(v.ow, i, dn, x) <==> x in v.ow && v.ow[x].0 == i
  {
  }

  /** addrs with the first k zeroed. */
  function ZeroTo(addrs: seq<Uint>, k: nat): (z: seq<Uint>)
    ensures |z| == |addrs| && forall s | 0 <= s < |z| :: z[s] == if s < k then 0 else addrs[s]
  {
    seq<Uint>(|addrs|, s requires 0 <= s < |addrs| => if s < k then 0 else addrs[s])
  }

  // ---- the truncated state -----------------------------------------------

  function ZeroAddrs(): (z: seq<Uint>)
    ensures |z| == 13 && forall s | 0 <= s < 13 :: z[s] == 0
  {
    [0, 0, 0, 0, 0, 0, 0, 0, 0, 0, 0, 0, 0]
  }

  ghost function Disowned(ow: Owners, i: nat): Owners {
    map x | x in ow && ow[x].0 != i :: ow[x]
  }

  /** v with inode i emptied over the disk d. */
  ghost function Emptied(v: View, d: Disk, i: nat, logged: set<nat>): View
    requires i < |v.ips|
  {
    View(d, v.ips[i := v.ips[i].(size := 0, addrs := ZeroAddrs())], Disowned(v.ow, i), logged)
  }

  lemma EmptiedPtr(sb: Superblock, v: View, d: Disk, i: nat, dn: set<nat>, logged: set<nat>, j: nat, s: nat)
    requires Fsck(sb, v).Clean? && i < |v.ips| && j < |v.ips| && Cleared(sb, v, d, i, dn).Freed?
    ensures var w := Emptied(v, d, i, logged);
      Ptr(w.d, w.ips[j], s) == if j == i then 0 else Ptr(v.d, v.ips[j], s)
  {
    if j != i && Ptr(v.d, v.ips[j], NDIRECT) != 0 { PointerOwned(sb, v, j, NDIRECT); }
  }

  lemma EmptiedOwned(sb: Superblock, v: View, d: Disk, i: nat, dn: set<nat>, logged: set<nat>)
    requires Fsck(sb, v).Clean? && i < |v.ips| && Cleared(sb, v, d, i, dn).Freed?
    ensures var w := Emptied(v, d, i, logged); Owned(sb, w.d, w.ips, w.ow)
  {
    Shape(sb, v);
    var w := Emptied(v, d, i, logged);
    forall j: nat, s: nat | j < |w.ips| && Ptr(w.d, w.ips[j], s) != 0
      ensures Ptr(w.d, w.ips[j], s) in w.ow && w.ow[Ptr(w.d, w.ips[j], s)] == (j, s)
    {
      EmptiedPtr(sb, v, d, i, dn, logged, j, s);
      PointerOwned(sb, v, j, s);
    }
    forall b | b in w.ow
      ensures DataStart(sb) <= b < sb.size && w.ow[b].0 < |w.ips| && Ptr(w.d, w.ips[w.ow[b].0], w.ow[b].1) == b
    {
      OwnerFacts(sb, v, b);
      EmptiedPtr(sb, v, d, i, dn, logged, v.ow[b].0, v.ow[b].1);
    }
  }

  lemma OwnerFacts(sb: Superblock, v: View, b: nat)
    requires Fsck(sb, v).Clean? && b in v.ow
    ensures DataStart(sb) <= b < sb.size && v.ow[b].0 < |v.ips| && Ptr(v.d, v.ips[v.ow[b].0], v.ow[b].1) == b
  {
  }

  lemma EmptiedMap(sb: Superblock, v: View, d: Disk, i: nat, dn: set<nat>)
    requires Fsck(sb, v).Clean? && i < |v.ips| && Cleared(sb, v, d, i, dn).Freed?
    requires (forall s: nat | s < NSLOTS :: s in dn)
    ensures MapExact(sb, d, Disowned(v.ow, i), {})
  {
    Shape(sb, v);
    var ow := Disowned(v.ow, i);
    forall x: nat | x < sb.size
      ensures Used(sb, d, x) <==> x < DataStart(sb) || x in ow || x in {}
    {
      OwnerSlot(sb, v, i, dn, x);
      if x in v.ow { OwnerFacts(sb, v, x); }
    }
  }

  lemma EmptiedGood(sb: Superblock, v: View, d: Disk, i: nat, dn: set<nat>, logged: set<nat>)
    requires Fsck(sb, v).Clean? && i < |v.ips| && Cleared(sb, v, d, i, dn).Freed?
    requires (forall s: nat | s < NSLOTS :: s in dn)
    ensures Fsck(sb, Emptied(v, d, i, logged)).Clean?
  {
    EmptiedOwned(sb, v, d, i, dn, logged);
    EmptiedMap(sb, v, d, i, dn);
  }

  lemma EmptiedByte(sb: Superblock, v: View, d: Disk, i: nat, dn: set<nat>, logged: set<nat>, j: nat, k: nat)
    requires Fsck(sb, v).Clean? && i < |v.ips| && j < |v.ips| && j != i && Cleared(sb, v, d, i, dn).Freed?
    ensures At(Emptied(v, d, i, logged), j, k) == At(v, j, k)
  {
    EmptiedPtr(sb, v, d, i, dn, logged, j, Slot(k / 512));
    if Ptr(v.d, v.ips[j], Slot(k / 512)) != 0 { PointerOwned(sb, v, j, Slot(k / 512)); }
  }

  // ---- the whole of itrunc -----------------------------------------------

  /** itrunc turned v into w: file i is empty and owns nothing, every block it owned is free
      again, and nothing else changed. */
  ghost function Truncated(sb: Superblock, v: View, w: View, i: nat): Outcome {
    if && State(sb, w).Sound? && OthersKept(v, w, i) && i < |v.ips|
       && w.ips[i] == v.ips[i].(size := 0, addrs := ZeroAddrs())
       && (forall x: nat | x < sb.size :: Used(sb, w.d, x) <==> Used(sb, v.d, x) && !(x in v.ow && v.ow[x].0 == i))
    then Done else Undone
  }

  /** Another file, through the freeing and the iupdate. */
  lemma TruncateOther(sb: Superblock, v: View, d: Disk, i: nat, dn: set<nat>, logged: set<nat>, j: nat)
    requires State(sb, v).Sound? && i < |v.ips| && j < |v.ips| && j != i && Cleared(sb, v, d, i, dn).Freed?
    requires Fsck(sb, Emptied(v, d, i, logged)).Clean?
    ensures var w := Emptied(v, d, i, logged);
      && DiskCopy(sb, w.d, w.ips, j).Current? && Mapped(w.d, w.ips[j])
      && Content(w.d, w.ips[j]) == Content(v.d, v.ips[j])
  {
    var w := Emptied(v, d, i, logged);
    StateFacts(sb, v, j);
    InodeBlockBelow(sb, v, j);
    forall k: nat ensures At(w, j, k) == At(v, j, k) { EmptiedByte(sb, v, d, i, dn, logged, j, k); }
    SameBytes(v, w, j);
  }

  /** iupdate after that: x is w with inode i current. */
  lemma TruncateUpdate(sb: Superblock, v: View, d: Disk, i: nat, dn: set<nat>, logged: set<nat>)
    requires State(sb, v).Sound? && i < |v.ips| && Cleared(sb, v, d, i, dn).Freed?
    requires (forall s: nat | s < NSLOTS :: s in dn)
    ensures InodeBlock(sb, i) < |d|
    ensures var w := Emptied(v, d, i, logged);
      Truncated(sb, v, Overwrite(w, InodeBlock(sb, i), UpdatedBlock(sb, d, i, w.ips[i])), i).Done?
  {
    var w := Emptied(v, d, i, logged);
    EmptiedGood(sb, v, d, i, dn, logged);
    InodeBlockBelow(sb, w, i);
    var ib := InodeBlock(sb, i);
    var data := UpdatedBlock(sb, d, i, w.ips[i]);
    var x := Overwrite(w, ib, data);
    InodeBlockWrite(sb, w, i, data);
    MetadataWrite(sb, w, ib, data);
    forall j: nat | j < |x.ips|
      ensures DiskCopy(sb, x.d, x.ips, j).Current? && Mapped(x.d, x.ips[j])
      ensures j != i ==> Content(x.d, x.ips[j]) == Content(v.d, v.ips[j])
    {
      UpdateCopies(sb, w.d, w.ips, i, j);
      SameBytes(w, x, j);
      if j != i { TruncateOther(sb, v, d, i, dn, logged, j); }
    }
    forall j: nat, s: nat | j < |v.ips| && j != i
      ensures Ptr(x.d, x.ips[j], s) == Ptr(v.d, v.ips[j], s)
    {
      EmptiedPtr(sb, v, d, i, dn, logged, j, s);
    }
    TruncateMap(sb, v, d, i, dn, ib, data);
  }

  lemma TruncateMap(sb: Superblock, v: View, d: Disk, i: nat, dn: set<nat>, ib: nat, data: Block)
    requires Fsck(sb, v).Clean? && Cleared(sb, v, d, i, dn).Freed? && ib < sb.bmapstart && ib < |d|
    requires (forall s: nat | s < NSLOTS :: s in dn)
    ensures forall x: nat | x < sb.size :: Used(sb, d[ib := data], x) <==>
      Used(sb, v.d, x) && !(x in v.ow && v.ow[x].0 == i)
  {
    Shape(sb, v);
    DataNotMap(sb, ib);
    MapKept(sb, d, ib, data);
    forall x: nat | x < sb.size
      ensures OwnedBy(v.ow, i, dn, x) <==> x in v.ow && v.ow[x].0 == i
    {
      OwnerSlot(sb, v, i, dn, x);
    }
  }

  /** A file that starts without blocks and is written in any way and then truncated leaves the
      free map as it was: not one block is lost or freed too much. */
  lemma WritesThenTruncate(sb: Superblock, v: View, w: View, x: View, i: nat, b: nat)
    requires State(sb, v).Sound? && i < |v.ips| && (forall s: nat :: Ptr(v.d, v.ips[i], s) == 0)
    requires State(sb, w).Sound? && OthersKept(v, w, i)
    requires Truncated(sb, w, x, i).Done? && b < sb.size
    ensures Used(sb, x.d, b) <==> Used(sb, v.d, b)
  {
    Shape(sb, v);
    Shape(sb, w);
    if b in v.ow {
      OwnerFacts(sb, v, b);
      PointerOwned(sb, w, v.ow[b].0, v.ow[b].1);
    }
    if b in w.ow {
      OwnerFacts(sb, w, b);
      if w.ow[b].0 != i { PointerOwned(sb, v, w.ow[b].0, w.ow[b].1); }
    }
    assert Used(sb, v.d, b) <==> b < DataStart(sb) || b in v.ow;
    assert Used(sb, w.d, b) <==> b < DataStart(sb) || b in w.ow;
  }
}
