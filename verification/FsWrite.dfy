/** writei's loop as a whole: what its rounds add up to, and how much they log. */
module FsWrite {
  import opened Common
  import opened Blocks
  import opened FsLayout
  import opened FsOwnership
  import opened FsMapping
  import opened FsFile

  datatype Stage = Written | Unwritten

  /** From v to w, src was stored at off in file i, every other byte of the file stayed, and
      nothing outside the file changed. */
  ghost function Progress(sb: Superblock, v: View, w: View, i: nat, off: nat, src: seq<Byte>): Stage {
    if && Fsck(sb, w).Clean? && !Change(sb, v, w, i).Other?
       && forall k: nat | Stored(src, off, k, At(v, i, k)).Some? :: At(w, i, k) == Stored(src, off, k, At(v, i, k))
    then Written else Unwritten
  }

  lemma ProgressNone(sb: Superblock, v: View, i: nat, off: nat)
    requires Fsck(sb, v).Clean? && i < |v.ips|
    ensures Progress(sb, v, v, i, off, []).Written?
  {
    NoChange(sb, v, i);
  }

  lemma ProgressGood(sb: Superblock, v: View, w: View, i: nat, off: nat, done: seq<Byte>)
    requires Progress(sb, v, w, i, off, done).Written?
    ensures Fsck(sb, w).Clean? && !Change(sb, v, w, i).Other? && |w.ips| == |v.ips| && i < |v.ips|
  {
    LocalIsRewrite(sb, v, w, i);
  }

  lemma ProgressByte(sb: Superblock, v: View, w: View, u: View, i: nat, b: nat, off: nat, done: seq<Byte>,
                     at: nat, bn: nat, o: nat, chunk: seq<Byte>, k: nat)
    requires at == off + |done| && Place(at, bn, o) && o + |chunk| <= 512
    requires Progress(sb, v, w, i, off, done).Written?
    requires !Mapping(sb, w, u, i, Slot(bn), b).Wrong?
    requires Stored(done + chunk, off, k, At(v, i, k)).Some?
    ensures b < |u.d| && At(Round(u, b, o, chunk), i, k) == Stored(done + chunk, off, k, At(v, i, k))
  {
    var x := At(v, i, k);
    var y := Stored(done, off, k, x);
    assert y.Some? ==> At(w, i, k) == y;
    StoredInTwo(done, chunk, off, k, x);
    assert Stored(chunk, at, k, At(w, i, k)) == Stored(chunk, at, k, y);
    RoundByte(sb, w, u, i, b, at, bn, o, chunk, k);
  }

  lemma ProgressStep(sb: Superblock, v: View, w: View, u: View, i: nat, b: nat, off: nat, done: seq<Byte>,
                     at: nat, bn: nat, o: nat, chunk: seq<Byte>)
    requires at == off + |done| && Place(at, bn, o) && o + |chunk| <= 512
    requires Progress(sb, v, w, i, off, done).Written?
    requires !Mapping(sb, w, u, i, Slot(bn), b).Wrong?
    ensures b < |u.d| && Progress(sb, v, Round(u, b, o, chunk), i, off, done + chunk).Written?
  {
    RoundGood(sb, w, u, i, b, bn, o, chunk);
    var x := Round(u, b, o, chunk);
    ChangeTransitive(sb, v, w, x, i);
    forall k: nat | Stored(done + chunk, off, k, At(v, i, k)).Some?
      ensures At(x, i, k) == Stored(done + chunk, off, k, At(v, i, k))
    {
      ProgressByte(sb, v, w, u, i, b, off, done, at, bn, o, chunk, k);
    }
  }

  // ---- how much is logged ------------------------------------------------

  /** A pointer once set is never changed by a write. */
  lemma PtrStays(sb: Superblock, v: View, w: View, i: nat, s: nat)
    requires Fsck(sb, v).Clean? && Fsck(sb, w).Clean? && !Change(sb, v, w, i).Other?
    requires i < |v.ips| && Ptr(v.d, v.ips[i], s) != 0
    ensures i < |w.ips| && Ptr(w.d, w.ips[i], s) == Ptr(v.d, v.ips[i], s)
  {
    LocalIsRewrite(sb, v, w, i);
    PointerOwned(sb, v, i, s);
  }

  /** The indirect block and, if it was allocated meanwhile, its bitmap block. */
  ghost function IndirectCost(sb: Superblock, ind: nat, ind': nat): (r: set<nat>)
    ensures |r| <= 2
  {
    if ind' == 0 then {}
    else if ind != 0 then {ind'}
    else
      var r := {ind', BitmapBlock(sb, ind')};
      assert |{ind'}| == 1;
      r
  }

  ghost function IndirectOf(v: View, i: nat): nat {
    if i < |v.ips| then Ptr(v.d, v.ips[i], NDIRECT) else 0
  }

  /** Everything logged between v and w: the data blocks, the bitmap blocks of the new ones,
      and what the indirect block costs. */
  ghost predicate LogBound(sb: Superblock, v: View, w: View, i: nat, data: set<nat>, maps: set<nat>) {
    w.logged <= v.logged + data + maps + IndirectCost(sb, IndirectOf(v, i), IndirectOf(w, i))
  }

  lemma RoundLogs(sb: Superblock, w: View, u: View, i: nat, b: nat, bn: nat, o: nat, chunk: seq<Byte>)
    requires Fsck(sb, w).Clean? && !Mapping(sb, w, u, i, Slot(bn), b).Wrong? && o + |chunk| <= 512
    ensures b < |u.d|
    ensures var x := Round(u, b, o, chunk);
      && (IndirectOf(w, i) != 0 ==> IndirectOf(x, i) == IndirectOf(w, i))
      && x.logged <= w.logged + {b} + (if Ptr(w.d, w.ips[i], Slot(bn)) == 0 then {BitmapBlock(sb, b)} else {})
                     + IndirectCost(sb, IndirectOf(w, i), IndirectOf(x, i))
  {
    MappingFacts(sb, w, u, i, Slot(bn), b);
    RoundGood(sb, w, u, i, b, bn, o, chunk);
    var x := Round(u, b, o, chunk);
    if IndirectOf(w, i) != 0 { PtrStays(sb, w, x, i, NDIRECT); }
    RoundKeepsIndirect(sb, u, i, b, o, chunk);
  }

  lemma RoundKeepsIndirect(sb: Superblock, u: View, i: nat, b: nat, o: nat, chunk: seq<Byte>)
    requires Fsck(sb, u).Clean? && i < |u.ips| && b < |u.d| && o + |chunk| <= 512
    ensures IndirectOf(Round(u, b, o, chunk), i) == IndirectOf(u, i)
  {
  }

  lemma LogStep(sb: Superblock, v: View, w: View, u: View, i: nat, b: nat, bn: nat, o: nat, chunk: seq<Byte>,
                data: set<nat>, maps: set<nat>)
    requires Fsck(sb, w).Clean? && !Mapping(sb, w, u, i, Slot(bn), b).Wrong? && o + |chunk| <= 512
    requires LogBound(sb, v, w, i, data, maps)
    requires IndirectOf(v, i) != 0 ==> IndirectOf(w, i) == IndirectOf(v, i)
    ensures b < |u.d|
    ensures IndirectOf(v, i) != 0 ==> IndirectOf(Round(u, b, o, chunk), i) == IndirectOf(v, i)
    ensures LogBound(sb, v, Round(u, b, o, chunk), i, data + {b}, MapsAfter(sb, w, i, bn, b, maps))
  {
    RoundLogs(sb, w, u, i, b, bn, o, chunk);
    CostGrows(sb, IndirectOf(v, i), IndirectOf(w, i), IndirectOf(Round(u, b, o, chunk), i));
  }

  lemma CostGrows(sb: Superblock, a: nat, b: nat, c: nat)
    requires (a != 0 ==> b == a) && (b != 0 ==> c == b)
    ensures IndirectCost(sb, a, b) <= IndirectCost(sb, a, c) && IndirectCost(sb, b, c) <= IndirectCost(sb, a, c)
  {
  }

  ghost function MapsAfter(sb: Superblock, w: View, i: nat, bn: nat, b: nat, maps: set<nat>): set<nat> {
    if i < |w.ips| && Ptr(w.d, w.ips[i], Slot(bn)) == 0 then maps + {BitmapBlock(sb, b)} else maps
  }

  /** How many rounds of writei's loop are left with left bytes to go from at on. */
  ghost function Rounds(at: nat, left: nat): nat
    decreases left
  {
    if left == 0 then 0 else 1 + Rounds(at + Span(at, left), left - Span(at, left))
  }

  /** Three blocks' worth touch at most four blocks, and three if they start on a boundary. */
  lemma FewRounds(at: nat, left: nat)
    requires left <= 1536
    ensures Rounds(at, left) <= 4 && (at % 512 == 0 ==> Rounds(at, left) <= 3)
  {
    RoundsAfter(at, left, 3);
  }

  lemma SpanEnds(at: nat, left: nat, m: nat, at': nat)
    requires left > 0 && m == Span(at, left) && at' == at + m
    ensures m < left ==> at' % 512 == 0
    ensures m < left && at % 512 == 0 ==> m == 512
  {
  }

  lemma {:induction false} RoundsAfter(at: nat, left: nat, n: nat)
    requires left <= 512 * n
    ensures Rounds(at, left) <= n + 1 && (at % 512 == 0 ==> Rounds(at, left) <= n)
    decreases left
  {
    if left > 0 {
      var m := Span(at, left);
      var at', left' := at + m, left - m;
      SpanEnds(at, left, m, at');
      assert Rounds(at, left) == 1 + Rounds(at', left');
      if left' > 0 { RoundsAfter(at', left', if at % 512 == 0 then n - 1 else n); }
    }
  }

  datatype Sum = Balanced | Overdrawn

  /** After rounds rounds with left to come: each logged at most one data block, and at most
      one bitmap block, of which none for the first if its block was there. */
  ghost function Tally(first: bool, data: nat, maps: nat, rounds: nat, left: nat, total: nat): Sum {
    if data <= rounds && maps + (if rounds > 0 && first then 1 else 0) <= rounds && rounds + left == total
    then Balanced else Overdrawn
  }

  /** A chunk of at most three blocks' worth logs at most nine blocks, whatever it allocates
      and wherever it starts. */
  lemma ChunkTotal(sb: Superblock, v: View, w: View, i: nat, off: nat, len: nat, first: bool, data: set<nat>,
                   maps: set<nat>, rounds: nat)
    requires LogBound(sb, v, w, i, data, maps) && len <= 1536
    requires Tally(first, |data|, |maps|, rounds, 0, Rounds(off, len)).Balanced? && (off % 512 != 0 ==> first)
    ensures |w.logged| <= |v.logged| + 9
  {
    var cost := IndirectCost(sb, IndirectOf(v, i), IndirectOf(w, i));
    SubsetSize(w.logged, v.logged + data + maps + cost);
    UnionSize(v.logged, data);
    UnionSize(v.logged + data, maps);
    UnionSize(v.logged + data + maps, cost);
    FewRounds(off, len);
  }

  lemma UnionSize(a: set<nat>, b: set<nat>)
    ensures |a + b| <= |a| + |b|
  {
    assert a + b == a + (b - a);
    assert |b - a| <= |b| by { SubsetSize(b - a, b); }
  }

  // ---- the file's contents -----------------------------------------------

  /** c with src in place of what was at off, longer if src runs past the end. */
  function Splice(c: seq<Byte>, off: nat, src: seq<Byte>): (r: seq<Byte>)
    requires off <= |c|
    ensures |r| == if |c| < off + |src| then off + |src| else |c|
  {
    c[..off] + src + if off + |src| < |c| then c[off + |src|..] else []
  }

  lemma SpliceByte(c: seq<Byte>, off: nat, src: seq<Byte>, k: nat)
    requires off <= |c| && k < |Splice(c, off, src)|
    ensures Splice(c, off, src)[k] == if off <= k < off + |src| then src[k - off] else if k < |c| then c[k] else 0
    ensures !(off <= k < off + |src|) ==> k < |c|
  {
  }

  /** Growing the size field alone changes no byte. */
  lemma SizeIrrelevant(d: Disk, ip: Inode, size: Uint, k: nat)
    ensures FileByte(d, ip.(size := size), k) == FileByte(d, ip, k)
  {
  }

  lemma SplicedByte(sb: Superblock, v: View, w: View, i: nat, off: nat, src: seq<Byte>, k: nat)
    requires Progress(sb, v, w, i, off, src).Written? && i < |v.ips| && Mapped(v.d, v.ips[i])
    requires off <= v.ips[i].size && k < |Splice(Content(v.d, v.ips[i]), off, src)|
    ensures At(w, i, k) == Some(Splice(Content(v.d, v.ips[i]), off, src)[k])
  {
    hide Splice;
    var c := Content(v.d, v.ips[i]);
    SpliceByte(c, off, src, k);
    assert k < |c| ==> At(v, i, k).Some? && c[k] == At(v, i, k).value;
  }

  /** What writei's loop and the new size make of the file: exactly the splice. */
  lemma SplicedContent(sb: Superblock, v: View, w: View, i: nat, off: nat, src: seq<Byte>, size: Uint)
    requires Progress(sb, v, w, i, off, src).Written? && i < |v.ips| && i < |w.ips| && Mapped(v.d, v.ips[i])
    requires off <= v.ips[i].size && size == |Splice(Content(v.d, v.ips[i]), off, src)|
    ensures Content(w.d, w.ips[i].(size := size)) == Splice(Content(v.d, v.ips[i]), off, src)
    ensures Mapped(w.d, w.ips[i].(size := size))
  {
    forall k: nat | k < size
      ensures FileByte(w.d, w.ips[i].(size := size), k) == Some(Splice(Content(v.d, v.ips[i]), off, src)[k])
    {
      SizeIrrelevant(w.d, w.ips[i], size, k);
      SplicedByte(sb, v, w, i, off, src, k);
    }
  }

  /** Other files' contents are untouched. */
  lemma OtherContentKept(sb: Superblock, v: View, w: View, i: nat, j: nat)
    requires Fsck(sb, v).Clean? && Fsck(sb, w).Clean? && !Change(sb, v, w, i).Other? && j != i && j < |v.ips|
    ensures j < |w.ips| && w.ips[j] == v.ips[j] && Content(w.d, w.ips[j]) == Content(v.d, v.ips[j])
    ensures Mapped(v.d, v.ips[j]) ==> Mapped(w.d, w.ips[j])
  {
    LocalIsRewrite(sb, v, w, i);
    forall k: nat
      ensures At(w, j, k) == At(v, j, k)
    {
      OtherFileKept(sb, v, w, i, j, k);
    }
    assert forall k: nat :: FileByte(w.d, w.ips[j], k) == At(w, j, k);
    assert forall k: nat :: FileByte(v.d, v.ips[j], k) == At(v, j, k);
  }

  // ---- iupdate -----------------------------------------------------------

  /** A write below the free map keeps the free map and all pointers. */
  lemma MetadataWrite(sb: Superblock, v: View, b: nat, data: Block)
    requires Fsck(sb, v).Clean? && b < sb.bmapstart
    ensures b < |v.d| && b !in v.ow && Fsck(sb, Overwrite(v, b, data)).Clean?
    ensures forall j: nat, s: nat | j < |v.ips| :: Ptr(v.d[b := data], v.ips[j], s) == Ptr(v.d, v.ips[j], s)
  {
    Shape(sb, v);
    WriteElsewhere(sb, v.d, v.ips, v.ow, b, data);
    DataNotMap(sb, b);
    MapExactElsewhere(sb, v.d, v.ow, b, data);
  }

  lemma InodeBlockBelow(sb: Superblock, v: View, i: nat)
    requires Fsck(sb, v).Clean? && i < |v.ips|
    ensures InodeBlock(sb, i) < sb.bmapstart < |v.d|
  {
    Shape(sb, v);
  }

  /** A write to an inode block disturbs no file. */
  lemma InodeBlockWrite(sb: Superblock, v: View, i: nat, data: Block)
    requires Fsck(sb, v).Clean? && i < |v.ips|
    ensures InodeBlock(sb, i) < |v.d| && Fsck(sb, Overwrite(v, InodeBlock(sb, i), data)).Clean?
    ensures forall j: nat, k: nat :: At(Overwrite(v, InodeBlock(sb, i), data), j, k) == At(v, j, k)
  {
    var b := InodeBlock(sb, i);
    InodeBlockBelow(sb, v, i);
    MetadataWrite(sb, v, b, data);
    var w := Overwrite(v, b, data);
    forall j: nat, k: nat
      ensures At(w, j, k) == At(v, j, k)
    {
      if j < |v.ips| { ByteElsewhere(sb, v, b, data, j, Slot(k / 512), k); }
    }
  }

  lemma ByteElsewhere(sb: Superblock, v: View, b: nat, data: Block, j: nat, s: nat, k: nat)
    requires Fsck(sb, v).Clean? && j < |v.ips| && b < |v.d| && b !in v.ow && s == Slot(k / 512)
    requires Ptr(v.d[b := data], v.ips[j], s) == Ptr(v.d, v.ips[j], s)
    ensures FileByte(v.d[b := data], v.ips[j], k) == FileByte(v.d, v.ips[j], k)
  {
    if Ptr(v.d, v.ips[j], s) != 0 { PointerOwned(sb, v, j, s); }
  }

  function Resize(v: View, i: nat, size: Uint): View
    requires i < |v.ips|
  {
    v.(ips := v.ips[i := v.ips[i].(size := size)])
  }

  lemma ResizeGood(sb: Superblock, v: View, i: nat, size: Uint)
    requires Fsck(sb, v).Clean? && i < |v.ips|
    ensures Fsck(sb, Resize(v, i, size)).Clean?
    ensures forall j: nat, k: nat :: At(Resize(v, i, size), j, k) == At(v, j, k)
  {
    var w := Resize(v, i, size);
    assert forall j: nat, s: nat | j < |v.ips| :: Ptr(w.d, w.ips[j], s) == Ptr(v.d, v.ips[j], s);
    assert PointersOwned(w.d, w.ips, w.ow) && OwnersPoint(sb, w.d, w.ips, w.ow);
  }

  // ---- when nothing is allocated -----------------------------------------

  /** A block that holds a byte below the file's size is still mapped. */
  lemma StillMapped(sb: Superblock, v: View, w: View, i: nat, off: nat, done: seq<Byte>, k: nat, bn: nat)
    requires Progress(sb, v, w, i, off, done).Written? && i < |v.ips| && Mapped(v.d, v.ips[i])
    requires k < v.ips[i].size && k / 512 == bn
    ensures i < |w.ips| && Ptr(w.d, w.ips[i], Slot(bn)) != 0
  {
    assert At(v, i, k).Some?;
    assert Stored(done, off, k, At(v, i, k)).Some?;
    assert At(w, i, k).Some?;
  }

  // ---- the loop as a whole -----------------------------------------------

  /** Is the bn-th block of file i there? */
  ghost function Present(v: View, i: nat, bn: nat): bool {
    i < |v.ips| && Ptr(v.d, v.ips[i], Slot(bn)) != 0
  }

  /** A write that starts inside a block starts in one the file has. */
  lemma FirstPresent(v: View, i: nat, off: nat, bn: nat, o: nat)
    requires i < |v.ips| && Mapped(v.d, v.ips[i]) && off <= v.ips[i].size && Place(off, bn, o) && o > 0
    ensures Present(v, i, bn)
  {
    assert FileByte(v.d, v.ips[i], off - 1).Some?;
    Placed(off - 1, bn, o - 1);
  }

  datatype LoopState = Running | Astray

  /** writei has stored done at off, logging only what data and maps and the indirect block
      account for, and has not touched the inode if the write of len bytes lies inside the file. */
  ghost function Loop(sb: Superblock, v: View, w: View, i: nat, off: nat, done: seq<Byte>, len: nat,
                      data: set<nat>, maps: set<nat>): LoopState
  {
    if && Progress(sb, v, w, i, off, done).Written?
       && LogBound(sb, v, w, i, data, maps)
       && (IndirectOf(v, i) != 0 ==> IndirectOf(w, i) == IndirectOf(v, i))
       && i < |v.ips| && (off + len <= v.ips[i].size ==> w.ips == v.ips)
    then Running else Astray
  }

  lemma LoopStart(sb: Superblock, v: View, i: nat, off: nat, len: nat)
    requires Fsck(sb, v).Clean? && i < |v.ips|
    ensures Loop(sb, v, v, i, off, [], len, {}, {}).Running?
  {
    ProgressNone(sb, v, i, off);
  }

  lemma LoopValid(sb: Superblock, v: View, w: View, i: nat, off: nat, done: seq<Byte>, len: nat, data: set<nat>,
                  maps: set<nat>)
    requires Loop(sb, v, w, i, off, done, len, data, maps).Running?
    ensures Fsck(sb, w).Clean? && i < |w.ips| == |v.ips|
  {
    ProgressGood(sb, v, w, i, off, done);
  }

  /** The inode is untouched by a round inside the file. */
  lemma LoopKeepsInode(sb: Superblock, v: View, w: View, u: View, i: nat, b: nat, off: nat, done: seq<Byte>,
                       at: nat, bn: nat, o: nat, chunk: seq<Byte>)
    requires Progress(sb, v, w, i, off, done).Written? && i < |v.ips| && Mapped(v.d, v.ips[i])
    requires at < v.ips[i].size && w.ips == v.ips && Place(at, bn, o) && o + |chunk| <= 512
    requires !Mapping(sb, w, u, i, Slot(bn), b).Wrong?
    ensures b < |u.d| && Round(u, b, o, chunk).ips == v.ips
  {
    ProgressGood(sb, v, w, i, off, done);
    Placed(at, bn, o);
    StillMapped(sb, v, w, i, off, done, at, bn);
    MappingFacts(sb, w, u, i, Slot(bn), b);
  }

  /** Each round keeps the loop's invariant. */
  lemma LoopStep(sb: Superblock, v: View, w: View, u: View, i: nat, b: nat, off: nat, done: seq<Byte>, len: nat,
                 at: nat, bn: nat, o: nat, chunk: seq<Byte>, data: set<nat>, maps: set<nat>)
    requires Loop(sb, v, w, i, off, done, len, data, maps).Running?
    requires i < |v.ips| && Mapped(v.d, v.ips[i]) && !Mapping(sb, w, u, i, Slot(bn), b).Wrong?
    requires at == off + |done| && |done| < len && Place(at, bn, o) && o + |chunk| <= 512
    ensures b < |u.d|
    ensures Loop(sb, v, Round(u, b, o, chunk), i, off, done + chunk, len, data + {b},
      MapsAfter(sb, w, i, bn, b, maps)).Running?
  {
    ProgressGood(sb, v, w, i, off, done);
    ProgressStep(sb, v, w, u, i, b, off, done, at, bn, o, chunk);
    LogStep(sb, v, w, u, i, b, bn, o, chunk, data, maps);
    if off + len <= v.ips[i].size { LoopKeepsInode(sb, v, w, u, i, b, off, done, at, bn, o, chunk); }
  }

  /** How the sets a round adds to grow. */
  lemma LoopCosts(sb: Superblock, v: View, w: View, i: nat, b: nat, off: nat, done: seq<Byte>, bn0: nat, bn: nat,
                  data: set<nat>, maps: set<nat>)
    requires Fsck(sb, v).Clean? && Progress(sb, v, w, i, off, done).Written? && (|done| == 0 ==> bn == bn0)
    ensures |data + {b}| <= |data| + 1
    ensures |MapsAfter(sb, w, i, bn, b, maps)| <= |maps| + (if |done| == 0 && Present(v, i, bn0) then 0 else 1)
  {
    UnionSize(data, {b});
    UnionSize(maps, {BitmapBlock(sb, b)});
    if |done| == 0 && Present(v, i, bn0) { PtrStays(sb, v, w, i, Slot(bn)); }
  }

  lemma TallyStep(first: bool, data: nat, maps: nat, rounds: nat, left: nat, total: nat, rounds': nat, data': nat,
                  maps': nat, left': nat)
    requires Tally(first, data, maps, rounds, left, total).Balanced? && left == 1 + left' && rounds' == rounds + 1
    requires data' <= data + 1 && maps' <= maps + (if rounds == 0 && first then 0 else 1)
    ensures Tally(first, data', maps', rounds', left', total).Balanced?
  {
  }

  /** How the tally moves with a round. */
  lemma LoopTally(sb: Superblock, v: View, w: View, i: nat, b: nat, off: nat, done: seq<Byte>, bn0: nat, bn: nat,
                  first: bool,
                  data: set<nat>, maps: set<nat>, rounds: nat, left: nat, total: nat, rounds': nat, left': nat)
    requires Fsck(sb, v).Clean? && Progress(sb, v, w, i, off, done).Written? && (|done| == 0 ==> bn == bn0)
    requires Tally(first, |data|, |maps|, rounds, left, total).Balanced? && left == 1 + left' && rounds' == rounds + 1
    requires (rounds == 0 <==> |done| == 0) && first == Present(v, i, bn0)
    ensures Tally(first, |data + {b}|, |MapsAfter(sb, w, i, bn, b, maps)|, rounds', left', total).Balanced?
  {
    LoopCosts(sb, v, w, i, b, off, done, bn0, bn, data, maps);
    TallyStep(first, |data|, |maps|, rounds, left, total, rounds', |data + {b}|, |MapsAfter(sb, w, i, bn, b, maps)|,
      left');
  }

  lemma PrefixGrows(src: seq<Byte>, done: seq<Byte>, tot: nat, m: nat, chunk: seq<Byte>)
    requires done <= src && tot == |done| && tot + m <= |src| && chunk == src[tot..tot + m]
    ensures done + chunk <= src && |done + chunk| == tot + m && |chunk| == m
  {
  }

  // ---- the loop with its counters ----------------------------------------

  /** How far a running writei is, for the proof: the bytes stored, the rounds gone, left and
      in all, and the block it started in. */
  datatype Clock = Clock(done: seq<Byte>, rounds: nat, left: nat, total: nat, bn0: nat)

  datatype Meter = Exact | Off

  ghost function Counters(src: seq<Byte>, off: nat, at: nat, tot: nat, c: Clock): Meter {
    if && tot == |c.done| && c.done <= src && at == off + tot && (c.rounds == 0 <==> tot == 0)
       && c.left == Rounds(at, |src| - tot) && c.total == Rounds(off, |src|) && c.bn0 == off / 512
    then Exact else Off
  }

  lemma CountersStart(src: seq<Byte>, off: nat) returns (c: Clock)
    ensures c.done == [] && c.rounds == 0 && c.left == c.total
    ensures Counters(src, off, off, 0, c).Exact?
  {
    c := Clock([], 0, Rounds(off, |src|), Rounds(off, |src|), off / 512);
  }

  /** c' is one round of chunk later than c. */
  ghost predicate Ticks(c: Clock, chunk: seq<Byte>, c': Clock) {
    c'.done == c.done + chunk && c'.rounds == c.rounds + 1 && c.left == 1 + c'.left && c'.total == c.total
      && c'.bn0 == c.bn0
  }

  /** One round further. */
  lemma CountersStep(src: seq<Byte>, off: nat, at: nat, tot: nat, c: Clock, m: nat, chunk: seq<Byte>, bn: nat, at': nat,
                     tot': nat)
    returns (c': Clock)
    requires Counters(src, off, at, tot, c).Exact? && tot < |src| && m == Span(at, |src| - tot)
    requires chunk == src[tot..tot + m]
    requires at' == at + m && tot' == tot + m && bn == at / 512
    ensures Counters(src, off, at', tot', c').Exact? && Ticks(c, chunk, c') && |chunk| == m
    ensures at == off + |c.done| && |c.done| < |src| && (c.rounds == 0 <==> |c.done| == 0)
    ensures (|c.done| == 0 ==> bn == c.bn0)
  {
    PrefixGrows(src, c.done, tot, m, chunk);
    c' := Clock(c.done + chunk, c.rounds + 1, Rounds(at', |src| - tot'), c.total, c.bn0);
  }

  lemma CountersEnd(src: seq<Byte>, off: nat, at: nat, tot: nat, c: Clock)
    requires Counters(src, off, at, tot, c).Exact? && tot >= |src|
    ensures c.done == src && c.left == 0 && c.total == Rounds(off, |src|) && c.bn0 == off / 512
  {
  }

  /** The whole invariant of writei's loop, but for the counters. */
  ghost function Going(sb: Superblock, v: View, w: View, i: nat, off: nat, len: nat, c: Clock, data: set<nat>,
                       maps: set<nat>): LoopState {
    if && Fsck(sb, v).Clean? && i < |v.ips| && Mapped(v.d, v.ips[i]) && off <= v.ips[i].size
       && Loop(sb, v, w, i, off, c.done, len, data, maps).Running?
       && Tally(Present(v, i, c.bn0), |data|, |maps|, c.rounds, c.left, c.total).Balanced?
    then Running else Astray
  }

  lemma GoingStart(sb: Superblock, v: View, i: nat, off: nat, len: nat, c: Clock)
    requires Fsck(sb, v).Clean? && i < |v.ips| && Mapped(v.d, v.ips[i]) && off <= v.ips[i].size
    requires c.done == [] && c.rounds == 0 && c.left == c.total
    ensures Going(sb, v, v, i, off, len, c, {}, {}).Running?
  {
    LoopStart(sb, v, i, off, len);
  }

  lemma GoingFacts(sb: Superblock, v: View, w: View, i: nat, off: nat, len: nat, c: Clock, data: set<nat>,
                   maps: set<nat>)
    requires Going(sb, v, w, i, off, len, c, data, maps).Running?
    ensures Fsck(sb, v).Clean? && i < |v.ips| && Mapped(v.d, v.ips[i]) && off <= v.ips[i].size
    ensures Loop(sb, v, w, i, off, c.done, len, data, maps).Running? && Progress(sb, v, w, i, off, c.done).Written?
    ensures Tally(Present(v, i, c.bn0), |data|, |maps|, c.rounds, c.left, c.total).Balanced?
    ensures Fsck(sb, w).Clean? && i < |w.ips|
  {
    LoopValid(sb, v, w, i, off, c.done, len, data, maps);
  }

  lemma GoingHolds(sb: Superblock, v: View, w: View, i: nat, off: nat, len: nat, c: Clock, data: set<nat>,
                   maps: set<nat>)
    requires Fsck(sb, v).Clean? && i < |v.ips| && Mapped(v.d, v.ips[i]) && off <= v.ips[i].size
    requires Loop(sb, v, w, i, off, c.done, len, data, maps).Running?
    requires Tally(Present(v, i, c.bn0), |data|, |maps|, c.rounds, c.left, c.total).Balanced?
    ensures Going(sb, v, w, i, off, len, c, data, maps).Running?
  {
  }

  /** Each round keeps the whole invariant. */
  lemma GoingStep(sb: Superblock, v: View, w: View, u: View, i: nat, b: nat, off: nat, len: nat, c: Clock,
                  data: set<nat>, maps: set<nat>,
                  at: nat, bn: nat, o: nat, chunk: seq<Byte>, c': Clock)
    requires Going(sb, v, w, i, off, len, c, data, maps).Running? && Ticks(c, chunk, c')
    requires at == off + |c.done| && |c.done| < len && (c.rounds == 0 <==> |c.done| == 0)
    requires (|c.done| == 0 ==> bn == c.bn0)
    requires !Mapping(sb, w, u, i, Slot(bn), b).Wrong? && Place(at, bn, o) && o + |chunk| <= 512
    ensures b < |u.d|
    ensures Going(sb, v, Round(u, b, o, chunk), i, off, len, c', data + {b}, MapsAfter(sb, w, i, bn, b, maps)).Running?
  {
    GoingFacts(sb, v, w, i, off, len, c, data, maps);
    LoopStep(sb, v, w, u, i, b, off, c.done, len, at, bn, o, chunk, data, maps);
    LoopTally(sb, v, w, i, b, off, c.done, c.bn0, bn, Present(v, i, c.bn0), data, maps, c.rounds, c.left, c.total,
      c'.rounds, c'.left);
    GoingHolds(sb, v, Round(u, b, o, chunk), i, off, len, c', data + {b}, MapsAfter(sb, w, i, bn, b, maps));
  }

  lemma GoingEnd(sb: Superblock, v: View, w: View, i: nat, off: nat, src: seq<Byte>, c: Clock, data: set<nat>,
                 maps: set<nat>)
    requires Going(sb, v, w, i, off, |src|, c, data, maps).Running?
    requires c.done == src && c.left == 0 && c.total == Rounds(off, |src|) && c.bn0 == off / 512
    ensures Progress(sb, v, w, i, off, src).Written?
    ensures i < |v.ips| && (off + |src| <= v.ips[i].size ==> w.ips == v.ips)
    ensures |src| <= 1536 ==> |w.logged| <= |v.logged| + 9
  {
    if off % 512 != 0 { FirstPresent(v, i, off, off / 512, off % 512); }
    if |src| <= 1536 { ChunkTotal(sb, v, w, i, off, |src|, Present(v, i, c.bn0), data, maps, c.rounds); }
  }
}
