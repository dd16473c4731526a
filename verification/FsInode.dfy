/** Inodes on disk against inodes in memory, and what a whole writei does to a file system
    whose files are all in order. */
module FsInode {
  import opened Common
  import opened Blocks
  import opened FsLayout
  import opened FsOwnership
  import opened FsFile
  import opened FsWrite

  datatype Copy = Current | Stale

  /** Does the disk hold what memory says about inode j? */
  ghost function DiskCopy(sb: Superblock, d: Disk, ips: seq<Inode>, j: nat): Copy {
    if j < |ips| && InodeBlock(sb, j) < |d| && Loaded(sb, d, j) == ips[j]
    then Current else Stale
  }

  datatype Soundness = Sound | Unsound

  /** Between operations: the free map is exact, every file has all its bytes, and the inode
      cache is written through. */
  ghost function State(sb: Superblock, v: View): Soundness {
    if && Fsck(sb, v).Clean?
       && forall j: nat | j < |v.ips| :: DiskCopy(sb, v.d, v.ips, j).Current? && Mapped(v.d, v.ips[j])
    then Sound else Unsound
  }

  lemma StateFacts(sb: Superblock, v: View, j: nat)
    requires State(sb, v).Sound? && j < |v.ips|
    ensures Fsck(sb, v).Clean? && DiskCopy(sb, v.d, v.ips, j).Current? && Mapped(v.d, v.ips[j])
  {
  }

  /** The block of inode i with the fields of ip stored in it. */
  function UpdatedBlock(sb: Superblock, d: Disk, i: nat, ip: Inode): Block
    requires InodeBlock(sb, i) < |d| && |ip.addrs| == 13
  {
    SetWords(d[InodeBlock(sb, i)], (i % IPB) * 16, DinodeWords(ip))
  }

  /** iupdate makes inode i current and leaves the others as they were. */
  lemma UpdateCopies(sb: Superblock, d: Disk, ips: seq<Inode>, i: nat, j: nat)
    requires i < |ips| && |ips[i].addrs| == 13 && InodeBlock(sb, i) < |d|
    ensures var d' := d[InodeBlock(sb, i) := UpdatedBlock(sb, d, i, ips[i])];
      DiskCopy(sb, d', ips, j) == if j == i then Current else DiskCopy(sb, d, ips, j)
  {
    if InodeBlock(sb, j) < |d| { StoredLoaded(sb, d, i, ips[i], j); }
  }

  /** A file all of whose bytes are where they were is the same file. */
  lemma SameBytes(v: View, w: View, j: nat)
    requires j < |v.ips| && j < |w.ips| && w.ips[j].size == v.ips[j].size
    requires forall k: nat :: At(w, j, k) == At(v, j, k)
    ensures Content(w.d, w.ips[j]) == Content(v.d, v.ips[j])
    ensures Mapped(w.d, w.ips[j]) <==> Mapped(v.d, v.ips[j])
  {
    assert forall k: nat :: FileByte(w.d, w.ips[j], k) == At(w, j, k);
    assert forall k: nat :: FileByte(v.d, v.ips[j], k) == At(v, j, k);
  }

  /** No file but i changed, in its contents, its blocks or its inode. */
  ghost predicate OthersKept(v: View, w: View, i: nat) {
    && |w.ips| == |v.ips|
    && (forall j: nat | j < |v.ips| && j != i ::
          w.ips[j] == v.ips[j] && Content(w.d, w.ips[j]) == Content(v.d, v.ips[j]))
    && (forall j: nat, s: nat | j < |v.ips| && j != i :: Ptr(w.d, w.ips[j], s) == Ptr(v.d, v.ips[j], s))
  }

  datatype Outcome = Done | Undone

  /** writei(ip, src, off, n) turned v into w: the file is spliced, and all is in order again. */
  ghost function Wrote(sb: Superblock, v: View, w: View, i: nat, off: nat, src: seq<Byte>): Outcome {
    if && State(sb, w).Sound? && OthersKept(v, w, i) && i < |v.ips| && off <= v.ips[i].size
       && Content(w.d, w.ips[i]) == Splice(Content(v.d, v.ips[i]), off, src)
       && w.ips[i] == v.ips[i].(size := w.ips[i].size, addrs := w.ips[i].addrs)
    then Done else Undone
  }

  /** What was written can be read back, and every byte that was not written is what it was. */
  lemma ReadBack(sb: Superblock, v: View, w: View, i: nat, off: nat, src: seq<Byte>)
    requires Wrote(sb, v, w, i, off, src).Done?
    ensures var c, d := Content(v.d, v.ips[i]), Content(w.d, w.ips[i]);
            && off + |src| <= |d| && d[off..off + |src|] == src
            && |d| == (if |c| < off + |src| then off + |src| else |c|)
            && forall k | 0 <= k < |c| && !(off <= k < off + |src|) :: k < |d| && d[k] == c[k]
  {
    var c, d := Content(v.d, v.ips[i]), Content(w.d, w.ips[i]);
    forall k | 0 <= k < |d|
      ensures d[k] == if off <= k < off + |src| then src[k - off] else if k < |c| then c[k] else 0
    {
      SpliceByte(c, off, src, k);
    }
    assert d[off..off + |src|] == src;
  }

  /** What changes file i only keeps the disk copy of an inode that did not change. */
  lemma CopyKept(sb: Superblock, v: View, w: View, i: nat, j: nat)
    requires Fsck(sb, v).Clean? && !Change(sb, v, w, i).Other? && j < |v.ips|
    requires DiskCopy(sb, v.d, v.ips, j).Current?
    ensures j < |w.ips| && (w.ips[j] == v.ips[j] ==> DiskCopy(sb, w.d, w.ips, j).Current?)
  {
    LocalIsRewrite(sb, v, w, i);
    Shape(sb, v);
    assert InodeBlock(sb, j) < sb.bmapstart;
  }

  /** ... and the pointers of the other files. */
  lemma OtherPtrKept(sb: Superblock, v: View, w: View, i: nat, j: nat, s: nat)
    requires Fsck(sb, v).Clean? && !Change(sb, v, w, i).Other? && j < |v.ips| && j != i
    ensures j < |w.ips| && Ptr(w.d, w.ips[j], s) == Ptr(v.d, v.ips[j], s)
  {
    LocalIsRewrite(sb, v, w, i);
    if Ptr(v.d, v.ips[j], NDIRECT) != 0 { PointerOwned(sb, v, j, NDIRECT); }
  }

  /** writei inside the file: only bytes of file i change. */
  lemma InsideWrite(sb: Superblock, v: View, w: View, i: nat, off: nat, src: seq<Byte>)
    requires State(sb, v).Sound? && Progress(sb, v, w, i, off, src).Written? && i < |v.ips|
    requires w.ips == v.ips && off + |src| <= v.ips[i].size
    ensures Wrote(sb, v, w, i, off, src).Done?
  {
    hide Content, Ptr, DiskCopy, Mapped, Fsck, Change, Progress, Splice;
    ProgressGood(sb, v, w, i, off, src);
    StateFacts(sb, v, i);
    SplicedContent(sb, v, w, i, off, src, v.ips[i].size);
    assert w.ips[i].(size := v.ips[i].size) == w.ips[i];
    forall j: nat | j < |w.ips|
      ensures DiskCopy(sb, w.d, w.ips, j).Current? && Mapped(w.d, w.ips[j])
      ensures j != i ==> Content(w.d, w.ips[j]) == Content(v.d, v.ips[j])
    {
      StateFacts(sb, v, j);
      CopyKept(sb, v, w, i, j);
      if j != i { OtherContentKept(sb, v, w, i, j); }
    }
    forall j: nat, s: nat | j < |v.ips| && j != i
      ensures Ptr(w.d, w.ips[j], s) == Ptr(v.d, v.ips[j], s)
    {
      OtherPtrKept(sb, v, w, i, j, s);
    }
  }

  /** The state after inode i has got its new size and iupdate has stored it. */
  function Resized(sb: Superblock, w: View, i: nat, size: Uint): View
    requires i < |w.ips| && |w.ips[i].addrs| == 13 && InodeBlock(sb, i) < |w.d|
  {
    var r := Resize(w, i, size);
    Overwrite(r, InodeBlock(sb, i), UpdatedBlock(sb, w.d, i, r.ips[i]))
  }

  lemma ResizedGood(sb: Superblock, w: View, i: nat, size: Uint)
    requires Fsck(sb, w).Clean? && i < |w.ips|
    ensures |w.ips[i].addrs| == 13 && InodeBlock(sb, i) < |w.d|
    ensures Fsck(sb, Resized(sb, w, i, size)).Clean?
    ensures forall j: nat, k: nat :: At(Resized(sb, w, i, size), j, k) == At(w, j, k)
    ensures var x := Resized(sb, w, i, size);
      forall j: nat, s: nat | j < |w.ips| && j != i :: Ptr(x.d, x.ips[j], s) == Ptr(w.d, w.ips[j], s)
  {
    Shape(sb, w);
    ResizeGood(sb, w, i, size);
    InodeBlockBelow(sb, w, i);
    MetadataWrite(sb, w, InodeBlock(sb, i), UpdatedBlock(sb, w.d, i, Resize(w, i, size).ips[i]));
    InodeBlockWrite(sb, Resize(w, i, size), i, UpdatedBlock(sb, w.d, i, Resize(w, i, size).ips[i]));
  }

  lemma ResizedCopy(sb: Superblock, w: View, i: nat, size: Uint, j: nat)
    requires i < |w.ips| && |w.ips[i].addrs| == 13 && InodeBlock(sb, i) < |w.d|
    ensures var x := Resized(sb, w, i, size);
      DiskCopy(sb, x.d, x.ips, j) == if j == i then Current else DiskCopy(sb, w.d, w.ips, j)
  {
    var r := Resize(w, i, size);
    UpdateCopies(sb, r.d, r.ips, i, j);
  }

  /** Another file, through a growing write of file i. */
  lemma GrowingWriteOthers(sb: Superblock, v: View, w: View, i: nat, size: Uint, j: nat)
    requires State(sb, v).Sound? && Fsck(sb, w).Clean? && !Change(sb, v, w, i).Other? && i < |v.ips| && j < |v.ips|
    requires j != i
    requires |w.ips| == |v.ips| && |w.ips[i].addrs| == 13 && InodeBlock(sb, i) < |w.d|
    ensures var x := Resized(sb, w, i, size);
      && DiskCopy(sb, x.d, x.ips, j).Current? && x.ips[j] == v.ips[j]
      && Content(x.d, x.ips[j]) == Content(v.d, v.ips[j]) && Mapped(x.d, x.ips[j])
  {
    var x := Resized(sb, w, i, size);
    StateFacts(sb, v, j);
    CopyKept(sb, v, w, i, j);
    OtherContentKept(sb, v, w, i, j);
    ResizedCopy(sb, w, i, size, j);
    ResizedGood(sb, w, i, size);
    SameBytes(w, x, j);
  }

  /** writei past the end of the file. */
  lemma GrowingWrite(sb: Superblock, v: View, w: View, i: nat, off: nat, src: seq<Byte>, size: Uint)
    requires State(sb, v).Sound? && Progress(sb, v, w, i, off, src).Written? && i < |v.ips|
    requires off <= v.ips[i].size < off + |src| == size
    ensures i < |w.ips| && |w.ips[i].addrs| == 13 && InodeBlock(sb, i) < |w.d|
    ensures var x := Resized(sb, w, i, size);
      Wrote(sb, v, x, i, off, src).Done?
  {
    hide Content, Ptr, DiskCopy, Mapped, Fsck, Progress, Splice;
    ProgressGood(sb, v, w, i, off, src);
    StateFacts(sb, v, i);
    ResizedGood(sb, w, i, size);
    var x := Resized(sb, w, i, size);
    SplicedContent(sb, v, w, i, off, src, size);
    ResizeGood(sb, w, i, size);
    SameBytes(Resize(w, i, size), x, i);
    forall j: nat | j < |x.ips|
      ensures DiskCopy(sb, x.d, x.ips, j).Current? && Mapped(x.d, x.ips[j])
      ensures j != i ==> x.ips[j] == v.ips[j] && Content(x.d, x.ips[j]) == Content(v.d, v.ips[j])
    {
      ResizedCopy(sb, w, i, size, j);
      if j != i { GrowingWriteOthers(sb, v, w, i, size, j); }
    }
    forall j: nat, s: nat | j < |v.ips| && j != i
      ensures Ptr(x.d, x.ips[j], s) == Ptr(v.d, v.ips[j], s)
    {
      OtherPtrKept(sb, v, w, i, j, s);
    }
  }

  // ---- readi -------------------------------------------------------------

  /** The part of a block copied by one round of readi is that part of the file. */
  lemma ReadChunk(d: Disk, ip: Inode, b: nat, at: nat, m: nat, bn: nat, o: nat)
    requires 0 < b == Ptr(d, ip, Slot(bn)) < |d| && Place(at, bn, o) && o + m <= 512 && at + m <= ip.size
    ensures d[b][o..o + m] == Content(d, ip)[at..at + m]
  {
    forall x: nat | at <= x < at + m
      ensures FileByte(d, ip, x) == Some(d[b][x - at + o])
    {
      Placed(x, bn, x - at + o);
    }
  }

  lemma ReadMapped(d: Disk, ip: Inode, at: nat, bn: nat, o: nat)
    requires Mapped(d, ip) && at < ip.size && Place(at, bn, o)
    ensures 0 < Ptr(d, ip, Slot(bn)) < |d| && bn < MAXFILE
  {
    Placed(at, bn, o);
    assert FileByte(d, ip, at).Some?;
  }

  // ---- writes in sequence ------------------------------------------------

  lemma SpliceTwice(c: seq<Byte>, off: nat, a: seq<Byte>, b: seq<Byte>)
    requires off <= |c|
    ensures Splice(Splice(c, off, a), off + |a|, b) == Splice(c, off, a + b)
  {
  }

  /** Two writes one after the other are one write. */
  lemma WroteTwice(sb: Superblock, u: View, v: View, w: View, i: nat, off: nat, a: seq<Byte>, at: nat, b: seq<Byte>)
    requires Wrote(sb, u, v, i, off, a).Done? && Wrote(sb, v, w, i, at, b).Done? && at == off + |a|
    ensures Wrote(sb, u, w, i, off, a + b).Done?
  {
    SpliceTwice(Content(u.d, u.ips[i]), off, a, b);
  }
}
