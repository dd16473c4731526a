/** The bytes of a file under the two things writei does to it: gaining blocks, and
    overwriting part of a block it has. */
module FsFile {
  import opened Common
  import opened Blocks
  import opened FsLayout
  import opened FsOwnership
  import opened FsMapping

  const MAXBYTES: nat := 71680   // MAXFILE*BSIZE

  /** A block with chunk copied into it from byte at on. */
  function PutBytes(data: Block, at: nat, chunk: seq<Byte>): (r: Block)
    requires at + |chunk| <= 512
    ensures forall k | 0 <= k < 512 :: r[k] == if at <= k < at + |chunk| then chunk[k - at] else data[k]
  {
    data[..at] + chunk + data[at + |chunk|..]
  }

  /** How much of a block-by-block copy fits in the block at off (fs.c:471, 500). */
  function Span(off: nat, left: nat): (m: nat)
    requires left > 0
    ensures 0 < m <= left && off % 512 + m <= 512
  {
    if left < 512 - off % 512 then left else 512 - off % 512
  }

  function At(v: View, i: nat, k: nat): Option<Byte> {
    if i < |v.ips| then FileByte(v.d, v.ips[i], k) else None
  }

  /** Byte k after src is stored at off, where it was x before. */
  function Stored(src: seq<Byte>, off: nat, k: nat, x: Option<Byte>): Option<Byte> {
    if off <= k < off + |src| then Some(src[k - off]) else x
  }

  /** log_write of new contents for a data block. */
  function Overwrite(v: View, b: nat, data: Block): View
    requires b < |v.d|
  {
    v.(d := v.d[b := data], logged := v.logged + {b})
  }

  lemma GrowKeepsByte(sb: Superblock, v: View, w: View, i: nat, k: nat)
    requires Fsck(sb, v).Clean? && Fsck(sb, w).Clean? && Change(sb, v, w, i).Growth? && At(v, i, k).Some?
    ensures At(w, i, k) == At(v, i, k)
  {
    PointerOwned(sb, v, i, Slot(k / 512));
  }

  /** A file's bytes do not change when only another file does. */
  lemma OtherFileKept(sb: Superblock, v: View, w: View, i: nat, j: nat, k: nat)
    requires Fsck(sb, v).Clean? && Fsck(sb, w).Clean? && !Change(sb, v, w, i).Other? && j != i && j < |v.ips|
    ensures At(w, j, k) == At(v, j, k)
  {
    LocalIsRewrite(sb, v, w, i);
    var ind := Ptr(v.d, v.ips[j], NDIRECT);
    if ind != 0 { PointerOwned(sb, v, j, NDIRECT); }
    var b := Ptr(v.d, v.ips[j], Slot(k / 512));
    if b != 0 { PointerOwned(sb, v, j, Slot(k / 512)); }
  }

  lemma MapExactKept(sb: Superblock, v: View, b: nat, data: Block)
    requires Owned(sb, v.d, v.ips, v.ow) && MapExact(sb, v.d, v.ow, {}) && b in v.ow
    ensures b < |v.d| && MapExact(sb, Overwrite(v, b, data).d, v.ow, {})
  {
    DataNotMap(sb, b);
    MapExactElsewhere(sb, v.d, v.ow, b, data);
  }

  lemma OverwriteLocal(sb: Superblock, v: View, i: nat, b: nat, data: Block)
    requires Owned(sb, v.d, v.ips, v.ow) && i < |v.ips| && b in v.ow && v.ow[b].0 == i
    ensures b < |v.d| && !Change(sb, v, Overwrite(v, b, data), i).Other?
  {
    assert sb.bmapstart < b;
    LocalIsRewrite(sb, v, Overwrite(v, b, data), i);
  }

  /** Overwriting a data block of inode i keeps every invariant and every pointer. */
  lemma OverwriteGood(sb: Superblock, v: View, i: nat, b: nat, data: Block)
    requires Fsck(sb, v).Clean? && i < |v.ips| && b in v.ow && v.ow[b].0 == i && v.ow[b].1 != NDIRECT
    ensures b < |v.d| && Fsck(sb, Overwrite(v, b, data)).Clean? && !Change(sb, v, Overwrite(v, b, data), i).Other?
    ensures forall s: nat :: Ptr(Overwrite(v, b, data).d, v.ips[i], s) == Ptr(v.d, v.ips[i], s)
  {
    WriteElsewhere(sb, v.d, v.ips, v.ow, b, data);
    MapExactKept(sb, v, b, data);
    OverwriteLocal(sb, v, i, b, data);
  }

  /** at is byte o of the bn-th block. */
  predicate Place(at: nat, bn: nat, o: nat) {
    at == 512 * bn + o && o < 512
  }

  lemma PlaceOf(at: nat) returns (bn: nat, o: nat)
    ensures Place(at, bn, o)
  {
    bn, o := at / 512, at % 512;
  }

  lemma Placed(at: nat, bn: nat, o: nat)
    requires Place(at, bn, o)
    ensures bn == at / 512 && o == at % 512
  {
  }

  /** A byte of another block of the file survives the overwrite of the bn-th. */
  lemma OtherBlockKept(sb: Superblock, v: View, i: nat, bn: nat, data: Block, k: nat)
    requires Fsck(sb, v).Clean? && i < |v.ips| && Ptr(v.d, v.ips[i], Slot(bn)) != 0 && k / 512 != bn
    ensures Ptr(v.d, v.ips[i], Slot(bn)) < |v.d| && Slot(bn) != NDIRECT
    ensures At(Overwrite(v, Ptr(v.d, v.ips[i], Slot(bn)), data), i, k) == At(v, i, k)
  {
    var b := Ptr(v.d, v.ips[i], Slot(bn));
    PointerOwned(sb, v, i, Slot(bn));
    OtherPtr(sb, v, i, b, data, bn, k / 512);
  }

  lemma OtherPtr(sb: Superblock, v: View, i: nat, b: nat, data: Block, bn: nat, bk: nat)
    requires Fsck(sb, v).Clean? && i < |v.ips| && b == Ptr(v.d, v.ips[i], Slot(bn)) != 0 && b < |v.d|
    requires Slot(bn) != NDIRECT
    requires bk != bn
    ensures var w := Overwrite(v, b, data); Ptr(w.d, w.ips[i], Slot(bk)) == Ptr(v.d, v.ips[i], Slot(bk)) != b
  {
    PointerOwned(sb, v, i, Slot(bn));
    OverwriteGood(sb, v, i, b, data);
    if Ptr(v.d, v.ips[i], Slot(bk)) != 0 { PointerOwned(sb, v, i, Slot(bk)); }
  }

  /** The block that is patched, byte by byte. */
  lemma PatchedHere(d: Disk, ip: Inode, b: nat, data: Block, off: nat, bn: nat, o: nat, chunk: seq<Byte>, k: nat)
    requires 0 < b < |d| && Ptr(d, ip, Slot(bn)) == b && Ptr(d[b := data], ip, Slot(bn)) == b && k / 512 == bn
    requires Place(off, bn, o) && o + |chunk| <= 512 && data == PutBytes(d[b], o, chunk)
    ensures FileByte(d[b := data], ip, k) == Stored(chunk, off, k, FileByte(d, ip, k))
  {
    assert Place(k, bn, k % 512);
  }

  lemma NotPatched(off: nat, bn: nat, o: nat, len: nat, k: nat)
    requires Place(off, bn, o) && o + len <= 512 && k / 512 != bn
    ensures !(off <= k < off + len)
  {
    var kb, ko := PlaceOf(k);
    Placed(k, kb, ko);
  }

  /** Storing chunk inside one mapped block of file i. */
  lemma PatchByte(sb: Superblock, v: View, i: nat, off: nat, bn: nat, o: nat, b: nat, data: Block, chunk: seq<Byte>,
                  k: nat)
    requires Fsck(sb, v).Clean? && i < |v.ips| && Place(off, bn, o) && o + |chunk| <= 512
    requires 0 < Ptr(v.d, v.ips[i], Slot(bn)) == b < |v.d| && data == PutBytes(v.d[b], o, chunk)
    ensures At(Overwrite(v, b, data), i, k) == Stored(chunk, off, k, At(v, i, k))
  {
    if k / 512 != bn {
      NotPatched(off, bn, o, |chunk|, k);
      OtherBlockKept(sb, v, i, bn, data, k);
    } else {
      PointerOwned(sb, v, i, Slot(bn));
      OverwriteGood(sb, v, i, b, data);
      PatchedHere(v.d, v.ips[i], b, data, off, bn, o, chunk, k);
    }
  }

  // ---- one round of writei's loop ----------------------------------------

  /** The state after bmap gave u and b, and chunk was stored in that block at o. */
  function Round(u: View, b: nat, o: nat, chunk: seq<Byte>): View
    requires b < |u.d| && o + |chunk| <= 512
  {
    Overwrite(u, b, PutBytes(u.d[b], o, chunk))
  }

  lemma RoundGood(sb: Superblock, v: View, u: View, i: nat, b: nat, bn: nat, o: nat, chunk: seq<Byte>)
    requires !Mapping(sb, v, u, i, Slot(bn), b).Wrong? && o + |chunk| <= 512
    ensures b < |u.d| && Fsck(sb, Round(u, b, o, chunk)).Clean? && !Change(sb, v, Round(u, b, o, chunk), i).Other?
    ensures Ptr(v.d, v.ips[i], Slot(bn)) != 0 ==> Round(u, b, o, chunk).ips == v.ips
  {
    MappingFacts(sb, v, u, i, Slot(bn), b);
    PointerOwned(sb, u, i, Slot(bn));
    OverwriteGood(sb, u, i, b, PutBytes(u.d[b], o, chunk));
    ChangeTransitive(sb, v, u, Round(u, b, o, chunk), i);
  }

  lemma RoundByte(sb: Superblock, v: View, u: View, i: nat, b: nat, off: nat, bn: nat, o: nat, chunk: seq<Byte>, k: nat)
    requires Fsck(sb, v).Clean? && !Mapping(sb, v, u, i, Slot(bn), b).Wrong? && Place(off, bn, o) && o + |chunk| <= 512
    requires Stored(chunk, off, k, At(v, i, k)).Some?
    ensures b < |u.d| && At(Round(u, b, o, chunk), i, k) == Stored(chunk, off, k, At(v, i, k))
  {
    MappingFacts(sb, v, u, i, Slot(bn), b);
    PatchByte(sb, u, i, off, bn, o, b, PutBytes(u.d[b], o, chunk), chunk, k);
    if At(v, i, k).Some? { GrowKeepsByte(sb, v, u, i, k); }
  }

  /** Storing in two goes is storing at once. */
  lemma StoredInTwo(first: seq<Byte>, second: seq<Byte>, off: nat, k: nat, x: Option<Byte>)
    ensures Stored(second, off + |first|, k, Stored(first, off, k, x)) == Stored(first + second, off, k, x)
  {
  }
}
