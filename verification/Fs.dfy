/** fs.c: allocating blocks, mapping file offsets to blocks, reading, writing and
    truncating files, over the logical disk that bread and log_write present. */
module Fs {
  import opened Common
  import opened Blocks
  import opened FsLayout
  import opened FsOwnership
  import opened FsMapping
  import opened FsFile
  import opened FsWrite
  import opened FsInode
  import opened FsHistory
  import opened FsTrunc

  const T_DEV: Ushort := 3

  /** How readi and writei end: handed to a device, refused with -1, stopped by a panic of
      bmap, or done. */
  datatype Access<+T> = Device | Refused | Panicked | Moved(what: T)

  class Fs {
    const sb: Superblock
    var disk: Disk             // what bread returns for each block
    var ips: seq<Inode>        // the in-memory inodes, by inode number
    ghost var ow: Owners
    ghost var logged: set<nat> // blocks passed to log_write since begin_op
    ghost var ops: seq<nat>    // how many blocks each finished operation logged
    ghost var tale: Tale       // everything logged, and what each operation left

    ghost function V(): View
      reads this
    {
      View(disk, ips, ow, logged)
    }

    ghost predicate Valid()
      reads this
    {
      Fsck(sb, V()).Clean?
    }

    /** The history kept is that of this file system. */
    ghost predicate Told()
      reads this
    {
      History(sb, tale, disk).Kept?
    }

    /** A mounted file system that is in order. */
    constructor (sb: Superblock, d: Disk, inodes: seq<Inode>, ghost ow: Owners)
      requires State(sb, View(d, inodes, ow, {})).Sound?
      ensures Valid() && Told() && this.sb == sb && V() == View(d, inodes, ow, {})
      ensures tale == Tale(d, [], [0], [V()])
    {
      hide History;
      this.sb := sb;
      tale := Tale(d, [], [0], [View(d, inodes, ow, {})]);
      HistoryStart(sb, View(d, inodes, ow, {}));
      disk := d;
      ips := inodes;
      this.ow := ow;
      logged := {};
      ops := [];
    }

    method BeginOp()
      modifies this`logged
      ensures logged == {}
    {
      logged := {};
    }

    method EndOp()
      requires Told() && State(sb, V()).Sound?
      modifies this`ops, this`tale
      ensures Told() && ops == old(ops) + [|logged|] && tale == Ended(old(tale), V())
    {
      hide History;
      HistoryEnd(sb, tale, V());
      ops := ops + [|logged|];
      tale := Ended(tale, V());
    }

    /** log_write of a buffer for block b holding data. */
    method LogWrite(b: nat, data: Block)
      requires b < |disk|
      requires Told()
      modifies this`disk, this`logged, this`tale
      ensures Told()
      ensures disk == old(disk)[b := data] && logged == old(logged) + {b} && tale == Grown(old(tale), b, data)
    {
      hide History;
      HistoryMore(sb, tale, disk, b, data);
      tale := Grown(tale, b, data);
      disk := disk[b := data];
      logged := logged + {b};
    }

    /** balloc: the lowest free block, marked in use and zeroed. None is
        panic("balloc: out of blocks"). */
    method Balloc() returns (r: Option<nat>)
      requires ValidSb(sb) && |disk| >= sb.size
      requires Told()
      modifies this`disk, this`logged, this`tale
      ensures Told()
      ensures r.Some? ==>
        && r.value < sb.size && BitmapBlock(sb, r.value) < |old(disk)| && !Used(sb, old(disk), r.value)
        && (forall x: nat | x < r.value :: Used(sb, old(disk), x))
        && disk == Allocated(sb, old(disk), r.value) && |disk| == |old(disk)|
        && (forall k | 0 <= k < 512 :: disk[r.value][k] == 0)
        && logged == old(logged) + {BitmapBlock(sb, r.value), r.value}
      ensures r.None? ==> disk == old(disk) && logged == old(logged) && FreeSpace(sb, disk).Full?
    {
      hide History;
      var b := 0;
      while b < sb.size
        invariant b % BPB == 0 && Told()
        invariant disk == old(disk) && logged == old(logged)
        invariant forall x: nat | x < b && x < sb.size :: Used(sb, disk, x)
      {
        var m := BitmapBlock(sb, b);
        var bi := 0;
        while bi < BPB && b + bi < sb.size
          invariant bi <= BPB && Told()
          invariant disk == old(disk) && logged == old(logged)
          invariant forall x: nat | x < b + bi && x < sb.size :: Used(sb, disk, x)
        {
          assert BitmapBlock(sb, b + bi) == m && (b + bi) % BPB == bi;
          if !Bit(disk[m], bi) {
            LogWrite(m, RaiseBit(disk[m], bi));
            LogWrite(b + bi, ZeroBlock());
            return Some(b + bi);
          }
          bi := bi + 1;
        }
        b := b + BPB;
      }
      r := None;
    }

    /** bmap's use of a block address kept in the inode: a missing one is allocated first. */
    method AddrOrAlloc(i: nat, s: nat) returns (r: Option<nat>)
      requires Valid() && i < |ips| && s <= NDIRECT
      requires Told()
      modifies this`disk, this`ips, this`ow, this`logged, this`tale
      ensures Told()
      ensures r.Some? ==> !Mapping(sb, old(V()), V(), i, s, r.value).Wrong?
      ensures r.None? ==> Ptr(old(disk), old(ips)[i], s) == 0 && FreeSpace(sb, disk).Full?
    {
      hide History;
      Shape(sb, V());
      var addr := ips[i].addrs[s];
      if addr == 0 {
        r := Balloc();
        if r.None? { return; }
        var b := r.value;
        AddrFilled(sb, old(V()), i, s, b);
        ips := ips[i := ips[i].(addrs := ips[i].addrs[s := b])];
        ow := ow[b := (i, s)];
      } else {
        PointerOwned(sb, V(), i, s);
        r := Some(addr);
      }
    }

    /** The new address goes into entry e of the indirect block. */
    static method StoreEntry(bp: Block, e: nat, addr: Uint) returns (data: Block)
      requires e < WORDS
      ensures StoresWord(bp, data, e, addr)
    {
      WordSetWord(bp, e, addr);
      data := SetWord(bp, e, addr);
    }

    /** bmap's use of an entry of the indirect block: a missing one is allocated first, and the
        indirect block logged. */
    method EntryOrAlloc(i: nat, e: nat) returns (r: Option<nat>)
      requires Valid() && i < |ips| && e < WORDS && 0 < Ptr(disk, ips[i], NDIRECT) < |disk|
      requires Told()
      modifies this`disk, this`ow, this`logged, this`tale
      ensures Told()
      ensures r.Some? ==> !Mapping(sb, old(V()), V(), i, 13 + e, r.value).Wrong?
      ensures r.None? ==> Ptr(old(disk), old(ips)[i], 13 + e) == 0 && FreeSpace(sb, disk).Full?
    {
      hide History;
      Shape(sb, V());
      var ind := ips[i].addrs[NDIRECT];
      var bp := disk[ind];
      var addr := Word(bp, e);
      if addr == 0 {
        r := AllocEntry(i, e, ind);
      } else {
        PointerOwned(sb, V(), i, 13 + e);
        r := Some(addr);
      }
    }

    /** A block for the empty entry e of the indirect block ind. */
    method AllocEntry(i: nat, e: nat, ind: nat) returns (r: Option<nat>)
      requires Valid() && i < |ips| && e < WORDS && |ips[i].addrs| == 13 && 0 < ips[i].addrs[NDIRECT] == ind < |disk|
      requires Word(disk[ind], e) == 0
      requires Told()
      modifies this`disk, this`ow, this`logged, this`tale
      ensures Told()
      ensures r.Some? ==> !Mapping(sb, old(V()), V(), i, 13 + e, r.value).Wrong?
      ensures r.None? ==> FreeSpace(sb, disk).Full?
    {
      hide History, Mapping, FreeSpace, Fsck;
      Shape(sb, V());
      var bp := disk[ind];
      r := Balloc();
      if r.None? { return; }
      var data := StoreEntry(bp, e, r.value);
      ghost var mid := V();
      EntryFilled(sb, old(V()), i, e, r.value, data);
      LogWrite(ind, data);
      ow := ow[r.value := (i, 13 + e)];
      assert V() == View(mid.d[ind := data], ips, mid.ow[r.value := (i, 13 + e)], mid.logged + {ind});
    }

    /** bmap past the direct blocks: entry e of the indirect block. */
    method BmapIndirect(i: nat, e: nat) returns (r: Option<nat>)
      requires Valid() && i < |ips| && e < WORDS
      requires Told()
      modifies this`disk, this`ips, this`ow, this`logged, this`tale
      ensures Told()
      ensures r.Some? ==> !Mapping(sb, old(V()), V(), i, 13 + e, r.value).Wrong?
      ensures r.None? ==> Ptr(old(disk), old(ips)[i], 13 + e) == 0 && FreeSpace(sb, disk).Full?
    {
      hide History;
      r := AddrOrAlloc(i, NDIRECT);
      if r.None? { return; }
      ghost var mid, ind := V(), r.value;
      MappingFacts(sb, old(V()), mid, i, NDIRECT, ind);
      r := EntryOrAlloc(i, e);
      if r.Some? { ThroughIndirect(sb, old(V()), mid, V(), i, ind, e, r.value); }
    }

    /** bmap: the block of the bn-th block of file i, allocating what is missing and nothing
        else. None is one of its panics. */
    method Bmap(i: nat, bn: nat) returns (r: Option<nat>)
      requires Valid() && i < |ips|
      requires Told()
      modifies this`disk, this`ips, this`ow, this`logged, this`tale
      ensures Told()
      ensures r.Some? ==> bn < MAXFILE && !Mapping(sb, old(V()), V(), i, Slot(bn), r.value).Wrong?
      ensures r.None? ==> bn >= MAXFILE || (Ptr(old(disk), old(ips)[i], Slot(bn)) == 0 && FreeSpace(sb, disk).Full?)
    {
      hide History;
      if bn < NDIRECT {
        assert Slot(bn) == bn;
        r := AddrOrAlloc(i, bn);
      } else if bn - NDIRECT < WORDS {
        assert Slot(bn) == 13 + (bn - NDIRECT);
        r := BmapIndirect(i, bn - NDIRECT);
      } else {
        r := None;
      }
    }

    /** One round of writei's loop. */
    method WriteRound(i: nat, bn: nat, o: nat, chunk: seq<Byte>) returns (r: Option<nat>, ghost mid: View)
      requires Valid() && i < |ips| && o + |chunk| <= 512
      requires Told()
      modifies this`disk, this`ips, this`ow, this`logged, this`tale
      ensures Told()
      ensures r.Some? ==> bn < MAXFILE && !Mapping(sb, old(V()), mid, i, Slot(bn), r.value).Wrong?
      ensures r.Some? ==> r.value < |mid.d| && V() == Round(mid, r.value, o, chunk)
      ensures r.None? ==> bn >= MAXFILE || FreeSpace(sb, disk).Full?
    {
      hide History;
      r := Bmap(i, bn);
      mid := V();
      if r.Some? {
        MappingFacts(sb, old(V()), mid, i, Slot(bn), r.value);
        LogWrite(r.value, PutBytes(disk[r.value], o, chunk));
      }
    }

    /** The block an offset falls in, the place in the block, and how much of it to copy. */
    static method BlockSpan(at: nat, left: nat) returns (bn: nat, o: nat, m: nat)
      requires left > 0
      ensures Place(at, bn, o) && 0 < m && m == if left < 512 - o then left else 512 - o
    {
      bn, o, m := at / 512, at % 512, Span(at, left);
    }

    /** The round's place in the file, its bytes, and the counters after it. */
    static method NextChunk(src: seq<Byte>, off: nat, at: nat, tot: nat, ghost c: Clock)
      returns (bn: nat, o: nat, chunk: seq<Byte>, at': nat, tot': nat, ghost c': Clock)
      requires Counters(src, off, at, tot, c).Exact? && tot < |src|
      ensures Place(at, bn, o) && o + |chunk| <= 512 && 512 * bn < off + |src| && tot < tot'
      ensures at == off + |c.done| && |c.done| < |src| && (c.rounds == 0 <==> |c.done| == 0)
      ensures (|c.done| == 0 ==> bn == c.bn0)
      ensures Counters(src, off, at', tot', c').Exact? && Ticks(c, chunk, c')
    {
      var m;
      bn, o, m := BlockSpan(at, |src| - tot);
      Placed(at, bn, o);
      chunk := src[tot..tot + m];
      at', tot' := at + m, tot + m;
      c' := CountersStep(src, off, at, tot, c, m, chunk, bn, at', tot');
    }

    /** One round of writei's loop, with its invariant. */
    method WriteStep(i: nat, src: seq<Byte>, off: nat, at: nat, tot: nat, ghost v: View, ghost c: Clock,
                     ghost data: set<nat>, ghost maps: set<nat>)
      returns (ok: bool, at': nat, tot': nat, ghost c': Clock, ghost data': set<nat>, ghost maps': set<nat>)
      requires Going(sb, v, V(), i, off, |src|, c, data, maps).Running? && Counters(src, off, at, tot, c).Exact?
      requires tot < |src|
      requires Told()
      modifies this`disk, this`ips, this`ow, this`logged, this`tale
      ensures Told()
      ensures tot < tot' && Counters(src, off, at', tot', c').Exact?
      ensures ok ==> Going(sb, v, V(), i, off, |src|, c', data', maps').Running?
      ensures !ok ==> off + |src| > MAXBYTES || FreeSpace(sb, disk).Full?
    {
      hide History;
      ghost var w := V();
      GoingFacts(sb, v, w, i, off, |src|, c, data, maps);
      var bn, o, chunk;
      bn, o, chunk, at', tot', c' := NextChunk(src, off, at, tot, c);
      ghost var mid;
      var r;
      r, mid := WriteRound(i, bn, o, chunk);
      ok, data', maps' := r.Some?, data, maps;
      if ok {
        data', maps' := data + {r.value}, MapsAfter(sb, w, i, bn, r.value, maps);
        GoingStep(sb, v, w, mid, i, r.value, off, |src|, c, data, maps, at, bn, o, chunk, c');
      }
    }

    /** writei's loop. False is a panic of bmap. */
    method WriteLoop(i: nat, src: seq<Byte>, off: nat) returns (ok: bool)
      requires Valid() && i < |ips| && Mapped(disk, ips[i]) && off <= ips[i].size
      requires Told()
      modifies this`disk, this`ips, this`ow, this`logged, this`tale
      ensures Told()
      ensures ok ==> Progress(sb, old(V()), V(), i, off, src).Written?
      ensures ok && off + |src| <= old(ips)[i].size ==> ips == old(ips)
      ensures ok && |src| <= 1536 ==> |logged| <= |old(logged)| + 9
      ensures !ok ==> off + |src| > MAXBYTES || FreeSpace(sb, disk).Full?
    {
      hide History;
      ghost var v := V();
      ghost var c := CountersStart(src, off);
      ghost var data: set<nat>, maps: set<nat> := {}, {};
      var tot, at := 0, off;
      GoingStart(sb, v, i, off, |src|, c);
      while tot < |src|
        invariant Going(sb, v, V(), i, off, |src|, c, data, maps).Running?
        invariant Counters(src, off, at, tot, c).Exact? && Told()
      {
        ok, at, tot, c, data, maps := WriteStep(i, src, off, at, tot, v, c, data, maps);
        if !ok { return; }
      }
      CountersEnd(src, off, at, tot, c);
      GoingEnd(sb, v, V(), i, off, src, c, data, maps);
      ok := true;
    }

    /** ilock of an inode that is not in memory: what is on disk is what memory would have. None is
        panic("ilock: no type"). */
    method Ilock(i: nat) returns (r: Option<Inode>)
      requires State(sb, V()).Sound? && i < |ips|
      ensures r == if ips[i].typ == 0 then None else Some(ips[i])
    {
      StateFacts(sb, V(), i);
      var bp, at := disk[InodeBlock(sb, i)], 64 * (i % IPB);
      var addrs: seq<Uint> := [];
      while |addrs| < 13
        invariant |addrs| <= 13 && forall a | 0 <= a < |addrs| :: addrs[a] == Quad(bp, at + 12 + 4 * a)
      {
        addrs := addrs + [Quad(bp, at + 12 + 4 * |addrs|)];
      }
      var ip := Inode(Half(bp, at), Half(bp, at + 2), Half(bp, at + 4), Half(bp, at + 6), Quad(bp, at + 8), addrs);
      assert addrs == Loaded(sb, disk, i).addrs;
      r := if ip.typ == 0 then None else Some(ip);
    }

    /** iupdate: ilock reads inode i back as it is in memory and every other inode as before, and
        no block but the inode's changes. */
    method Iupdate(i: nat)
      requires i < |ips| && |ips[i].addrs| == 13 && InodeBlock(sb, i) < |disk|
      requires Told()
      modifies this`disk, this`logged, this`tale
      ensures Told()
      ensures |disk| == |old(disk)| && Loaded(sb, disk, i) == ips[i]
      ensures forall j: nat | j != i && sb.inodestart + j / 8 < |disk| ::
        Loaded(sb, disk, j) == Loaded(sb, old(disk), j)
      ensures V() == Overwrite(old(V()), InodeBlock(sb, i), UpdatedBlock(sb, old(disk), i, ips[i]))
    {
      hide History;
      ghost var d := disk;
      LogWrite(InodeBlock(sb, i), UpdatedBlock(sb, disk, i, ips[i]));
      StoredLoaded(sb, d, i, ips[i], i);
      forall j: nat | j != i && sb.inodestart + j / 8 < |disk|
        ensures Loaded(sb, disk, j) == Loaded(sb, d, j)
      {
        StoredLoaded(sb, d, i, ips[i], j);
      }
    }

    /** writei after its checks. */
    method WriteChecked(i: nat, src: seq<Byte>, off: Uint) returns (ok: bool)
      requires State(sb, V()).Sound? && i < |ips| && off <= ips[i].size && off + |src| <= MAXBYTES
      requires Told()
      modifies this`disk, this`ips, this`ow, this`logged, this`tale
      ensures Told()
      ensures ok ==> Wrote(sb, old(V()), V(), i, off, src).Done?
      ensures ok && |src| <= 1536 ==> |logged| <= |old(logged)| + MAXOPBLOCKS
      ensures !ok ==> FreeSpace(sb, disk).Full?
    {
      hide History;
      ghost var v := V();
      StateFacts(sb, v, i);
      ok := WriteLoop(i, src, off);
      if !ok { return; }
      ghost var w := V();
      ProgressGood(sb, v, w, i, off, src);
      var end := off + |src|;
      assert ips[i].size == v.ips[i].size by { LocalIsRewrite(sb, v, w, i); }
      if |src| > 0 && end > ips[i].size {
        GrowingWrite(sb, v, w, i, off, src, end);
        ips := ips[i := ips[i].(size := end)];
        Iupdate(i);
        assert V() == Resized(sb, w, i, end);
      } else {
        InsideWrite(sb, v, w, i, off, src);
      }
    }

    /** writei: store src at off of file i, growing the file if need be. */
    method Writei(i: nat, src: seq<Byte>, off: Uint) returns (r: Access<nat>)
      requires State(sb, V()).Sound? && i < |ips| && |src| < 0x1_0000_0000
      requires Told()
      modifies this`disk, this`ips, this`ow, this`logged, this`tale
      ensures Told()
      ensures r.Device? <==> old(ips)[i].typ == T_DEV
      ensures r.Refused? <==> old(ips)[i].typ != T_DEV && (off > old(ips)[i].size || off + |src| > MAXBYTES)
      ensures r.Device? || r.Refused? ==> V() == old(V())
      ensures r.Moved? ==> r.what == |src| && Wrote(sb, old(V()), V(), i, off, src).Done?
      ensures r.Moved? && |src| <= 1536 ==> |logged| <= |old(logged)| + MAXOPBLOCKS
      ensures r.Panicked? ==> FreeSpace(sb, disk).Full?
    {
      hide History;
      if ips[i].typ == T_DEV { return Device; }
      if off > ips[i].size || (off + |src|) % 0x1_0000_0000 < off { return Refused; }
      if (off + |src|) % 0x1_0000_0000 > MAXBYTES { return Refused; }
      var ok := WriteChecked(i, src, off);
      r := if ok then Moved(|src|) else Panicked;
    }

    /** One round of readi's loop. */
    method ReadRound(i: nat, at: nat, left: nat) returns (m: nat, chunk: seq<Byte>)
      requires Valid() && i < |ips| && Mapped(disk, ips[i]) && 0 < left && at + left <= ips[i].size
      requires Told()
      modifies this`disk, this`ips, this`ow, this`logged, this`tale
      ensures Told()
      ensures V() == old(V()) && 0 < m <= left && |chunk| == m && chunk == Content(disk, ips[i])[at..at + m]
    {
      hide History;
      var bn, o;
      bn, o, m := BlockSpan(at, left);
      ghost var v := V();
      ReadMapped(disk, ips[i], at, bn, o);
      var b := Bmap(i, bn);
      MappingFacts(sb, v, V(), i, Slot(bn), b.value);
      chunk := disk[b.value][o..o + m];
      ReadChunk(disk, ips[i], b.value, at, m, bn, o);
    }

    /** readi's loop: it finds every block in place and changes nothing. */
    method ReadLoop(i: nat, off: nat, n: nat) returns (dst: seq<Byte>)
      requires Valid() && i < |ips| && Mapped(disk, ips[i]) && off + n <= ips[i].size
      requires Told()
      modifies this`disk, this`ips, this`ow, this`logged, this`tale
      ensures Told()
      ensures V() == old(V()) && dst == Content(disk, ips[i])[off..off + n]
    {
      hide History;
      ghost var v := V();
      var tot := 0;
      dst := [];
      while tot < n
        invariant tot <= n && Told() && V() == v && dst == Content(disk, ips[i])[off..off + tot]
      {
        var m, chunk := ReadRound(i, off + tot, n - tot);
        dst := dst + chunk;
        tot := tot + m;
      }
    }

    /** readi: up to n bytes of file i from off on, fewer at the end of the file. */
    method Readi(i: nat, off: Uint, n: Uint) returns (r: Access<seq<Byte>>)
      requires State(sb, V()).Sound? && i < |ips|
      requires Told()
      modifies this`disk, this`ips, this`ow, this`logged, this`tale
      ensures Told()
      ensures V() == old(V())
      ensures r.Device? <==> ips[i].typ == T_DEV
      ensures r.Refused? <==> ips[i].typ != T_DEV && (off > ips[i].size || off + n >= 0x1_0000_0000)
      ensures !r.Panicked?
      ensures r.Moved? ==>
        && off <= ips[i].size
        && r.what == Content(disk, ips[i])[off..if off + n < ips[i].size then off + n else ips[i].size]
    {
      hide History;
      if ips[i].typ == T_DEV { return Device; }
      if off > ips[i].size || (off + n) % 0x1_0000_0000 < off { return Refused; }
      var len := if (off + n) % 0x1_0000_0000 > ips[i].size then ips[i].size - off else n;
      StateFacts(sb, V(), i);
      var dst := ReadLoop(i, off, len);
      r := Moved(dst);
    }

    /** bfree: mark block b free. False is panic("freeing free block"). */
    method Bfree(b: nat) returns (ok: bool)
      requires BitmapBlock(sb, b) < |disk|
      requires Told()
      modifies this`disk, this`logged, this`tale
      ensures Told()
      ensures ok <==> Used(sb, old(disk), b)
      ensures ok ==> disk == Bfreed(sb, old(disk), b) && logged == old(logged) + {BitmapBlock(sb, b)}
      ensures !ok ==> disk == old(disk) && logged == old(logged)
    {
      hide History;
      var m, bi := BitmapBlock(sb, b), b % BPB;
      if !Bit(disk[m], bi) { return false; }
      LogWrite(m, LowerBit(disk[m], bi));
      ok := true;
    }

    /** itrunc frees the block of slot s of the file as it was, if there is one; its address was
        in the inode or in the indirect block. */
    method FreeSlot(b: nat, ghost v: View, ghost i: nat, ghost dn: set<nat>, ghost s: nat)
      requires Fsck(sb, v).Clean? && i < |v.ips| && b == Ptr(v.d, v.ips[i], s) && s !in dn
      requires Cleared(sb, v, disk, i, dn).Freed?
      requires Told()
      modifies this`disk, this`logged, this`tale
      ensures Told()
      ensures Cleared(sb, v, disk, i, dn + {s}).Freed?
    {
      hide History;
      if b != 0 {
        ClearOne(sb, v, disk, i, dn, s, b);
        var ok := Bfree(b);
        assert ok;
      } else {
        ClearNone(sb, v, disk, i, dn, s);
      }
    }

    /** itrunc's first loop: the direct blocks. */
    method FreeDirect(i: nat, ghost v: View) returns (ghost dn: set<nat>)
      requires Valid() && i < |ips| && v == V()
      requires Told()
      modifies this`disk, this`ips, this`logged, this`tale
      ensures Told()
      ensures Cleared(sb, v, disk, i, dn).Freed? && (forall s: nat :: s in dn <==> s < NDIRECT)
      ensures ips == v.ips[i := v.ips[i].(addrs := ZeroTo(v.ips[i].addrs, NDIRECT))]
    {
      hide History;
      Shape(sb, v);
      dn := {};
      ClearedNone(sb, v, i);
      var k := 0;
      assert ZeroTo(ips[i].addrs, 0) == ips[i].addrs;
      while k < NDIRECT
        invariant k <= NDIRECT && Told() && Cleared(sb, v, disk, i, dn).Freed? && (forall s: nat :: s in dn <==> s < k)
        invariant ips == v.ips[i := v.ips[i].(addrs := ZeroTo(v.ips[i].addrs, k))]
      {
        FreeSlot(ips[i].addrs[k], v, i, dn, k);
        dn := dn + {k};
        assert ZeroTo(v.ips[i].addrs, k)[k := 0] == ZeroTo(v.ips[i].addrs, k + 1);
        ips := ips[i := ips[i].(addrs := ips[i].addrs[k := 0])];
        k := k + 1;
      }
    }

    /** itrunc's second loop: the entries of the indirect block. */
    method FreeEntries(ind: nat, ghost v: View, ghost i: nat, ghost was: set<nat>) returns (ghost dn: set<nat>)
      requires Fsck(sb, v).Clean? && i < |v.ips| && 0 < ind == Ptr(v.d, v.ips[i], NDIRECT)
      requires Cleared(sb, v, disk, i, was).Freed? && (forall s: nat :: s in was <==> s < NDIRECT)
      requires Told()
      modifies this`disk, this`logged, this`tale
      ensures Told()
      ensures Cleared(sb, v, disk, i, dn).Freed? && (forall s: nat :: s in dn <==> s < NSLOTS && s != NDIRECT)
    {
      hide History;
      PointerOwned(sb, v, i, NDIRECT);
      var bp := disk[ind];
      dn := was;
      UpToDirect(was);
      var j := 0;
      while j < WORDS
        invariant j <= WORDS && Told() && Cleared(sb, v, disk, i, dn).Freed? && UpTo(dn, 13 + j).Freed?
      {
        FreeSlot(Word(bp, j), v, i, dn, 13 + j);
        UpToMore(dn, 13 + j, 14 + j);
        dn := dn + {13 + j};
        j := j + 1;
      }
    }

    /** The indirect block's entries and the indirect block itself, if there is one. */
    method FreeIndirect(i: nat, ghost v: View, ghost was: set<nat>) returns (ghost dn: set<nat>)
      requires Fsck(sb, v).Clean? && i < |v.ips| && |v.ips[i].addrs| == 13
      requires ips == v.ips[i := v.ips[i].(addrs := ZeroTo(v.ips[i].addrs, NDIRECT))]
      requires Cleared(sb, v, disk, i, was).Freed? && (forall s: nat :: s in was <==> s < NDIRECT)
      requires Told()
      modifies this`disk, this`ips, this`logged, this`tale
      ensures Told()
      ensures Cleared(sb, v, disk, i, dn).Freed? && (forall s: nat | s < NSLOTS :: s in dn)
      ensures ips == v.ips[i := v.ips[i].(addrs := ZeroAddrs())]
    {
      hide History;
      var ind := ips[i].addrs[NDIRECT];
      assert ind == Ptr(v.d, v.ips[i], NDIRECT);
      assert ZeroTo(v.ips[i].addrs, NDIRECT)[NDIRECT := 0] == ZeroAddrs();
      if ind != 0 {
        dn := FreeEntries(ind, v, i, was);
        FreeSlot(ind, v, i, dn, NDIRECT);
        dn := dn + {NDIRECT};
        ips := ips[i := ips[i].(addrs := ips[i].addrs[NDIRECT := 0])];
      } else {
        dn := NoEntries(sb, v, disk, i, was);
        assert ips[i].addrs == ZeroAddrs();
      }
    }

    /** itrunc: discard the contents of file i. It never frees a free block, which would be a
        panic, and frees exactly the file's blocks. */
    method Itrunc(i: nat)
      requires State(sb, V()).Sound? && i < |ips|
      requires Told()
      modifies this`disk, this`ips, this`ow, this`logged, this`tale
      ensures Told()
      ensures Truncated(sb, old(V()), V(), i).Done?
    {
      hide History;
      ghost var v := V();
      StateFacts(sb, v, i);
      Shape(sb, v);
      ghost var dn := FreeDirect(i, v);
      dn := FreeIndirect(i, v, dn);
      ips := ips[i := ips[i].(size := 0)];
      ow := Disowned(ow, i);
      TruncateUpdate(sb, v, disk, i, dn, logged);
      assert V() == Emptied(v, disk, i, logged);
      Iupdate(i);
    }
  }
}
