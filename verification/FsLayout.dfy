/** On-disk layout of the file system (fs.h): free map, inodes, and the block pointers of
    an inode, direct and indirect. A Disk here is what bread returns for every block. */
module FsLayout {
  import opened Common
  import opened Blocks

  const NDIRECT: nat := 12
  const MAXFILE: nat := 140     // NDIRECT + NINDIRECT
  const NSLOTS: nat := 141      // 12 direct, the indirect block itself, 128 indirect
  const IPB: nat := 8           // inodes per block
  const DINODE_WORDS: nat := 16

  type Ushort = x: int | 0 <= x < 0x1_0000

  datatype Superblock = Superblock(size: nat, nblocks: nat, ninodes: nat, inodestart: nat, bmapstart: nat)

  /** The regions follow one another as mkfs lays them out (mkfs.c:94-103). */
  ghost predicate ValidSb(sb: Superblock) {
    && 0 < sb.inodestart
    && (forall i: nat | i < sb.ninodes :: InodeBlock(sb, i) < sb.bmapstart)
    && (forall b: nat | b < sb.size :: BitmapBlock(sb, b) < DataStart(sb))
    && sb.bmapstart < DataStart(sb) <= sb.size < 0x1_0000_0000
  }

  /** Blocks below this one are metadata; the nblocks data blocks end the image. */
  function DataStart(sb: Superblock): int { sb.size - sb.nblocks }

  function InodeBlock(sb: Superblock, i: nat): nat { i / IPB + sb.inodestart }

  function BitmapBlock(sb: Superblock, b: nat): nat { b / BPB + sb.bmapstart }

  /** Is block b marked in use? */
  predicate Used(sb: Superblock, d: Disk, b: nat) {
    BitmapBlock(sb, b) < |d| && Bit(d[BitmapBlock(sb, b)], b % BPB)
  }

  // ---- inodes ------------------------------------------------------------

  datatype Inode = Inode(typ: Ushort, major: Ushort, minor: Ushort, nlink: Ushort, size: Uint, addrs: seq<Uint>)

  /** struct dinode as words. */
  function DinodeWords(ip: Inode): (ws: seq<Uint>)
    requires |ip.addrs| == 13
    ensures |ws| == DINODE_WORDS
  {
    [ip.typ + 0x1_0000 * ip.major, ip.minor + 0x1_0000 * ip.nlink, ip.size] + ip.addrs
  }

  /** The words of inode i on disk. */
  function OnDisk(sb: Superblock, d: Disk, i: nat): (ws: seq<Uint>)
    requires InodeBlock(sb, i) < |d|
    ensures |ws| == DINODE_WORDS
  {
    seq<Uint>(DINODE_WORDS, k requires 0 <= k < DINODE_WORDS => Word(d[InodeBlock(sb, i)], (i % IPB) * 16 + k))
  }

  /** Store ws in b from word base on. */
  function SetWords(b: Block, base: nat, ws: seq<Uint>): Block
    requires base + |ws| <= WORDS
    decreases |ws|
  {
    if ws == [] then b else SetWords(SetWord(b, base, ws[0]), base + 1, ws[1..])
  }

  lemma {:induction false} WordSetWords(b: Block, base: nat, ws: seq<Uint>, k: nat)
    requires base + |ws| <= WORDS && k < WORDS
    ensures Word(SetWords(b, base, ws), k) == if base <= k < base + |ws| then ws[k - base] else Word(b, k)
    decreases |ws|
  {
    if ws != [] {
      WordSetWord(b, base, ws[0]);
      WordSetWords(SetWord(b, base, ws[0]), base + 1, ws[1..], k);
    }
  }

  /** Two and four bytes of a block from byte k on, the lowest first. */
  function Half(b: Block, k: nat): Ushort
    requires k + 1 < 512
  {
    (b[k] as int) + 0x100 * (b[k + 1] as int)
  }

  function Quad(b: Block, k: nat): Uint
    requires k + 3 < 512
  {
    (b[k] as int) + 0x100 * (b[k + 1] as int) + 0x1_0000 * (b[k + 2] as int) + 0x100_0000 * (b[k + 3] as int)
  }

  /** The inode ilock reads: 64 bytes each, eight to a block, four halves, the size and the
      addresses. */
  function Loaded(sb: Superblock, d: Disk, i: nat): Inode
    requires sb.inodestart + i / 8 < |d|
  {
    var b, k := d[sb.inodestart + i / 8], 64 * (i % 8);
    Inode(Half(b, k), Half(b, k + 2), Half(b, k + 4), Half(b, k + 6), Quad(b, k + 8),
          seq<Uint>(13, a requires 0 <= a < 13 => Quad(b, k + 12 + 4 * a)))
  }

  /** The inode in sixteen words. */
  function FromWords(ws: seq<Uint>): Inode
    requires |ws| == DINODE_WORDS
  {
    Inode(ws[0] % 0x1_0000, ws[0] / 0x1_0000, ws[1] % 0x1_0000, ws[1] / 0x1_0000, ws[2], ws[3..])
  }

  lemma WordHalves(b: Block, i: nat, k: nat)
    requires i < WORDS && k == 4 * i
    ensures Word(b, i) == Quad(b, k) && Word(b, i) % 0x1_0000 == Half(b, k) && Word(b, i) / 0x1_0000 == Half(b, k + 2)
  {
  }

  lemma LoadedWords(sb: Superblock, d: Disk, i: nat)
    requires InodeBlock(sb, i) < |d|
    ensures Loaded(sb, d, i) == FromWords(OnDisk(sb, d, i))
  {
    var b, base, k, ws := d[InodeBlock(sb, i)], (i % IPB) * 16, 64 * (i % 8), OnDisk(sb, d, i);
    WordHalves(b, base, k);
    WordHalves(b, base + 1, k + 4);
    WordHalves(b, base + 2, k + 8);
    forall a | 0 <= a < 13
      ensures ws[3..][a] == Quad(b, k + 12 + 4 * a)
    {
      WordHalves(b, base + 3 + a, k + 12 + 4 * a);
    }
    assert ws[3..] == Loaded(sb, d, i).addrs;
  }

  lemma FromDinode(ip: Inode)
    requires |ip.addrs| == 13
    ensures FromWords(DinodeWords(ip)) == ip
  {
    assert DinodeWords(ip)[3..] == ip.addrs;
  }

  /** An inode stored in its block is what ilock reads back, and the other inodes are read as
      before. */
  lemma StoredLoaded(sb: Superblock, d: Disk, i: nat, ip: Inode, j: nat)
    requires InodeBlock(sb, i) < |d| && InodeBlock(sb, j) < |d| && |ip.addrs| == 13
    ensures var d' := d[InodeBlock(sb, i) := SetWords(d[InodeBlock(sb, i)], (i % IPB) * 16, DinodeWords(ip))];
      Loaded(sb, d', j) == if i == j then ip else Loaded(sb, d, j)
  {
    var d' := d[InodeBlock(sb, i) := SetWords(d[InodeBlock(sb, i)], (i % IPB) * 16, DinodeWords(ip))];
    DinodeRoundTrip(sb, d, i, ip, j);
    LoadedWords(sb, d, j);
    LoadedWords(sb, d', j);
    FromDinode(ip);
  }

  /** The i-th dinode stored in its block reads back, and its neighbours are untouched. */
  lemma DinodeRoundTrip(sb: Superblock, d: Disk, i: nat, ip: Inode, j: nat)
    requires InodeBlock(sb, i) < |d| && InodeBlock(sb, j) < |d| && |ip.addrs| == 13
    ensures var d' := d[InodeBlock(sb, i) := SetWords(d[InodeBlock(sb, i)], (i % IPB) * 16, DinodeWords(ip))];
      OnDisk(sb, d', j) == if i == j then DinodeWords(ip) else OnDisk(sb, d, j)
  {
    var ib := InodeBlock(sb, i);
    var base := (i % IPB) * 16;
    var d' := d[ib := SetWords(d[ib], base, DinodeWords(ip))];
    forall k | 0 <= k < DINODE_WORDS
      ensures OnDisk(sb, d', j)[k] == if i == j then DinodeWords(ip)[k] else OnDisk(sb, d, j)[k]
    {
      if InodeBlock(sb, j) == ib {
        WordSetWords(d[ib], base, DinodeWords(ip), (j % IPB) * 16 + k);
      }
    }
  }

  // ---- block pointers ----------------------------------------------------

  /** The s-th pointer of an inode: slots 0-11 and 12 are addrs, the rest are the entries of
      the indirect block. Zero means none. */
  function Ptr(d: Disk, ip: Inode, s: nat): Uint {
    if s >= NSLOTS || |ip.addrs| != 13 then 0
    else if s < 13 then ip.addrs[s]
    else if 0 < ip.addrs[NDIRECT] < |d| then Word(d[ip.addrs[NDIRECT]], s - 13)
    else 0
  }

  /** The slot of the bn-th data block. */
  function Slot(bn: nat): nat {
    if bn < NDIRECT then bn else bn + 1
  }

  /** Byte k of the file, if its block is there. */
  function FileByte(d: Disk, ip: Inode, k: nat): Option<Byte> {
    var b := Ptr(d, ip, Slot(k / 512));
    if 0 < b < |d| then Some(d[b][k % 512]) else None
  }

  /** Where byte k of a file is: in one of twelve blocks the inode names, or in one of 128 that
      the words of a thirteenth name. */
  lemma FileByteIs(d: Disk, ip: Inode, k: nat, a: nat)
    requires |ip.addrs| == 13 && k < 140 * 512
    requires k >= 12 * 512 ==> 0 < ip.addrs[12] < |d|
    requires a == if k < 12 * 512 then ip.addrs[k / 512] else Quad(d[ip.addrs[12]], 4 * (k / 512) - 48)
    ensures FileByte(d, ip, k) == if 0 < a < |d| then Some(d[a][k % 512]) else None
  {
    if k >= 12 * 512 { WordHalves(d[ip.addrs[12]], k / 512 - 12, 4 * (k / 512) - 48); }
  }

  /** Where a block's bit is: 4096 to a block of the free map, the lowest of a byte first. */
  lemma UsedIs(sb: Superblock, d: Disk, b: nat)
    requires sb.bmapstart + b / 4096 < |d|
    ensures var x := d[sb.bmapstart + b / 4096][b % 4096 / 8];
      Used(sb, d, b) <==> x / [1, 2, 4, 8, 16, 32, 64, 128][b % 8] % 2 == 1
  {
    var x := d[sb.bmapstart + b / 4096][b % 4096 / 8];
    assert b % 4096 % 8 == b % 8;
    BitIs(x, b % 8);
  }

  /** The file as a flat sequence of bytes. */
  function Content(d: Disk, ip: Inode): (r: seq<Byte>)
    ensures |r| == ip.size
  {
    seq<Byte>(ip.size, k requires 0 <= k < ip.size => FileByte(d, ip, k).GetOr(0))
  }

  /** Every byte below the file's size is there. */
  ghost predicate Mapped(d: Disk, ip: Inode) {
    forall k: nat | k < ip.size :: FileByte(d, ip, k).Some?
  }
}
