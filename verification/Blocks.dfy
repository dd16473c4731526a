/** Disk blocks as bytes (fs.h), and the views the kernel takes of those bytes:
    32-bit little-endian words (log header, indirect block, dinode) and bits (free map). */
module Blocks {
  const MAXOPBLOCKS: nat := 10   // what begin_op reserves for an operation
  const WORDS: nat := 128   // 32-bit words in a block; also NINDIRECT
  const BPB: nat := 4096    // bits in a block

  type Byte = x: int | 0 <= x < 256
  type Uint = x: int | 0 <= x < 0x1_0000_0000
  type Block = b: seq<Byte> | |b| == 512 witness seq(512, _ => 0)
  type Disk = seq<Block>

  function ZeroBlock(): (b: Block)
    ensures forall k | 0 <= k < 512 :: b[k] == 0
  {
    seq(512, _ => 0)
  }

  // ---- words -------------------------------------------------------------

  /** The i-th word of a block, lowest byte first. */
  function Word(b: Block, i: nat): Uint
    requires i < WORDS
  {
    (b[4*i] as int) + 0x100 * (b[4*i+1] as int)
    + 0x1_0000 * (b[4*i+2] as int) + 0x100_0000 * (b[4*i+3] as int)
  }

  /** Store v as the i-th word. */
  function SetWord(b: Block, i: nat, v: Uint): Block
    requires i < WORDS
  {
    b[4*i := v % 0x100][4*i+1 := (v / 0x100) % 0x100]
     [4*i+2 := (v / 0x1_0000) % 0x100][4*i+3 := v / 0x100_0000]
  }

  /** b' is b with v stored as the i-th word. */
  ghost predicate StoresWord(b: Block, b': Block, i: nat, v: Uint)
    requires i < WORDS
  {
    Word(b', i) == v && forall j: nat | j < WORDS && j != i :: Word(b', j) == Word(b, j)
  }

  lemma WordBytes(v: Uint)
    ensures v % 0x100 + 0x100 * ((v / 0x100) % 0x100)
            + 0x1_0000 * ((v / 0x1_0000) % 0x100) + 0x100_0000 * (v / 0x100_0000) == v
  {
  }

  /** A stored word reads back, and no other word of the block changes. */
  lemma WordSetWord(b: Block, i: nat, v: Uint)
    requires i < WORDS
    ensures StoresWord(b, SetWord(b, i, v), i, v)
  {
    WordBytes(v);
    forall j: nat | j < WORDS && j != i
      ensures Word(SetWord(b, i, v), j) == Word(b, j)
    {
      assert 4*j + 3 < 4*i || 4*i + 3 < 4*j;
    }
  }

  // ---- bits --------------------------------------------------------------

  /** The value of bit k. */
  function Pow2(k: nat): (p: nat)
    ensures p >= 1
  {
    if k == 0 then 1 else 2 * Pow2(k - 1)
  }

  /** Is bit k of x set? */
  predicate BitOf(x: nat, k: nat) {
    if k == 0 then x % 2 == 1 else BitOf(x / 2, k - 1)
  }

  /** Is bit i of the block set, counted from the lowest of its first byte? */
  predicate Bit(b: Block, i: nat)
    requires i < BPB
  {
    BitOf(b[i / 8], i % 8)
  }

  /** x with bit k set, for a clear bit. */
  function WithBit(x: Byte, k: nat): (y: Byte)
    requires k < 8 && !BitOf(x, k)
  {
    ByteFits(x, k);
    x + Pow2(k)
  }

  /** x with bit k clear, for a set bit. */
  function WithoutBit(x: Byte, k: nat): (y: Byte)
    requires BitOf(x, k)
  {
    ByteLower(x, k);
    x - Pow2(k)
  }

  /** The block with bit i set, for a clear bit. */
  function RaiseBit(b: Block, i: nat): Block
    requires i < BPB && !Bit(b, i)
  {
    b[i / 8 := WithBit(b[i / 8], i % 8)]
  }

  /** The block with bit i clear, for a set bit. */
  function LowerBit(b: Block, i: nat): Block
    requires i < BPB && Bit(b, i)
  {
    b[i / 8 := WithoutBit(b[i / 8], i % 8)]
  }

  /** The bits of a byte are its binary digits. */
  lemma {:induction false} BitIs(x: nat, k: nat)
    requires k < 8
    ensures BitOf(x, k) <==> x / [1, 2, 4, 8, 16, 32, 64, 128][k] % 2 == 1
  {
    if k > 0 {
      BitIs(x / 2, k - 1);
      NextWeight(x, k);
    }
  }

  lemma NextWeight(x: nat, k: nat)
    requires 0 < k < 8
    ensures x / 2 / [1, 2, 4, 8, 16, 32, 64, 128][k - 1] == x / [1, 2, 4, 8, 16, 32, 64, 128][k]
  {
  }

  lemma {:induction false} BitBelow(x: nat, n: nat, k: nat)
    requires k < n && x < Pow2(n) && !BitOf(x, k)
    ensures x + Pow2(k) < Pow2(n)
  {
    var y, h := x / 2, Pow2(n - 1);
    assert y < h && x <= 2 * y + 1;
    if k > 0 {
      BitBelow(y, n - 1, k - 1);
      DoubleBelow(x, y, h, Pow2(k - 1));
    }
  }

  lemma DoubleBelow(x: nat, y: nat, h: nat, p: nat)
    requires x <= 2 * y + 1 && y + p < h
    ensures x + 2 * p < 2 * h
  {
  }

  lemma ByteFits(x: Byte, k: nat)
    requires k < 8 && !BitOf(x, k)
    ensures x + Pow2(k) < 256
  {
    assert Pow2(4) == 16 && Pow2(8) == 256;
    BitBelow(x, 8, k);
  }

  /** Adding a clear bit's weight sets that bit and leaves every other bit alone. */
  lemma {:induction false} ByteRaise(x: nat, k: nat, j: nat)
    requires !BitOf(x, k)
    ensures BitOf(x + Pow2(k), j) == (j == k || BitOf(x, j))
  {
    if k == 0 {
      assert (x + 1) / 2 == x / 2;
    } else {
      assert (x + Pow2(k)) / 2 == x / 2 + Pow2(k - 1);
      if j > 0 { ByteRaise(x / 2, k - 1, j - 1); }
    }
  }

  lemma {:induction false} ByteLower(x: nat, k: nat)
    requires BitOf(x, k)
    ensures Pow2(k) <= x
    ensures !BitOf(x - Pow2(k), k)
  {
    if k > 0 {
      ByteLower(x / 2, k - 1);
      assert (x - Pow2(k)) / 2 == x / 2 - Pow2(k - 1);
    }
  }

  /** Raising a bit changes exactly that bit. */
  lemma BitRaise(b: Block, i: nat)
    requires i < BPB && !Bit(b, i)
    ensures forall j: nat | j < BPB :: Bit(RaiseBit(b, i), j) == (j == i || Bit(b, j))
  {
    forall j: nat | j < BPB
      ensures Bit(RaiseBit(b, i), j) == (j == i || Bit(b, j))
    {
      ByteRaise(b[i / 8], i % 8, j % 8);
      if j / 8 == i / 8 {
        assert j % 8 == i % 8 ==> j == i;
      }
    }
  }

  /** Lowering a bit changes exactly that bit. */
  lemma BitLower(b: Block, i: nat)
    requires i < BPB && Bit(b, i)
    ensures forall j: nat | j < BPB :: Bit(LowerBit(b, i), j) == (j != i && Bit(b, j))
  {
    ByteLower(b[i / 8], i % 8);
    forall j: nat | j < BPB
      ensures Bit(LowerBit(b, i), j) == (j != i && Bit(b, j))
    {
      ByteRaise(b[i / 8] - Pow2(i % 8), i % 8, j % 8);
      if j / 8 == i / 8 {
        assert j % 8 == i % 8 ==> j == i;
      }
    }
  }
}
