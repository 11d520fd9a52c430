/** Disk blocks as byte strings, with the two views the kernel casts them to:
    little-endian 32-bit words (log header, indirect block) and bits (free map). */
module Blocks {

  const BSIZE: nat := 1024
  const WORDS: nat := 256
  const MAXOPBLOCKS: nat := 10   // blocks one file-system operation may log

  type byte = x: int | 0 <= x < 256
  type word = x: int | 0 <= x < 0x1_0000_0000

  /** A block's contents are wrapped, so that moving whole blocks about does not look
      inside them. */
  datatype RawBlock = RawBlock(data: seq<byte>)
  type Block = b: RawBlock | |b.data| == BSIZE witness RawBlock(seq(BSIZE, _ => 0))

  function Zero(): (b: Block)
    ensures forall i :: 0 <= i < BSIZE ==> b.data[i] == 0
  {
    RawBlock(seq(BSIZE, _ => 0))
  }

  // ---------- words ----------

  function Pow256(n: nat): (p: nat)
    ensures p >= 1
  {
    if n == 0 then 1 else 256 * Pow256(n - 1)
  }

  /** The little-endian number in the `n` bytes from `i`. */
  function GetBytes(s: seq<byte>, i: nat, n: nat): (w: nat)
    requires i + n <= |s|
    ensures w < Pow256(n)
    decreases n
  {
    if n == 0 then 0 else s[i] + 256 * GetBytes(s, i + 1, n - 1)
  }

  /** The `n` low bytes of `w` stored from `i` on, least significant first. */
  function PutBytes(s: seq<byte>, i: nat, w: nat, n: nat): (r: seq<byte>)
    requires i + n <= |s|
    ensures |r| == |s|
    ensures forall j :: 0 <= j < |s| && !(i <= j < i + n) ==> r[j] == s[j]
    decreases n
  {
    if n == 0 then s else PutBytes(s[i := w % 256], i + 1, w / 256, n - 1)
  }

  lemma {:induction false} GetBytesSame(s: seq<byte>, t: seq<byte>, i: nat, n: nat)
    requires i + n <= |s| == |t| && forall j :: i <= j < i + n ==> s[j] == t[j]
    ensures GetBytes(s, i, n) == GetBytes(t, i, n)
    decreases n
  {
    if n > 0 {
      GetBytesSame(s, t, i + 1, n - 1);
    }
  }

  lemma {:induction false} GetPutBytes(s: seq<byte>, i: nat, w: nat, n: nat)
    requires i + n <= |s| && w < Pow256(n)
    ensures GetBytes(PutBytes(s, i, w, n), i, n) == w
    decreases n
  {
    if n > 0 {
      GetPutBytes(s[i := w % 256], i + 1, w / 256, n - 1);
    }
  }

  function GetWord(b: Block, i: nat): word
    requires i < WORDS
  {
    assert Pow256(4) == 0x1_0000_0000;
    GetBytes(b.data, 4 * i, 4)
  }

  function PutWord(b: Block, i: nat, w: word): Block
    requires i < WORDS
  {
    RawBlock(PutBytes(b.data, 4 * i, w, 4))
  }

  /** A stored word reads back, and storing it disturbs no other word. */
  lemma GetPutWord(b: Block, i: nat, w: word)
    requires i < WORDS
    ensures GetWord(PutWord(b, i, w), i) == w
    ensures forall j: nat :: j < WORDS && j != i ==> GetWord(PutWord(b, i, w), j) == GetWord(b, j)
  {
    assert Pow256(4) == 0x1_0000_0000;
    GetPutBytes(b.data, 4 * i, w, 4);
    forall j: nat | j < WORDS && j != i
      ensures GetWord(PutWord(b, i, w), j) == GetWord(b, j)
    {
      GetBytesSame(PutWord(b, i, w).data, b.data, 4 * j, 4);
    }
  }

  lemma ZeroWords()
    ensures forall j: nat :: j < WORDS ==> GetWord(Zero(), j) == 0
  {
    forall j: nat | j < WORDS ensures GetWord(Zero(), j) == 0 {
      ZeroBytes(4 * j, 4);
    }
  }

  lemma {:induction false} ZeroBytes(i: nat, n: nat)
    requires i + n <= BSIZE
    ensures GetBytes(Zero().data, i, n) == 0
    decreases n
  {
    if n > 0 {
      ZeroBytes(i + 1, n - 1);
    }
  }

  // ---------- bits ----------

  function Pow2(k: nat): (p: nat)
    ensures p >= 1
  {
    if k == 0 then 1 else 2 * Pow2(k - 1)
  }

  /** Bit `k` of `x`: `x & (1 << k)` is nonzero. */
  predicate BitOf(x: nat, k: nat) {
    if k == 0 then x % 2 == 1 else BitOf(x / 2, k - 1)
  }

  /** `x | (1 << k)` and `x & ~(1 << k)` on the clear, respectively set, bit. */
  lemma {:induction false} FlipBit(x: nat, k: nat, j: nat)
    ensures !BitOf(x, k) ==> (BitOf(x + Pow2(k), j) <==> j == k || BitOf(x, j))
    ensures BitOf(x, k) ==> x >= Pow2(k) && (BitOf(x - Pow2(k), j) <==> j != k && BitOf(x, j))
  {
    if k > 0 {
      FlipBit(x / 2, k - 1, if j > 0 then j - 1 else 0);
      assert (x + Pow2(k)) / 2 == x / 2 + Pow2(k - 1);
      assert x >= Pow2(k) ==> (x - Pow2(k)) / 2 == x / 2 - Pow2(k - 1);
    }
  }

  /** Below eight bits, setting a clear bit of a byte gives a byte. */
  lemma {:induction false} SetBitFits(x: nat, k: nat, w: nat)
    requires x < Pow2(w) && k < w && !BitOf(x, k)
    ensures x + Pow2(k) < Pow2(w)
  {
    var p, q := Pow2(w - 1), if k == 0 then 0 else Pow2(k - 1);
    assert Pow2(w) == 2 * p;
    if k > 0 {
      SetBitFits(x / 2, k - 1, w - 1);
      assert x / 2 + q < p && Pow2(k) == 2 * q;
    } else {
      assert x % 2 == 0;
    }
  }

  /** `data[i/8] & (1 << (i%8))` is nonzero. */
  predicate Bit(s: seq<byte>, i: nat)
    requires i / 8 < |s|
  {
    BitOf(s[i/8], i % 8)
  }

  /** `data[i/8] |= 1 << (i%8)`, for a bit that is clear. */
  function SetBit(s: seq<byte>, i: nat): seq<byte>
    requires i / 8 < |s| && !Bit(s, i)
  {
    assert Pow2(8) == 256;
    SetBitFits(s[i/8], i % 8, 8);
    s[i/8 := s[i/8] + Pow2(i % 8)]
  }

  /** `data[i/8] &= ~(1 << (i%8))`, for a bit that is set. */
  function ClearBit(s: seq<byte>, i: nat): seq<byte>
    requires i / 8 < |s| && Bit(s, i)
  {
    FlipBit(s[i/8], i % 8, 0);
    s[i/8 := s[i/8] - Pow2(i % 8)]
  }

  /** Setting or clearing one bit changes that bit and no other. */
  lemma BitOnly(s: seq<byte>, i: nat, j: nat)
    requires i / 8 < |s| && j / 8 < |s|
    ensures !Bit(s, i) ==> (Bit(SetBit(s, i), j) <==> i == j || Bit(s, j))
    ensures Bit(s, i) ==> (Bit(ClearBit(s, i), j) <==> i != j && Bit(s, j))
  {
    FlipBit(s[i/8], i % 8, j % 8);
    assert i == 8 * (i/8) + i % 8 && j == 8 * (j/8) + j % 8;
  }
}
