/** The one-byte block format (namespace pg::brle::detail).

    A block is tagged by its two most significant bits: 0x is a literal carrying
    7 raw bits, 10 a run of zeros and 11 a run of ones whose length, minus 8,
    is in the six low bits. A run shorter than the maximum of 71 stands for its
    bits followed by one bit of the opposite value, the stuffed terminator. */
module Format {
  import opened Bits

  type Byte = b: nat | b < 256

  // Values of the tag bits (mode::literal, mode::literal2, mode::zeros, mode::ones).
  const ModeLiteral: Byte := 0x00
  const ModeLiteral2: Byte := 0x40
  const ModeZeros: Byte := 0x80
  const ModeOnes: Byte := 0xC0

  const MaxCount: nat := 71
  const MinRun: nat := 8
  const LiteralSize: nat := 7

  /** brle8_mode: the block with its six low bits cleared (rle & 0xC0). */
  function Mode(b: Byte): (m: Byte)
    ensures m == ModeLiteral || m == ModeLiteral2 || m == ModeZeros || m == ModeOnes
    ensures m <= b < m + 64
  {
    b - b % 64
  }

  /** count: the run length stored in the six low bits, (rle & 0x3F) + 8. */
  function Count(b: Byte): (c: nat)
    ensures MinRun <= c <= MaxCount
  {
    b % 64 + MinRun
  }

  /** make_literal: a literal block carrying the 7 low bits of the buffer (buffer & 0x7F). */
  function MakeLiteral(buffer: nat): (b: Byte)
    ensures Mode(b) == ModeLiteral || Mode(b) == ModeLiteral2
    ensures FromNat(b, LiteralSize) == FromNat(buffer, LiteralSize)
  {
    FromNatMod(buffer, LiteralSize);
    buffer % 128
  }

  /** make_zeros: the block for a run of count zero bits. */
  function MakeZeros(count: nat): (b: Byte)
    requires MinRun <= count <= MaxCount
    ensures Mode(b) == ModeZeros && Count(b) == count
  {
    ModeZeros + (count - MinRun)
  }

  /** make_ones: the block for a run of count one bits. */
  function MakeOnes(count: nat): (b: Byte)
    requires MinRun <= count <= MaxCount
    ensures Mode(b) == ModeOnes && Count(b) == count
  {
    ModeOnes + (count - MinRun)
  }

  /** The run block for count bits of value v. */
  function MakeRun(v: bool, count: nat): Byte
    requires MinRun <= count <= MaxCount
  {
    if v then MakeOnes(count) else MakeZeros(count)
  }

  /** A run of count bits v, followed by the stuffed terminator !v unless the run is maximal. */
  function RunBits(v: bool, count: nat): seq<bool>
  {
    Repeat(v, count) + (if count < MaxCount then [!v] else [])
  }

  /** The bits a block stands for in the logical stream, in stream order. */
  function BlockBits(b: Byte): (bits: seq<bool>)
    ensures LiteralSize <= |bits| <= MaxCount + 1
  {
    var m := Mode(b);
    if m == ModeZeros then RunBits(false, Count(b))
    else if m == ModeOnes then RunBits(true, Count(b))
    else FromNat(b, LiteralSize)
  }

  /** The logical bit stream a block sequence stands for. */
  function Expand(blocks: seq<Byte>): (bits: seq<bool>)
    ensures LiteralSize * |blocks| <= |bits| <= (MaxCount + 1) * |blocks|
  {
    if blocks == [] then [] else BlockBits(blocks[0]) + Expand(blocks[1..])
  }

  /** count and brle8_mode invert make_zeros and make_ones: a run block is
      rebuilt from its own tag and count. */
  lemma RunBlockRebuilt(b: Byte)
    ensures Mode(b) == ModeZeros ==> MakeZeros(Count(b)) == b
    ensures Mode(b) == ModeOnes ==> MakeOnes(Count(b)) == b
  {
  }

  /** A literal block stands for the 7 low bits of the buffer it was made from. */
  lemma LiteralBits(buffer: nat)
    ensures BlockBits(MakeLiteral(buffer)) == FromNat(buffer, LiteralSize)
  {
  }

  /** Two buffers with the same 7 low bits make the same literal block. */
  lemma SameLiteral(x: nat, y: nat)
    requires FromNat(x, LiteralSize) == FromNat(y, LiteralSize)
    ensures MakeLiteral(x) == MakeLiteral(y)
  {
    var a, b := MakeLiteral(x), MakeLiteral(y);
    assert Pow2(LiteralSize) == 128;
    ToNatFromNat(a, LiteralSize);
    ToNatFromNat(b, LiteralSize);
  }

  /** A run block stands for its run and, below the maximum, the terminator. */
  lemma RunBlockBits(v: bool, count: nat)
    requires MinRun <= count <= MaxCount
    ensures BlockBits(MakeRun(v, count)) == RunBits(v, count)
  {
  }

  lemma {:induction false} ExpandAppend(a: seq<Byte>, b: seq<Byte>)
    ensures Expand(a + b) == Expand(a) + Expand(b)
  {
    if a == [] {
      assert a + b == b;
    } else {
      assert (a + b)[1..] == a[1..] + b;
      ExpandAppend(a[1..], b);
    }
  }
}
