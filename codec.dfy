/** The codec as a whole: decode undoes encode, the source's own test vectors,
    and the input on which the decoder as written does not. */
module Codec {
  import opened Bits
  import opened Format
  import opened Words
  import opened Encoder
  import opened Decoder

  /** Expanding the blocks of a stream of whole words gives back the words:
      the padding the encoder adds is shorter than any word width. */
  lemma RoundTrip(w: nat, ws: seq<nat>)
    requires IsWidth(w) && AreWords(w, ws)
    ensures Pack(w, Expand(EncodeBits(Stream(w, ws)))) == ws
  {
    var s := Stream(w, ws);
    EncodeBitsExpand(s);
    PackPadded(w, ws, Expand(EncodeBits(s)));
  }

  /** decode(encode(ws)) == ws, with the corrected decoder. */
  method EncodeDecode(w: nat, ws: seq<nat>) returns (back: seq<nat>)
    requires IsWidth(w) && AreWords(w, ws)
    ensures back == ws
  {
    var blocks := Encode(w, ws);
    back := Decode(w, blocks);
    RoundTrip(w, ws);
  }

  /** The input of the source's usage example, as 8-bit words. */
  const ExampleWords: seq<nat> := [0xFF, 0xFF, 0x0F, 0, 0, 0, 0, 0xAA]

  /** The three blocks the usage example shows for it. */
  const ExampleBlocks: seq<Byte> := [0xCC, 0x9C, 0x2A]

  /** Its stream: 20 ones, a zero, 36 zeros, a one, then 010101. */
  lemma ExampleStream()
    ensures Stream(8, ExampleWords) ==
      Repeat(true, 20) + [false] + (Repeat(false, 36) + [true] + [false, true, false, true, false, true])
  {
    var zeros := Repeat(false, 8);
    var tail := [false, true, false, true, false, true];
    var last := [false] + ([true] + tail);
    var z := zeros + (zeros + (zeros + (zeros + last)));
    var runs := Repeat(false, 36) + [true] + tail;
    ExampleStreamWords();
    OnesHead(z);
    ZerosTail([true] + tail);
    AppendAssoc(Repeat(false, 36), [true], tail);
    assert Repeat(false, 4) + z == [false] + runs;
    AppendAssoc(Repeat(true, 20), [false], runs);
  }

  /** The ones of words 0 to 2. */
  lemma OnesHead(z: seq<bool>)
    ensures Repeat(true, 8) + (Repeat(true, 8) + ((Repeat(true, 4) + Repeat(false, 4)) + z))
      == Repeat(true, 20) + (Repeat(false, 4) + z)
  {
    var ones := Repeat(true, 8);
    calc {
      ones + (ones + ((Repeat(true, 4) + Repeat(false, 4)) + z));
      { AppendAssoc(ones, ones, (Repeat(true, 4) + Repeat(false, 4)) + z); RepeatAppend(true, 8, 8); }
      Repeat(true, 16) + ((Repeat(true, 4) + Repeat(false, 4)) + z);
      { AppendAssoc(Repeat(true, 4), Repeat(false, 4), z); }
      Repeat(true, 16) + (Repeat(true, 4) + (Repeat(false, 4) + z));
      { AppendAssoc(Repeat(true, 16), Repeat(true, 4), Repeat(false, 4) + z); RepeatAppend(true, 16, 4); }
      Repeat(true, 20) + (Repeat(false, 4) + z);
    }
  }

  /** The example's stream, word by word. */
  lemma ExampleStreamWords()
    ensures Stream(8, ExampleWords) == Repeat(true, 8) + (Repeat(true, 8) + ((Repeat(true, 4) + Repeat(false, 4)) +
      (Repeat(false, 8) + (Repeat(false, 8) + (Repeat(false, 8) + (Repeat(false, 8) +
      ([false] + ([true] + [false, true, false, true, false, true]))))))))
  {
    StreamWords(8, ExampleWords);
    ExampleBytes();
  }

  /** The bits of the example's bytes, least significant first. */
  lemma ExampleBytes()
    ensures FromNat(0xFF, 8) == Repeat(true, 8)
    ensures FromNat(0x0F, 8) == Repeat(true, 4) + Repeat(false, 4)
    ensures FromNat(0, 8) == Repeat(false, 8)
    ensures FromNat(0xAA, 8) == [false] + ([true] + [false, true, false, true, false, true])
  {
    FromNatZero(8);
    ByteFF();
    Byte0F();
    ByteAA();
  }

  lemma ByteFF()
    ensures FromNat(0xFF, 8) == Repeat(true, 8)
  {
    assert FromNat(0xFF, 8) == [true, true, true, true, true, true, true, true];
  }

  lemma Byte0F()
    ensures FromNat(0x0F, 8) == Repeat(true, 4) + Repeat(false, 4)
  {
    Nibbles();
    assert FromNat(0x0F, 8) == [true, true, true, true, false, false, false, false];
  }

  lemma Nibbles()
    ensures Repeat(true, 4) + Repeat(false, 4) == [true, true, true, true, false, false, false, false]
  {
  }

  lemma ByteAA()
    ensures FromNat(0xAA, 8) == [false] + ([true] + [false, true, false, true, false, true])
  {
  }

  /** The zeros of words 2 to 6 and bit 0 of the last word. */
  lemma ZerosTail(rest: seq<bool>)
    ensures Repeat(false, 4) + (Repeat(false, 8) + (Repeat(false, 8) + (Repeat(false, 8) + (Repeat(false, 8) +
      ([false] + rest))))) == [false] + (Repeat(false, 36) + rest)
  {
    var zeros := Repeat(false, 8);
    var last := [false] + rest;
    calc {
      Repeat(false, 4) + (zeros + (zeros + (zeros + (zeros + last))));
      { RepeatAppend(false, 8, 8); AppendAssoc(zeros, zeros, zeros + (zeros + last));
        AppendAssoc(zeros, zeros, last); }
      Repeat(false, 4) + (Repeat(false, 16) + (Repeat(false, 16) + last));
      { RepeatAppend(false, 16, 16); AppendAssoc(Repeat(false, 16), Repeat(false, 16), last); }
      Repeat(false, 4) + (Repeat(false, 32) + last);
      { RepeatAppend(false, 4, 32); AppendAssoc(Repeat(false, 4), Repeat(false, 32), last); }
      Repeat(false, 36) + last;
      { AppendAssoc(Repeat(false, 36), [false], rest); }
      (Repeat(false, 36) + [false]) + rest;
      { assert Repeat(false, 36) + [false] == [false] + Repeat(false, 36); }
      ([false] + Repeat(false, 36)) + rest;
      [false] + (Repeat(false, 36) + rest);
    }
  }

  lemma RepeatAppend(v: bool, a: nat, b: nat)
    ensures Repeat(v, a) + Repeat(v, b) == Repeat(v, a + b)
  {
  }

  /** The stream of eight words, one word at a time. */
  lemma StreamWords(w: nat, ws: seq<nat>)
    requires |ws| == 8
    ensures Stream(w, ws) == FromNat(ws[0], w) + (FromNat(ws[1], w) + (FromNat(ws[2], w) + (FromNat(ws[3], w) +
      (FromNat(ws[4], w) + (FromNat(ws[5], w) + (FromNat(ws[6], w) + FromNat(ws[7], w)))))))
  {
    assert ws[0..] == ws && ws[8..] == [];
    StreamAt(w, ws, 0);
    StreamAt(w, ws, 1);
    StreamAt(w, ws, 2);
    StreamAt(w, ws, 3);
    StreamAt(w, ws, 4);
    StreamAt(w, ws, 5);
    StreamAt(w, ws, 6);
    StreamAt(w, ws, 7);
    assert FromNat(ws[7], w) + Stream(w, ws[8..]) == FromNat(ws[7], w);
  }

  /** encode writes exactly the three blocks of the usage example. */
  lemma ExampleEncode()
    ensures EncodeBits(Stream(8, ExampleWords)) == ExampleBlocks
  {
    var tail := [false, true, false, true, false, true];
    ExampleStream();
    StuffedRun(true, 20, Repeat(false, 36) + [true] + tail);
    StuffedRun(false, 36, tail);
    ExampleTail();
  }

  /** The last six bits of the example become one literal. */
  lemma ExampleTail()
    ensures EncodeBits([false, true, false, true, false, true]) == [0x2A]
  {
    var tail := [false, true, false, true, false, true];
    assert tail[6..] == [] && tail[..6] == tail;
    TailValue();
    LiteralStep(tail, 6);
  }

  lemma TailValue()
    ensures ToNat([false, true, false, true, false, true]) == 0x2A
  {
  }

  /** The usage example decodes back to its words. */
  lemma ExampleDecode()
    ensures Pack(8, Expand(ExampleBlocks)) == ExampleWords
  {
    ExampleEncode();
    assert AreWords(8, ExampleWords) by {
      assert Pow2(8) == 256;
    }
    RoundTrip(8, ExampleWords);
  }

  /** decode as written also gets the example right: its two runs end 5 and 2
      bits into a word, so no stray refill happens. */
  lemma ExampleAsWritten()
    ensures DecodeAsWritten(8, ExampleBlocks) == ExampleWords
  {
    var blocks := ExampleBlocks;
    assert |BlockBits(blocks[0])| == 21 && |BlockBits(blocks[1])| == 37;
    assert blocks[1..][1..] == [blocks[2]] && [blocks[2]][1..] == [];
    assert NoStray(8, 2, [blocks[2]]);
    assert NoStray(8, 5, blocks[1..]);
    assert NoStray(8, 0, blocks);
    AsWrittenClean(8, blocks);
    ExampleDecode();
  }

  /** Its 65 expanded bits make 8 words of 8 bits or 4 words of 16 bits, with
      the corrected decoder and with decode as written. */
  lemma ExampleCounts()
    ensures |Pack(8, Expand(ExampleBlocks))| == 8 && |Pack(16, Expand(ExampleBlocks))| == 4
    ensures |DecodeAsWritten(8, ExampleBlocks)| == 8 && |DecodeAsWritten(16, ExampleBlocks)| == 4
  {
    ExampleLength();
    WordCounts(ExampleBlocks);
  }

  lemma WordCounts(blocks: seq<Byte>)
    requires |Expand(blocks)| == 65
    ensures |Pack(8, Expand(blocks))| == 8 && |Pack(16, Expand(blocks))| == 4
    ensures |DecodeAsWritten(8, blocks)| == 8 && |DecodeAsWritten(16, blocks)| == 4
  {
    PackLength(8, Expand(blocks));
    PackLength(16, Expand(blocks));
    AsWrittenCount(8, blocks);
    AsWrittenCount(16, blocks);
  }

  lemma ExampleLength()
    ensures |Expand(ExampleBlocks)| == 65
  {
    var b := ExampleBlocks;
    assert Expand(b) == BlockBits(b[0]) + Expand(b[1..]);
    assert Expand(b[1..]) == BlockBits(b[1]) + Expand(b[2..]);
    assert Expand(b[2..]) == BlockBits(b[2]) + Expand([]);
    assert b[2..][1..] == [];
    assert Count(0xCC) == 20 && Count(0x9C) == 36;
  }

  // The input of the source's "weird" test, on which decode as written fails.

  const WeirdWords: seq<nat> := [0, 0, 0x80, 0x40]
  const WeirdBlocks: seq<Byte> := [0x8F, 0x40, 0x00]

  /** encode writes a run of 23 zeros with its terminator, then two literals. */
  lemma WeirdEncode()
    ensures EncodeBits(Stream(8, WeirdWords)) == WeirdBlocks
  {
    var rest := [false, false, false, false, false, false, true, false];
    WeirdStream();
    StuffedRun(false, 23, rest);
    WeirdTail();
  }

  /** Its stream: 23 zeros, a one, then 00000010. */
  lemma WeirdStream()
    ensures Stream(8, WeirdWords) == Repeat(false, 23) + [true] + [false, false, false, false, false, false, true, false]
  {
    var ws := WeirdWords;
    var rest := [false, false, false, false, false, false, true, false];
    assert ws[0..] == ws && ws[4..] == [];
    StreamAt(8, ws, 0);
    StreamAt(8, ws, 1);
    StreamAt(8, ws, 2);
    StreamAt(8, ws, 3);
    FromNatZero(8);
    Byte80();
    Byte40();
    calc {
      Stream(8, ws);
      Repeat(false, 8) + (Repeat(false, 8) + ((Repeat(false, 7) + [true]) + rest));
      { RepeatAppend(false, 8, 8); AppendAssoc(Repeat(false, 8), Repeat(false, 8), (Repeat(false, 7) + [true]) + rest); }
      Repeat(false, 16) + ((Repeat(false, 7) + [true]) + rest);
      { AppendAssoc(Repeat(false, 16), Repeat(false, 7) + [true], rest);
        AppendAssoc(Repeat(false, 16), Repeat(false, 7), [true]); RepeatAppend(false, 16, 7); }
      Repeat(false, 23) + [true] + rest;
    }
  }

  lemma Byte80()
    ensures FromNat(0x80, 8) == Repeat(false, 7) + [true]
  {
    assert FromNat(0x80, 8) == [false, false, false, false, false, false, false, true];
  }

  lemma Byte40()
    ensures FromNat(0x40, 8) == [false, false, false, false, false, false, true, false]
  {
  }

  /** The 8 bits after the run: a literal of 7, then a literal of the last one. */
  lemma WeirdTail()
    ensures EncodeBits([false, false, false, false, false, false, true, false]) == [0x40, 0x00]
  {
    var rest := [false, false, false, false, false, false, true, false];
    assert rest == Repeat(false, 6) + [true, false];
    RunLengthPrefix(false, 6, [true, false]);
    assert rest[..7] == [false, false, false, false, false, false, true] && rest[7..] == [false];
    WeirdLiteralValue();
    TwoLiterals(rest);
  }

  /** Eight bits without a run longer than 7 become two literals. */
  lemma TwoLiterals(s: seq<bool>)
    requires |s| == 8 && RunLength(s, false) <= 6 && s[0] == false
    ensures EncodeBits(s) == [MakeLiteral(ToNat(s[..7])), MakeLiteral(ToNat(s[7..]))]
  {
    LiteralStep(s, 7);
    var t := s[7..];
    LiteralStep(t, 1);
    assert t[..1] == t && t[1..] == [];
  }

  lemma WeirdLiteralValue()
    ensures ToNat([false, false, false, false, false, false, true]) == 0x40 && ToNat([false]) == 0
  {
  }

  /** The weird input round trip through the corrected decoder. */
  lemma WeirdDecode()
    ensures Pack(8, Expand(WeirdBlocks)) == WeirdWords
  {
    WeirdEncode();
    RoundTrip(8, WeirdWords);
  }

  /** As written, decode returns 0x41 for the last word: the tag bit of the
      run block 0x8F, left in the register after the run's terminator completed
      the third word, is or-ed into the literal that follows. */
  lemma WeirdAsWritten()
    ensures DecodeAsWritten(8, WeirdBlocks) == [0, 0, 0x80, 0x41]
  {
    WeirdSteps(8, WeirdBlocks);
  }

  /** The encoder's output for the weird input does not decode back as written. */
  lemma WeirdRoundTripAsWritten()
    ensures DecodeAsWritten(8, EncodeBits(Stream(8, WeirdWords))) != WeirdWords
  {
    WeirdEncode();
    WeirdAsWritten();
    assert WeirdWords[3] != 0x41;
  }

  /** The blocks 0x8F, 0x40, 0x00 decoded as written, block by block. */
  lemma WeirdSteps(w: nat, blocks: seq<Byte>)
    requires w == 8 && |blocks| == 3 && blocks[0] == 0x8F && blocks[1] == 0x40 && blocks[2] == 0x00
    ensures DecodeAsWritten(w, blocks) == [0, 0, 0x80, 0x41]
  {
    var z, one, x := Repeat(false, w), FromNat(1, w), FromNat(0x41, w);
    RunStepAsWritten(w, z, blocks[0]);
    LiteralStepAsWritten(w, one, blocks[1], x);
    ZeroLiteralStep(w, x, blocks[2]);
    AsWrittenSteps(w, blocks, z, one, x);
  }

  /** The three steps one after the other. */
  lemma AsWrittenSteps(w: nat, blocks: seq<Byte>, z: seq<bool>, one: seq<bool>, x: seq<bool>)
    requires w == 8 && |blocks| == 3 && z == Repeat(false, w) && |one| == |x| == w
    requires Step(w, z, 0, blocks[0], AsWritten) == ([0, 0, 0x80], one, 0)
    requires Step(w, one, 0, blocks[1], AsWritten) == ([], x, 7)
    requires Step(w, x, 7, blocks[2], AsWritten).0 == [0x41] && Step(w, x, 7, blocks[2], AsWritten).2 == 6
    ensures DecodeAsWritten(w, blocks) == [0, 0, 0x80, 0x41]
  {
    var s := Step(w, x, 7, blocks[2], AsWritten);
    var r3 := Run(w, blocks[3..], s.1, s.2, AsWritten);
    assert r3.0 == [];
    var r2 := Run(w, blocks[2..], x, 7, AsWritten);
    assert blocks[2..][1..] == blocks[3..];
    assert r2.0 == [0x41] + [];
    var r1 := Run(w, blocks[1..], one, 0, AsWritten);
    assert blocks[1..][1..] == blocks[2..];
    assert r1.0 == [] + r2.0;
    assert Run(w, blocks, z, 0, AsWritten).0 == [0, 0, 0x80] + r1.0;
  }

  /** Block 0x8F, 23 zeros and a one: the words 0 and 0 while draining, 0x80
      when the terminator completes the third word, then the stray spill. */
  lemma RunStepAsWritten(w: nat, z: seq<bool>, b: Byte)
    requires w == 8 && z == Repeat(false, w) && b == 0x8F
    ensures Step(w, z, 0, b, AsWritten) == ([0, 0, 0x80], FromNat(1, w), 0)
  {
    assert Mode(b) == ModeZeros && Count(b) == 23;
    ZerosDrain(w, z);
    var s := ZerosBranch(w, z, 0, b);
    assert s == ([0, 0], Or(z, Shl(FromNat(1, w), 7)), 8);
    MarkBit(w, z);
    Register(w, 0x80);
    StraySpill(w, b);
    assert WordCheck(w, b, s, AsWritten) == ([0, 0] + [0x80], FromNat(1, w), 0);
    assert [0, 0] + [0x80] == [0, 0, 0x80];
  }

  /** 23 zeros write two zero words and leave 7 pending. */
  lemma ZerosDrain(w: nat, z: seq<bool>)
    requires w == 8 && z == Repeat(false, w)
    ensures DrainLoop(w, false, z, 23) == ([0, 0], z, 7)
  {
    ToNatZeros(w);
    var d7 := DrainLoop(w, false, z, 7);
    assert d7 == ([], z, 7);
    var d15 := DrainLoop(w, false, z, 15);
    assert d15 == ([0] + d7.0, z, 7);
    assert [0] + d7.0 == [0];
    var d23 := DrainLoop(w, false, z, 23);
    assert d23 == ([0] + d15.0, z, 7);
    assert [0] + [0] == [0, 0];
  }

  /** one << 7 on an empty register: bit 7 set. */
  lemma MarkBit(w: nat, z: seq<bool>)
    requires w == 8 && z == Repeat(false, w)
    ensures Or(z, Shl(FromNat(1, w), 7)) == FromNat(0x80, w)
  {
    Byte01();
    Byte80();
    OrShl(z, FromNat(1, w), 7, FromNat(0x80, w));
  }

  /** A byte value read back from its register. */
  lemma Register(w: nat, n: nat)
    requires w == 8 && n < 256
    ensures ToNat(FromNat(n, w)) == n
  {
    assert Pow2(8) == 256;
    ToNatFromNat(n, w);
  }

  /** Block 0x40 is or-ed onto the stray bit. */
  lemma LiteralStepAsWritten(w: nat, one: seq<bool>, b: Byte, x: seq<bool>)
    requires w == 8 && one == FromNat(1, w) && b == 0x40 && x == FromNat(0x41, w)
    ensures Step(w, one, 0, b, AsWritten) == ([], x, 7)
  {
    assert Mode(b) == ModeLiteral2;
    StrayLiteral(w, one, b, x);
    var s := LiteralBranch(w, one, 0, b);
    assert s == ([], x, 7);
    assert WordCheck(w, b, s, AsWritten) == s;
  }

  /** 1 | (0x40 << 0) == 0x41. */
  lemma StrayLiteral(w: nat, one: seq<bool>, b: Byte, x: seq<bool>)
    requires w == 8 && one == FromNat(1, w) && b == 0x40 && x == FromNat(0x41, w)
    ensures Or(one, Shl(FromNat(b, w), 0)) == x
  {
    Byte01();
    Byte40();
    Byte41();
    OrShl(one, FromNat(b, w), 0, x);
  }

  /** Block 0x00 completes the fourth word, whose value is then 0x41. */
  lemma ZeroLiteralStep(w: nat, x: seq<bool>, b: Byte)
    requires w == 8 && x == FromNat(0x41, w) && b == 0
    ensures Step(w, x, 7, b, AsWritten).0 == [0x41] && Step(w, x, 7, b, AsWritten).2 == 6
  {
    ZeroLiteralWord(w, x, b);
    assert Mode(b) == ModeLiteral;
    LiteralSpills(w, x, 7, b);
    assert 7 + LiteralSize - w == 6;
  }

  lemma ZeroLiteralWord(w: nat, x: seq<bool>, b: Byte)
    requires w == 8 && x == FromNat(0x41, w) && b == 0
    ensures Step(w, x, 7, b, AsWritten).0 == [0x41]
  {
    assert Mode(b) == ModeLiteral;
    ZeroLiteral(w, x, b);
    Register(w, 0x41);
    assert ToNat(Or(x, Shl(FromNat(b, w), 7))) == 0x41;
    LiteralSpills(w, x, 7, b);
  }

  /** A literal that completes a word, with decode as written: the word is the
      register's value and bit_count drops by w. */
  lemma LiteralSpills(w: nat, x: seq<bool>, c: nat, b: Byte)
    requires IsWidth(w) && |x| == w && c < w <= c + LiteralSize
    requires Mode(b) != ModeZeros && Mode(b) != ModeOnes
    ensures Step(w, x, c, b, AsWritten).0 == [ToNat(Or(x, Shl(FromNat(b, w), c)))]
    ensures Step(w, x, c, b, AsWritten).2 == c + LiteralSize - w
  {
  }

  /** x | (0 << 7) == x. */
  lemma ZeroLiteral(w: nat, x: seq<bool>, b: Byte)
    requires |x| == w && b == 0
    ensures Or(x, Shl(FromNat(b, w), 7)) == x
  {
    FromNatZero(w);
    OrShl(x, Repeat(false, w), 7, x);
  }

  /** x | (y << k), bit by bit. */
  lemma OrShl(x: seq<bool>, y: seq<bool>, k: nat, r: seq<bool>)
    requires |x| == |y| == |r|
    requires forall j :: 0 <= j < |x| ==> r[j] == (x[j] || (k <= j && y[j - k]))
    ensures Or(x, Shl(y, k)) == r
  {
  }

  lemma Byte01()
    ensures FromNat(1, 8) == [true, false, false, false, false, false, false, false]
  {
  }

  lemma Byte41()
    ensures FromNat(0x41, 8) == [true, false, false, false, false, false, true, false]
  {
  }
}
