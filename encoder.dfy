/** The encoder (pg::brle::encode).

    EncodeBits states the encoder's policy directly on the logical bit stream:
    a run of 8 or more equal bits becomes a run block (at most 71 bits per
    block, the bit after a shorter run being consumed as its terminator), and
    anything else becomes a 7-bit literal. The method Encode is the source's
    single-pass state machine over a W-bit carry register and is proved to emit
    exactly EncodeBits of the stream of its input words. */
module Encoder {
  import opened Bits
  import opened Format
  import opened Words

  /** The blocks the encoder emits for the stream s, starting in state init. */
  function EncodeBits(s: seq<bool>): seq<Byte>
    decreases |s|, 1
  {
    if s == [] then []
    else if RunLength(s, false) > LiteralSize then RunBlocks(false, 0, s)
    else if RunLength(s, true) > LiteralSize then RunBlocks(true, 0, s)
    else
      var n := Min(LiteralSize, |s|);
      [MakeLiteral(ToNat(s[..n]))] + EncodeBits(s[n..])
  }

  /** The blocks emitted in a run of v of which rlen bits are already consumed,
      when r is the rest of the stream. */
  function RunBlocks(v: bool, rlen: nat, r: seq<bool>): seq<Byte>
    requires rlen < MaxCount && MinRun <= rlen + RunLength(r, v)
    decreases |r|, 0
  {
    var n := Min(MaxCount - rlen, RunLength(r, v));
    if rlen + n == MaxCount then [MakeRun(v, MaxCount)] + EncodeBits(r[n..])
    else if n == |r| then [MakeRun(v, rlen + n)]
    else [MakeRun(v, rlen + n)] + EncodeBits(r[n + 1..])
  }

  /** e begins with s and adds fewer than 7 bits of padding. */
  ghost predicate Extends(e: seq<bool>, s: seq<bool>)
  {
    |s| <= |e| < |s| + LiteralSize && e[..|s|] == s
  }

  /** Expanding the encoder's blocks gives back its stream, followed by at most
      6 padding bits (the zero bits above the last literal, or the terminator
      the decoder adds after a run still pending at the end). */
  lemma {:induction false} EncodeBitsExpand(s: seq<bool>)
    ensures Extends(Expand(EncodeBits(s)), s)
    decreases |s|, 1
  {
    if s == [] {
    } else if RunLength(s, false) > LiteralSize {
      RunBlocksExpand(false, 0, s);
      assert Repeat(false, 0) + s == s;
    } else if RunLength(s, true) > LiteralSize {
      RunBlocksExpand(true, 0, s);
      assert Repeat(true, 0) + s == s;
    } else {
      var n := Min(LiteralSize, |s|);
      EncodeBitsExpand(s[n..]);
      LiteralExpand(s, n);
    }
  }

  lemma LiteralExpand(s: seq<bool>, n: nat)
    requires s != [] && RunLength(s, false) <= LiteralSize && RunLength(s, true) <= LiteralSize
    requires n == Min(LiteralSize, |s|)
    requires Extends(Expand(EncodeBits(s[n..])), s[n..])
    ensures Extends(Expand(EncodeBits(s)), s)
  {
    LiteralStep(s, n);
    LiteralExtends(EncodeBits(s), s, n, EncodeBits(s[n..]));
  }

  lemma LiteralStep(s: seq<bool>, n: nat)
    requires s != [] && RunLength(s, false) <= LiteralSize && RunLength(s, true) <= LiteralSize
    requires n == Min(LiteralSize, |s|)
    ensures EncodeBits(s) == [MakeLiteral(ToNat(s[..n]))] + EncodeBits(s[n..])
  {
  }

  lemma LiteralExtends(blocks: seq<Byte>, s: seq<bool>, n: nat, rest: seq<Byte>)
    requires s != [] && n == Min(LiteralSize, |s|) && blocks == [MakeLiteral(ToNat(s[..n]))] + rest
    requires n < LiteralSize ==> rest == []
    requires Extends(Expand(rest), s[n..])
    ensures Extends(Expand(blocks), s)
  {
    if n < LiteralSize {
      assert s[..n] == s;
      ShortLiteralExtends(blocks, s);
    } else {
      FullLiteralExtends(blocks, s, rest);
    }
  }

  /** A literal of 7 stream bits followed by the blocks of the rest. */
  lemma FullLiteralExtends(blocks: seq<Byte>, s: seq<bool>, rest: seq<Byte>)
    requires LiteralSize <= |s| && blocks == [MakeLiteral(ToNat(s[..LiteralSize]))] + rest
    requires Extends(Expand(rest), s[LiteralSize..])
    ensures Extends(Expand(blocks), s)
  {
    var c := s[..LiteralSize];
    LiteralBlockBits(c);
    assert c + Repeat(false, 0) == c;
    SplitAt(s, LiteralSize);
    ExtendsBlock(blocks, MakeLiteral(ToNat(c)), rest, s, c, s[LiteralSize..]);
  }

  lemma SplitAt<T>(s: seq<T>, n: nat)
    requires n <= |s|
    ensures s == s[..n] + s[n..]
  {
  }

  /** The last literal of a stream whose tail is shorter than 7 bits. */
  lemma ShortLiteralExtends(blocks: seq<Byte>, s: seq<bool>)
    requires 0 < |s| < LiteralSize && blocks == [MakeLiteral(ToNat(s))]
    ensures Extends(Expand(blocks), s)
  {
    var e := s + Repeat(false, LiteralSize - |s|);
    LiteralBlockBits(s);
    assert Expand(blocks) == BlockBits(blocks[0]) + Expand(blocks[1..]);
    assert blocks[1..] == [];
    assert Expand(blocks) == e;
    assert e[..|s|] == s;
  }

  /** A literal made from up to 7 stream bits stands for them, padded with zeros. */
  lemma LiteralBlockBits(c: seq<bool>)
    requires |c| <= LiteralSize
    ensures BlockBits(MakeLiteral(ToNat(c))) == c + Repeat(false, LiteralSize - |c|)
  {
    LiteralBits(ToNat(c));
    FromNatPadded(c, LiteralSize);
  }

  lemma {:induction false} RunBlocksExpand(v: bool, rlen: nat, r: seq<bool>)
    requires rlen < MaxCount && MinRun <= rlen + RunLength(r, v)
    ensures Extends(Expand(RunBlocks(v, rlen, r)), Repeat(v, rlen) + r)
    decreases |r|, 0
  {
    var n := Min(MaxCount - rlen, RunLength(r, v));
    if rlen + n == MaxCount {
      EncodeBitsExpand(r[n..]);
      MaxRunExpand(v, rlen, r, n);
    } else if n == |r| {
      LastRunExpand(v, rlen, r);
    } else {
      EncodeBitsExpand(r[n + 1..]);
      TerminatedRunExpand(v, rlen, r, n);
    }
  }

  lemma MaxRunExpand(v: bool, rlen: nat, r: seq<bool>, n: nat)
    requires rlen < MaxCount && MinRun <= rlen + RunLength(r, v)
    requires n == Min(MaxCount - rlen, RunLength(r, v)) && rlen + n == MaxCount
    requires Extends(Expand(EncodeBits(r[n..])), r[n..])
    ensures Extends(Expand(RunBlocks(v, rlen, r)), Repeat(v, rlen) + r)
  {
    RunBlockBits(v, MaxCount);
    FullRun(v, rlen, r, n);
    MaxRunSplit(v, rlen, r, n);
    ExtendsBlock(RunBlocks(v, rlen, r), MakeRun(v, MaxCount), EncodeBits(r[n..]),
                 Repeat(v, rlen) + r, RunBits(v, MaxCount), r[n..]);
  }

  lemma MaxRunSplit(v: bool, rlen: nat, r: seq<bool>, n: nat)
    requires n <= RunLength(r, v) && rlen + n == MaxCount
    ensures Repeat(v, rlen) + r == RunBits(v, MaxCount) + r[n..]
  {
    RepeatPrefix(v, rlen, r, n, MaxCount);
    assert r == r[..n] + r[n..];
    AppendAssoc(Repeat(v, rlen), r[..n], r[n..]);
    assert RunBits(v, MaxCount) == Repeat(v, MaxCount);
  }

  lemma LastRunExpand(v: bool, rlen: nat, r: seq<bool>)
    requires rlen < MaxCount && MinRun <= rlen + RunLength(r, v)
    requires rlen + |r| < MaxCount && RunLength(r, v) == |r|
    ensures Extends(Expand(RunBlocks(v, rlen, r)), Repeat(v, rlen) + r)
  {
    var total := rlen + |r|;
    var b := MakeRun(v, total);
    RunBlockBits(v, total);
    RepeatPrefix(v, rlen, r, |r|, total);
    LastRunBlocks(v, rlen, r, total);
    assert r[..|r|] == r;
    assert Expand([b]) == BlockBits(b);
  }

  lemma TerminatedRunExpand(v: bool, rlen: nat, r: seq<bool>, n: nat)
    requires rlen < MaxCount && MinRun <= rlen + RunLength(r, v)
    requires n == Min(MaxCount - rlen, RunLength(r, v)) && rlen + n < MaxCount && n < |r|
    requires Extends(Expand(EncodeBits(r[n + 1..])), r[n + 1..])
    ensures Extends(Expand(RunBlocks(v, rlen, r)), Repeat(v, rlen) + r)
  {
    var total := rlen + n;
    RunBlockBits(v, total);
    TerminatedRunBlocks(v, rlen, r, n, r[n + 1..], total);
    TerminatedRunSplit(v, rlen, r, n, total);
    ExtendsBlock(RunBlocks(v, rlen, r), MakeRun(v, total), EncodeBits(r[n + 1..]),
                 Repeat(v, rlen) + r, RunBits(v, total), r[n + 1..]);
  }

  lemma TerminatedRunBlocks(v: bool, rlen: nat, r: seq<bool>, n: nat, tail: seq<bool>, total: nat)
    requires rlen < MaxCount && MinRun <= rlen + RunLength(r, v)
    requires n == Min(MaxCount - rlen, RunLength(r, v)) && total == rlen + n < MaxCount && n < |r|
    requires tail == r[n + 1..]
    ensures RunBlocks(v, rlen, r) == [MakeRun(v, total)] + EncodeBits(tail)
  {
  }

  lemma TerminatedRunSplit(v: bool, rlen: nat, r: seq<bool>, n: nat, total: nat)
    requires n == RunLength(r, v) && n < |r| && total == rlen + n < MaxCount
    ensures Repeat(v, rlen) + r == RunBits(v, total) + r[n + 1..]
  {
    var head, tail := Repeat(v, total), r[n + 1..];
    SplitAtStop(r, v, n);
    RepeatPrefix(v, rlen, r, n, total);
    calc {
      Repeat(v, rlen) + r;
      Repeat(v, rlen) + (r[..n] + ([!v] + tail));
      { AppendAssoc(Repeat(v, rlen), r[..n], [!v] + tail); }
      head + ([!v] + tail);
      { AppendAssoc(head, [!v], tail); }
      (head + [!v]) + tail;
    }
  }

  /** A run of v that stops before the end is followed by the opposite bit. */
  lemma SplitAtStop(r: seq<bool>, v: bool, n: nat)
    requires n == RunLength(r, v) && n < |r|
    ensures r == r[..n] + ([!v] + r[n + 1..])
  {
    RunLengthStops(r, v);
    assert r[n..] == [!v] + r[n + 1..];
    assert r == r[..n] + r[n..];
  }

  lemma AppendAssoc<T>(a: seq<T>, b: seq<T>, c: seq<T>)
    ensures a + (b + c) == (a + b) + c
  {
  }

  lemma RepeatPrefix(v: bool, rlen: nat, r: seq<bool>, n: nat, total: nat)
    requires n <= RunLength(r, v) && total == rlen + n
    ensures Repeat(v, rlen) + r[..n] == Repeat(v, total)
  {
    RunLengthSpec(r, v);
  }

  /** A block in front of blocks that extend tail extends the block's bits
      in front of tail. */
  lemma ExtendsBlock(blocks: seq<Byte>, b: Byte, rest: seq<Byte>, s: seq<bool>, p: seq<bool>, tail: seq<bool>)
    requires blocks == [b] + rest && BlockBits(b) == p && s == p + tail
    requires Extends(Expand(rest), tail)
    ensures Extends(Expand(blocks), s)
  {
    ExpandAppend([b], rest);
    assert Expand([b]) == BlockBits(b);
    var e := Expand(rest);
    assert (p + e)[..|p + tail|] == p + e[..|tail|];
  }

  /** Every block but the last covers at least 7 stream bits, so a stream of
      N bits needs at most ceil(N / 7) blocks. */
  lemma {:induction false} EncodeBitsBound(s: seq<bool>)
    ensures |EncodeBits(s)| <= (|s| + LiteralSize - 1) / LiteralSize
    decreases |s|, 1
  {
    if s == [] {
    } else if RunLength(s, false) > LiteralSize {
      RunBlocksBound(false, 0, s);
    } else if RunLength(s, true) > LiteralSize {
      RunBlocksBound(true, 0, s);
    } else {
      var n := Min(LiteralSize, |s|);
      EncodeBitsBound(s[n..]);
    }
  }

  lemma {:induction false} RunBlocksBound(v: bool, rlen: nat, r: seq<bool>)
    requires rlen < MaxCount && MinRun <= rlen + RunLength(r, v)
    ensures |RunBlocks(v, rlen, r)| <= (rlen + |r| + LiteralSize - 1) / LiteralSize
    decreases |r|, 0
  {
    var n := Min(MaxCount - rlen, RunLength(r, v));
    var total := rlen + |r| + LiteralSize - 1;
    if rlen + n == MaxCount {
      EncodeBitsBound(r[n..]);
      DivMore(|r[n..]| + LiteralSize - 1, rlen + n, total);
    } else if n < |r| {
      EncodeBitsBound(r[n + 1..]);
      DivMore(|r[n + 1..]| + LiteralSize - 1, rlen + n + 1, total);
    } else {
      DivMore(LiteralSize - 1, rlen + n, total);
    }
  }

  /** Adding at least 7 to a numerator adds at least one to its quotient by 7. */
  lemma DivMore(a: nat, c: nat, total: nat)
    requires LiteralSize <= c && total == a + c
    ensures a / LiteralSize + 1 <= total / LiteralSize
  {
  }

  /** Bit stuffing: a run of n bits v, 8 <= n < 71, followed by the opposite
      bit becomes one run block, and the opposite bit is consumed with it. */
  lemma StuffedRun(v: bool, n: nat, rest: seq<bool>)
    requires MinRun <= n < MaxCount
    ensures EncodeBits(Repeat(v, n) + [!v] + rest) == [MakeRun(v, n)] + EncodeBits(rest)
  {
    var s := Repeat(v, n) + [!v] + rest;
    RunLengthPrefix(v, n, [!v] + rest);
    assert Repeat(v, n) + ([!v] + rest) == s;
    assert s[0] == v;
    assert s[n + 1..] == rest;
    TerminatedRunBlocks(v, 0, s, n, rest, n);
  }

  /** A run of n bits v followed by a bit other than v has run length n. */
  lemma {:induction false} RunLengthPrefix(v: bool, n: nat, rest: seq<bool>)
    requires rest != [] && rest[0] != v
    ensures RunLength(Repeat(v, n) + rest, v) == n
  {
    if n > 0 {
      assert (Repeat(v, n) + rest)[1..] == Repeat(v, n - 1) + rest;
      RunLengthPrefix(v, n - 1, rest);
    } else {
      assert Repeat(v, n) + rest == rest;
    }
  }

  // Run thresholds: how a stream made of one run is encoded.

  /** Up to 7 equal bits are not a run: they make one literal. */
  lemma ShortRun(v: bool, n: nat)
    requires 0 < n <= LiteralSize
    ensures EncodeBits(Repeat(v, n)) == [MakeLiteral(ToNat(Repeat(v, n)))]
  {
    var s := Repeat(v, n);
    assert s[..n] == s && s[n..] == [];
  }

  /** From 8 to 71 equal bits make one run block, with no terminator to consume. */
  lemma WholeRun(v: bool, n: nat)
    requires MinRun <= n <= MaxCount
    ensures EncodeBits(Repeat(v, n)) == [MakeRun(v, n)]
  {
    var s := Repeat(v, n);
    if n == MaxCount {
      MaxRun(v, []);
      assert s + [] == s;
    } else {
      RunLengthRepeat(v, n);
      assert s[0] == v && s[n..] == [];
    }
  }

  /** 71 equal bits make a maximal run block, which takes no terminator: the
      bits after it are encoded from state init. */
  lemma MaxRun(v: bool, rest: seq<bool>)
    ensures EncodeBits(Repeat(v, MaxCount) + rest) == [MakeRun(v, MaxCount)] + EncodeBits(rest)
  {
    var s := Repeat(v, MaxCount) + rest;
    RunLengthAtLeast(v, MaxCount, rest);
    assert s[0] == v && s[MaxCount..] == rest;
  }

  /** 72 equal bits: a maximal run block, then the last bit alone as a literal. */
  lemma PastMaxRun(v: bool)
    ensures EncodeBits(Repeat(v, MaxCount + 1)) == [MakeRun(v, MaxCount), MakeLiteral(if v then 1 else 0)]
  {
    RepeatSnoc(v, MaxCount);
    MaxRun(v, [v]);
    LoneBit(v);
  }

  lemma RepeatSnoc(v: bool, n: nat)
    ensures Repeat(v, n + 1) == Repeat(v, n) + [v]
  {
  }

  /** A single bit is a literal of value 0 or 1. */
  lemma LoneBit(v: bool)
    ensures EncodeBits([v]) == [MakeLiteral(if v then 1 else 0)]
  {
    var s := [v];
    LiteralStep(s, 1);
    assert s[..1] == s && s[1..] == [];
    assert ToNat(s) == if v then 1 else 0;
    assert EncodeBits(s[1..]) == [];
  }

  /** A run of n bits v, whatever follows, has run length at least n. */
  lemma {:induction false} RunLengthAtLeast(v: bool, n: nat, rest: seq<bool>)
    ensures RunLength(Repeat(v, n) + rest, v) >= n
  {
    if n > 0 {
      assert (Repeat(v, n) + rest)[1..] == Repeat(v, n - 1) + rest;
      RunLengthAtLeast(v, n - 1, rest);
    }
  }

  lemma {:induction false} RunLengthRepeat(v: bool, n: nat)
    ensures RunLength(Repeat(v, n), v) == n
  {
    if n > 0 {
      assert Repeat(v, n)[1..] == Repeat(v, n - 1);
      RunLengthRepeat(v, n - 1);
    }
  }

  /** Consuming k more bits of a pending run (rlen' = rlen + k bits consumed)
      changes nothing in what is emitted. */
  lemma RunSkip(v: bool, rlen: nat, r: seq<bool>, k: nat, rlen': nat)
    requires rlen' == rlen + k < MaxCount && k <= RunLength(r, v) && MinRun <= rlen + RunLength(r, v)
    ensures RunLength(r[k..], v) == RunLength(r, v) - k
    ensures RunBlocks(v, rlen, r) == RunBlocks(v, rlen', r[k..])
  {
    RunLengthDrop(r, v, k);
    var n := Min(MaxCount - rlen, RunLength(r, v));
    if rlen + n == MaxCount {
      RunSkipFull(v, rlen, r, k, n, rlen');
    } else if n == |r| {
      RunSkipLast(v, rlen, r, k, rlen');
    } else {
      RunSkipTerminated(v, rlen, r, k, n, rlen');
    }
  }

  lemma RunSkipLast(v: bool, rlen: nat, r: seq<bool>, k: nat, rlen': nat)
    requires rlen' == rlen + k <= rlen + |r| < MaxCount && MinRun <= rlen + |r|
    requires RunLength(r, v) == |r| && RunLength(r[k..], v) == |r| - k
    ensures RunBlocks(v, rlen, r) == RunBlocks(v, rlen', r[k..])
  {
    var total := rlen + |r|;
    LastRunBlocks(v, rlen, r, total);
    LastRunBlocks(v, rlen', r[k..], total);
  }

  lemma RunSkipTerminated(v: bool, rlen: nat, r: seq<bool>, k: nat, n: nat, rlen': nat)
    requires rlen' == rlen + k < MaxCount && k <= RunLength(r, v) && MinRun <= rlen + RunLength(r, v)
    requires RunLength(r[k..], v) == RunLength(r, v) - k
    requires n == Min(MaxCount - rlen, RunLength(r, v)) && rlen + n < MaxCount && n < |r|
    ensures RunBlocks(v, rlen, r) == RunBlocks(v, rlen', r[k..])
  {
    var total := rlen + n;
    SkippedTerminated(v, rlen, r, k, n, rlen', total);
    TerminatedRunBlocks(v, rlen, r, n, r[n + 1..], total);
  }

  lemma RunSkipFull(v: bool, rlen: nat, r: seq<bool>, k: nat, n: nat, rlen': nat)
    requires rlen' == rlen + k < MaxCount && k <= RunLength(r, v) && MinRun <= rlen + RunLength(r, v)
    requires RunLength(r[k..], v) == RunLength(r, v) - k
    requires n == Min(MaxCount - rlen, RunLength(r, v)) && rlen + n == MaxCount
    ensures RunBlocks(v, rlen, r) == RunBlocks(v, rlen', r[k..])
  {
    FullRun(v, rlen, r, n);
    FullRun(v, rlen', r[k..], n - k);
    assert r[k..][n - k..] == r[n..];
  }

  lemma SkippedTerminated(v: bool, rlen: nat, r: seq<bool>, k: nat, n: nat, rlen': nat, total: nat)
    requires rlen' == rlen + k < MaxCount && k <= RunLength(r, v) && MinRun <= rlen + RunLength(r, v)
    requires RunLength(r[k..], v) == RunLength(r, v) - k
    requires n == Min(MaxCount - rlen, RunLength(r, v)) && total == rlen + n < MaxCount && n < |r|
    ensures RunBlocks(v, rlen', r[k..]) == [MakeRun(v, total)] + EncodeBits(r[n + 1..])
  {
    MinShift(MaxCount - rlen, RunLength(r, v), k);
    DropDrop(r, k, n - k + 1);
    TerminatedRunBlocks(v, rlen', r[k..], n - k, r[n + 1..], total);
  }

  lemma MinShift(a: int, b: int, k: int)
    ensures Min(a - k, b - k) == Min(a, b) - k
  {
  }

  lemma DropDrop<T>(s: seq<T>, k: nat, j: nat)
    requires k + j <= |s|
    ensures s[k..][j..] == s[k + j..]
  {
  }

  lemma LastRunBlocks(v: bool, rlen: nat, r: seq<bool>, total: nat)
    requires total == rlen + |r| && MinRun <= total < MaxCount && RunLength(r, v) == |r|
    ensures RunBlocks(v, rlen, r) == [MakeRun(v, total)]
  {
  }

  lemma {:induction false} RunLengthDrop(r: seq<bool>, v: bool, k: nat)
    requires k <= RunLength(r, v)
    ensures RunLength(r[k..], v) == RunLength(r, v) - k
  {
    if k > 0 {
      RunLengthDrop(r[1..], v, k - 1);
      assert r[1..][k - 1..] == r[k..];
    }
  }

  // The carry-register state machine.

  datatype EncodeState = Init | Zeros | Ones

  /** What is still to be emitted in the given state when r is the unconsumed stream. */
  function Pending(state: EncodeState, rlen: nat, r: seq<bool>): seq<Byte>
    requires state != Init ==> MinRun <= rlen < MaxCount
  {
    match state
    case Init => EncodeBits(r)
    case Zeros => RunBlocks(false, rlen, r)
    case Ones => RunBlocks(true, rlen, r)
  }

  /** The w-bit register holding the first n bits of r, as many as fit, with
      zeros above them. */
  ghost function Buffered(r: seq<bool>, n: nat, w: nat): seq<bool>
    requires n <= |r|
  {
    seq(w, j requires 0 <= j < w => j < n && r[j])
  }

  /** The register holds the first n bits of the unconsumed stream r. */
  ghost predicate Window(bits: seq<bool>, r: seq<bool>, n: nat)
  {
    n <= |r| && bits == Buffered(r, n, |bits|)
  }

  /** Merging the next word in above the n buffered bits. */
  lemma LoadWindow(bits: seq<bool>, r: seq<bool>, n: nat, word: seq<bool>)
    requires Window(bits, r, n) && n < |bits| == |word|
    requires n + |word| <= |r| && r[n..n + |word|] == word
    ensures Window(Or(bits, Shl(word, n)), r, n + |word|)
  {
    var x := Or(bits, Shl(word, n));
    forall j | 0 <= j < |bits|
      ensures x[j] == (j < n + |word| && r[j])
    {
      if n <= j {
        assert word[j - n] == r[n..n + |word|][j - n];
      }
    }
  }

  /** The capped trailing counts of the register are the run at the head of the
      unconsumed stream, capped by the register's width and the buffered bits. */
  lemma RunInWindow(bits: seq<bool>, r: seq<bool>, n: nat, v: bool)
    requires Window(bits, r, n)
    ensures Min(RunLength(bits, v), n) == Min(RunLength(r, v), Min(|bits|, n))
  {
    var a := RunLength(bits, v);
    var m := Min(|bits|, n);
    RunLengthSpec(bits, v);
    RunLengthSpec(r, v);
    RunLengthStops(bits, v);
    RunLengthStops(r, v);
    if a < m {
      assert bits[a] == r[a];
      forall j | 0 <= j < a ensures r[j] == v {
        assert bits[j] == r[j];
      }
    } else {
      forall j | 0 <= j < m ensures r[j] == v {
        assert bits[j] == r[j];
      }
    }
  }

  /** The last loaded word moved to offset shift: input_bufferd << shift when
      shift is not negative, input_bufferd >> -shift otherwise. */
  function Realign(word: seq<bool>, shift: int): (x: seq<bool>)
    ensures |x| == |word|
  {
    if shift >= 0 then Shl(word, shift) else Shr(word, -shift)
  }

  /** After consuming count buffered bits, rest > 0 of them left, shifting the
      w-bit register right and merging the last loaded word back in at offset
      rest - w keeps the window over what is left. */
  lemma ShiftWindow(w: nat, bits: seq<bool>, s: seq<bool>, pos: nat, count: nat, rest: nat, word: seq<bool>)
    requires pos <= |s| && |bits| == w == |word| && Window(bits, s[pos..], count + rest)
    requires 0 < rest && count + rest < 2 * w
    requires w <= pos + count + rest && s[pos + count + rest - w..pos + count + rest] == word
    ensures Window(Or(Shr(bits, count), Realign(word, rest - w)), s[pos + count..], rest)
  {
    var n := count + rest;
    var x := Or(Shr(bits, count), Realign(word, rest - w));
    forall j | 0 <= j < w
      ensures x[j] == (j < rest && s[pos + count..][j])
    {
      if j + count < w {
        assert bits[j + count] == (j + count < n && s[pos..][j + count]);
      }
      if rest >= w {
        if j >= rest - w {
          assert word[j - (rest - w)] == s[pos + n - w..pos + n][j - (rest - w)];
        }
      } else if j < rest {
        assert word[j + (w - rest)] == s[pos + n - w..pos + n][j + (w - rest)];
      }
    }
  }

  /** A cleared register holds an empty window. */
  lemma EmptyWindow(w: nat, r: seq<bool>)
    ensures Window(Repeat(false, w), r, 0)
  {
  }

  /** The literal made from the register is the literal of the next (up to) 7
      stream bits. */
  lemma LiteralInWindow(bits: seq<bool>, r: seq<bool>, n: nat)
    requires Window(bits, r, n) && LiteralSize <= |bits|
    requires LiteralSize <= n || n == |r|
    ensures MakeLiteral(ToNat(bits)) == MakeLiteral(ToNat(r[..Min(LiteralSize, |r|)]))
  {
    var k := Min(LiteralSize, |r|);
    var c := r[..k];
    var padded := c + Repeat(false, LiteralSize - k);
    WindowLow(bits, r, n);
    FromNatToNat(bits, LiteralSize);
    ToNatPadded(c, LiteralSize - k);
    FromNatToNat(padded, LiteralSize);
    SameLiteral(ToNat(bits), ToNat(c));
  }

  /** The 7 low bits of the register: the next (up to) 7 bits, then zeros. */
  lemma WindowLow(bits: seq<bool>, r: seq<bool>, n: nat)
    requires Window(bits, r, n) && LiteralSize <= |bits|
    requires LiteralSize <= n || n == |r|
    ensures bits[..LiteralSize] == r[..Min(LiteralSize, |r|)] + Repeat(false, LiteralSize - Min(LiteralSize, |r|))
  {
    var k := Min(LiteralSize, |r|);
    var x, y := bits[..LiteralSize], r[..k] + Repeat(false, LiteralSize - k);
    forall j | 0 <= j < LiteralSize
      ensures x[j] == y[j]
    {
      if j < k {
        assert y[j] == r[j];
      }
    }
  }

  // What the encoder's policy emits at each decision of the state machine.

  /** A run of k > 7 bits at the head of the stream starts a run block. */
  lemma StartRun(v: bool, r: seq<bool>, k: nat)
    requires MinRun <= k < MaxCount && k <= RunLength(r, v)
    ensures EncodeBits(r) == RunBlocks(v, k, r[k..])
  {
    OpensRun(v, r);
    RunSkip(v, 0, r, k, k);
  }

  /** The stream starts with more than 7 bits v: the policy opens a run of v. */
  lemma OpensRun(v: bool, r: seq<bool>)
    requires LiteralSize < RunLength(r, v)
    ensures EncodeBits(r) == RunBlocks(v, 0, r)
  {
    assert r[0] == v && RunLength(r, !v) == 0;
  }

  /** A pending run that reaches 71 bits is emitted as a maximal run block. */
  lemma FullRun(v: bool, rlen: nat, r: seq<bool>, k: nat)
    requires rlen < MaxCount && MinRun <= rlen + RunLength(r, v)
    requires rlen + k == MaxCount && k <= RunLength(r, v)
    ensures RunBlocks(v, rlen, r) == [MakeRun(v, MaxCount)] + EncodeBits(r[k..])
  {
  }

  /** A pending run followed by the opposite bit is emitted, the bit being its terminator. */
  lemma EndRun(v: bool, rlen: nat, r: seq<bool>)
    requires MinRun <= rlen < MaxCount && r != [] && r[0] != v
    ensures RunBlocks(v, rlen, r) == [MakeRun(v, rlen)] + EncodeBits(r[1..])
  {
  }

  /** The init case of the source's state switch: a run of more than 7 equal
      bits opens a run, anything else is emitted as a literal of the (up to) 7
      next bits. zeros and ones are the register's capped trailing counts. */
  method StartStep(ghost r: seq<bool>, bits: seq<bool>, bitCount: nat, zeros: nat, ones: nat)
    returns (count: nat, state': EncodeState, rlen': nat, out: seq<Byte>)
    requires Window(bits, r, bitCount) && MinRun <= |bits| <= 64
    requires 0 < bitCount && (|bits| <= bitCount || bitCount == |r|)
    requires zeros == Min(RunLength(r, false), Min(|bits|, bitCount))
    requires ones == Min(RunLength(r, true), Min(|bits|, bitCount))
    ensures 0 < count <= bitCount
    ensures state' != Init ==> MinRun <= rlen' < MaxCount
    ensures EncodeBits(r) == out + Pending(state', rlen', r[count..])
  {
    if zeros > LiteralSize {
      count, rlen', state', out := zeros, zeros, Zeros, [];
      StartRun(false, r, count);
    } else if ones > LiteralSize {
      count, rlen', state', out := ones, ones, Ones, [];
      StartRun(true, r, count);
    } else {
      count, rlen', state' := Min(LiteralSize, bitCount), 0, Init;
      LiteralInWindow(bits, r, bitCount);
      out := [MakeLiteral(ToNat(bits))];
    }
  }

  /** The zeros and ones cases of the source's state switch (the same code for
      v false and v true): extend the pending run by the capped trailing count
      run, emitting a maximal block at 71 bits, or end it at the opposite bit,
      which is consumed as the terminator. */
  method RunStep(v: bool, ghost r: seq<bool>, bitCount: nat, run: nat, rlen: nat)
    returns (count: nat, rlen': nat, ended: bool, out: seq<Byte>)
    requires MinRun <= rlen < MaxCount && 0 < bitCount <= |r|
    requires run <= RunLength(r, v) && run <= bitCount && (run == 0 ==> RunLength(r, v) == 0)
    ensures 0 < count <= bitCount
    ensures !ended ==> MinRun <= rlen' < MaxCount
    ensures RunBlocks(v, rlen, r) ==
      out + if ended then EncodeBits(r[count..]) else RunBlocks(v, rlen', r[count..])
  {
    if run > 0 {
      count := Min(MaxCount - rlen, run);
      rlen' := rlen + count;
      if rlen' == MaxCount {
        out, ended := [MakeRun(v, MaxCount)], true;
        FullRun(v, rlen, r, count);
      } else {
        out, ended := [], false;
        RunSkip(v, rlen, r, count, rlen');
      }
    } else {
      RunLengthStops(r, v);
      count, rlen' := 1, rlen;
      out, ended := [MakeRun(v, rlen)], true;
      EndRun(v, rlen, r);
    }
  }

  /** One pass of the source's state switch: decides how many buffered bits
      to consume and which block, if any, to emit. What remains to be emitted
      is exactly the blocks emitted now followed by what remains afterwards. */
  method Consume(ghost r: seq<bool>, bits: seq<bool>, bitCount: nat, state: EncodeState, rlen: nat)
    returns (count: nat, state': EncodeState, rlen': nat, out: seq<Byte>)
    requires Window(bits, r, bitCount) && MinRun <= |bits| <= 64
    requires 0 < bitCount && (|bits| <= bitCount || bitCount == |r|)
    requires state != Init ==> MinRun <= rlen < MaxCount
    ensures 0 < count <= bitCount
    ensures state' != Init ==> MinRun <= rlen' < MaxCount
    ensures Pending(state, rlen, r) == out + Pending(state', rlen', r[count..])
  {
    var zeros := Min(RunLength(bits, false), bitCount);
    var ones := Min(RunLength(bits, true), bitCount);
    RunInWindow(bits, r, bitCount, false);
    RunInWindow(bits, r, bitCount, true);
    var ended: bool;
    match state {
      case Init =>
        count, state', rlen', out := StartStep(r, bits, bitCount, zeros, ones);
      case Zeros =>
        count, rlen', ended, out := RunStep(false, r, bitCount, zeros, rlen);
        state' := if ended then Init else Zeros;
      case Ones =>
        count, rlen', ended, out := RunStep(true, r, bitCount, ones, rlen);
        state' := if ended then Init else Ones;
    }
  }

  lemma EmitInto(all: seq<Byte>, blocks: seq<Byte>, out: seq<Byte>, rest: seq<Byte>)
    requires all == blocks + (out + rest)
    ensures all == (blocks + out) + rest
  {
  }

  // The loop invariants of encode, one predicate per concern.

  /** The words before i have been loaded: loaded is the stream so far, the
      rest of s is the stream of the remaining words, and word is the last
      loaded word (input_bufferd). */
  ghost predicate Loaded(w: nat, ws: seq<nat>, i: nat, s: seq<bool>, loaded: seq<bool>, word: seq<bool>)
  {
    i <= |ws| && s == loaded + Stream(w, ws[i..]) && |word| == w &&
    (i > 0 ==> w <= |loaded| && loaded[|loaded| - w..] == word)
  }

  /** The register holds the bitCount loaded bits that are not yet consumed. */
  ghost predicate Registers(w: nat, s: seq<bool>, pos: nat, loaded: seq<bool>, bits: seq<bool>, bitCount: nat)
  {
    |loaded| == pos + bitCount && bitCount < 2 * w && |bits| == w && pos <= |s| &&
    Window(bits, s[pos..], bitCount)
  }

  /** Loading word i while fewer than w bits are buffered. */
  lemma LoadStep(w: nat, ws: seq<nat>, i: nat, s: seq<bool>, loaded: seq<bool>, word: seq<bool>,
                 pos: nat, bits: seq<bool>, bitCount: nat)
    requires Loaded(w, ws, i, s, loaded, word) && Registers(w, s, pos, loaded, bits, bitCount)
    requires bitCount < w && i < |ws|
    ensures var x := FromNat(ws[i], w);
      Loaded(w, ws, i + 1, s, loaded + x, x) &&
      Registers(w, s, pos, loaded + x, Or(bits, Shl(x, bitCount)), bitCount + w)
  {
    var x := FromNat(ws[i], w);
    var rest := Stream(w, ws[i + 1..]);
    LoadWord(w, ws, i);
    assert s == loaded + (x + rest);
    NextWord(s, loaded, x, rest, pos, bitCount);
    LoadWindow(bits, s[pos..], bitCount, x);
  }

  /** Where the next word sits in the stream and in what has been loaded. */
  lemma NextWord(s: seq<bool>, loaded: seq<bool>, x: seq<bool>, rest: seq<bool>, pos: nat, bitCount: nat)
    requires s == loaded + (x + rest) && |loaded| == pos + bitCount
    ensures s == (loaded + x) + rest
    ensures (loaded + x)[|loaded + x| - |x|..] == x
    ensures s[pos..][bitCount..bitCount + |x|] == x
  {
    assert s[|loaded|..|loaded| + |x|] == x;
    assert s[pos..][bitCount..bitCount + |x|] == s[|loaded|..|loaded| + |x|];
  }

  /** With the input exhausted, every bit of the stream has been loaded. */
  lemma Ready(w: nat, ws: seq<nat>, i: nat, s: seq<bool>, loaded: seq<bool>, word: seq<bool>,
              pos: nat, bits: seq<bool>, bitCount: nat)
    requires Loaded(w, ws, i, s, loaded, word) && Registers(w, s, pos, loaded, bits, bitCount)
    requires w <= bitCount || i == |ws|
    ensures w <= bitCount || pos + bitCount == |s|
  {
    if i == |ws| {
      assert ws[i..] == [];
    }
  }

  /** Consuming all buffered bits clears the register. */
  lemma ClearStep(w: nat, s: seq<bool>, pos: nat, loaded: seq<bool>, bits: seq<bool>, count: nat)
    requires Registers(w, s, pos, loaded, bits, count)
    ensures Registers(w, s, pos + count, loaded, Repeat(false, w), 0)
  {
    EmptyWindow(w, s[pos + count..]);
  }

  /** Consuming count bits with rest > 0 left: the source's shift and re-merge. */
  lemma ShiftStep(w: nat, ws: seq<nat>, i: nat, s: seq<bool>, loaded: seq<bool>, word: seq<bool>,
                  pos: nat, bits: seq<bool>, count: nat, rest: nat, shift: int)
    requires Loaded(w, ws, i, s, loaded, word) && Registers(w, s, pos, loaded, bits, count + rest)
    requires 0 < rest && 0 < i && shift == rest - w
    ensures Registers(w, s, pos + count, loaded, Or(Shr(bits, count), Realign(word, shift)), rest)
  {
    var n := count + rest;
    assert s[pos + n - w..pos + n] == loaded[|loaded| - w..];
    ShiftWindow(w, bits, s, pos, count, rest, word);
  }

  /** The refill at the top of the source's loop: while fewer than W bits are
      buffered and input remains, the next word is merged in above them. */
  method Refill(w: nat, ws: seq<nat>, i: nat, word: seq<bool>, bits: seq<bool>, bitCount: nat,
                ghost s: seq<bool>, ghost loaded: seq<bool>, ghost pos: nat)
    returns (i': nat, word': seq<bool>, bits': seq<bool>, bitCount': nat, ghost loaded': seq<bool>)
    requires Loaded(w, ws, i, s, loaded, word) && Registers(w, s, pos, loaded, bits, bitCount)
    requires i == 0 ==> bitCount == 0
    requires 0 < bitCount || i < |ws|
    ensures Loaded(w, ws, i', s, loaded', word') && Registers(w, s, pos, loaded', bits', bitCount')
    ensures 0 < i' && 0 < bitCount' && (w <= bitCount' || pos + bitCount' == |s|)
  {
    i', word', bits', bitCount', loaded' := i, word, bits, bitCount, loaded;
    if bitCount < w && i < |ws| {
      LoadStep(w, ws, i, s, loaded, word, pos, bits, bitCount);
      word' := FromNat(ws[i], w);
      loaded' := loaded + word';
      bits' := Or(bits, Shl(word', bitCount));
      bitCount' := bitCount + w;
      i' := i + 1;
    }
    Ready(w, ws, i', s, loaded', word', pos, bits', bitCount');
  }

  /** The end of the source's loop: drop the count consumed bits, then either
      clear the register or shift it and re-merge the last loaded word. */
  method Advance(w: nat, ghost ws: seq<nat>, ghost i: nat, word: seq<bool>, bits: seq<bool>, bitCount: nat,
                 count: nat, ghost s: seq<bool>, ghost loaded: seq<bool>, ghost pos: nat)
    returns (bits': seq<bool>, bitCount': nat)
    requires Loaded(w, ws, i, s, loaded, word) && Registers(w, s, pos, loaded, bits, bitCount)
    requires 0 < i && count <= bitCount
    ensures bitCount' == bitCount - count
    ensures Registers(w, s, pos + count, loaded, bits', bitCount')
  {
    bitCount' := bitCount - count;
    if bitCount' == 0 {
      ClearStep(w, s, pos, loaded, bits, count);
      bits' := Repeat(false, w);
    } else {
      var inputShift := bitCount' - w;
      ShiftStep(w, ws, i, s, loaded, word, pos, bits, count, bitCount', inputShift);
      bits' := Shr(bits, count);
      bits' := Or(bits', Realign(word, inputShift));
    }
  }

  /** The switch after the source's loop: a run still pending when the input
      ends is emitted (its decoder adds a terminator bit, the padding). */
  method Flush(state: EncodeState, rlen: nat) returns (out: seq<Byte>)
    requires state != Init ==> MinRun <= rlen < MaxCount
    ensures out == Pending(state, rlen, [])
  {
    match state {
      case Init =>
        out := [];
      case Zeros =>
        out := [MakeZeros(rlen)];
      case Ones =>
        out := [MakeOnes(rlen)];
    }
  }

  /** One iteration of the source's loop: refill, the state switch, and the
      shift. What remained to be emitted before is the blocks emitted now
      followed by what remains afterwards. */
  method Round(w: nat, ws: seq<nat>, i: nat, word: seq<bool>, bits: seq<bool>, bitCount: nat,
               state: EncodeState, rlen: nat, ghost s: seq<bool>, ghost loaded: seq<bool>, ghost pos: nat)
    returns (i': nat, word': seq<bool>, bits': seq<bool>, bitCount': nat, state': EncodeState, rlen': nat,
             out: seq<Byte>, ghost loaded': seq<bool>, ghost pos': nat)
    requires IsWidth(w)
    requires Loaded(w, ws, i, s, loaded, word) && Registers(w, s, pos, loaded, bits, bitCount)
    requires i == 0 ==> bitCount == 0
    requires state != Init ==> MinRun <= rlen < MaxCount
    requires 0 < bitCount || i < |ws|
    ensures Loaded(w, ws, i', s, loaded', word') && Registers(w, s, pos', loaded', bits', bitCount')
    ensures 0 < i' && pos < pos' <= |s|
    ensures state' != Init ==> MinRun <= rlen' < MaxCount
    ensures Pending(state, rlen, s[pos..]) == out + Pending(state', rlen', s[pos'..])
  {
    var bits1, bitCount1;
    i', word', bits1, bitCount1, loaded' := Refill(w, ws, i, word, bits, bitCount, s, loaded, pos);
    var count;
    count, state', rlen', out := Consume(s[pos..], bits1, bitCount1, state, rlen);
    assert s[pos..][count..] == s[pos + count..];
    bits', bitCount' := Advance(w, ws, i', word', bits1, bitCount1, count, s, loaded', pos);
    pos' := pos + count;
  }

  /** encode: the source's loop over a W-bit carry register. */
  method Encode(w: nat, ws: seq<nat>) returns (blocks: seq<Byte>)
    requires IsWidth(w)
    ensures blocks == EncodeBits(Stream(w, ws))
    ensures Extends(Expand(blocks), Stream(w, ws))
    ensures |blocks| <= (|ws| * w + LiteralSize - 1) / LiteralSize
  {
    ghost var s := Stream(w, ws);
    ghost var target := EncodeBits(s);
    var inputBuffered := Repeat(false, w);
    var bits := Repeat(false, w);
    var bitCount: nat := 0;
    var rlen: nat := 0;
    var state := Init;
    var i: nat := 0;
    ghost var pos: nat := 0;
    ghost var loaded: seq<bool> := [];
    blocks := [];
    assert ws[0..] == ws && s[0..] == s;
    EmptyWindow(w, s);
    while bitCount > 0 || i < |ws|
      invariant Loaded(w, ws, i, s, loaded, inputBuffered)
      invariant Registers(w, s, pos, loaded, bits, bitCount)
      invariant i == 0 ==> bitCount == 0
      invariant state != Init ==> MinRun <= rlen < MaxCount
      invariant target == blocks + Pending(state, rlen, s[pos..])
      decreases |s| - pos
    {
      var out, state', rlen';
      ghost var pos';
      i, inputBuffered, bits, bitCount, state', rlen', out, loaded, pos' :=
        Round(w, ws, i, inputBuffered, bits, bitCount, state, rlen, s, loaded, pos);
      EmitInto(target, blocks, out, Pending(state', rlen', s[pos'..]));
      blocks, state, rlen, pos := blocks + out, state', rlen', pos';
    }
    Exhausted(w, ws, i, s, loaded, inputBuffered, pos, bits, bitCount);
    var last := Flush(state, rlen);
    blocks := blocks + last;
    EncodeStream(w, ws);
  }

  /** When the loop ends, the whole stream has been consumed. */
  lemma Exhausted(w: nat, ws: seq<nat>, i: nat, s: seq<bool>, loaded: seq<bool>, word: seq<bool>,
                  pos: nat, bits: seq<bool>, bitCount: nat)
    requires Loaded(w, ws, i, s, loaded, word) && Registers(w, s, pos, loaded, bits, bitCount)
    requires bitCount == 0 && i == |ws|
    ensures s[pos..] == []
  {
    assert ws[i..] == [];
  }

  /** The blocks for the stream of ws expand back to it, and there are at most
      ceil(|ws| * w / 7) of them. */
  lemma EncodeStream(w: nat, ws: seq<nat>)
    ensures Extends(Expand(EncodeBits(Stream(w, ws))), Stream(w, ws))
    ensures |EncodeBits(Stream(w, ws))| <= (|ws| * w + LiteralSize - 1) / LiteralSize
  {
    EncodeBitsExpand(Stream(w, ws));
    EncodeBitsBound(Stream(w, ws));
    StreamLength(w, ws);
  }
}
