/** decode: expands blocks into the logical bit stream and writes its complete
    W-bit words.

    The source's loop is defined once, as functions over the state it keeps
    (the words written, the register and its bit count), with the refill after
    a completed word as a parameter: AsWritten refills the register from the
    block byte even when the block is a run (src/brle.h:284), which leaves the
    run tag's top bit in bit 0 of the next word; Corrected refills it from the
    byte only after a literal. The methods follow the source statement by
    statement and are proved equal to the functions with the Corrected rule,
    and Decode to write exactly the complete words of the expanded stream. As
    written, the same holds for every block sequence in which no run block
    with a terminator bit ends on a word boundary (AsWrittenClean). */
module Decoder {
  import opened Bits
  import opened Format
  import opened Words

  /** A W-bit register holding the pending bits cur (only the first W count)
      and the bit v in every position above them. */
  ghost function Filled(cur: seq<bool>, v: bool, w: nat): seq<bool>
  {
    seq(w, j requires 0 <= j < w => if j < |cur| then cur[j] else v)
  }

  /** The spill as written: `in >> (literal_size - bit_count)` stored in a W-bit register. */
  function Spill(w: nat, b: Byte, bitCount: nat): (x: seq<bool>)
    requires bitCount <= LiteralSize
    ensures |x| == w
  {
    Shr(FromNat(b, w), LiteralSize - bitCount)
  }

  // Facts about the register, one per statement of the source's loop.

  /** A full register is written out as the value of its bits. */
  lemma EmitFilled(cur: seq<bool>, v: bool, w: nat)
    requires w <= |cur|
    ensures FromNat(ToNat(Filled(cur, v, w)), w) == cur[..w]
  {
    var x := Filled(cur, v, w);
    assert x == cur[..w];
    FromNatToNat(x, w);
    assert x[..w] == x;
  }

  /** After a full word of a run is written, the register is refilled with the
      run's bit (bits = 0 or bits = data_mask). */
  lemma DrainFilled(cur: seq<bool>, v: bool, w: nat)
    requires w <= |cur|
    requires forall j :: w <= j < |cur| ==> cur[j] == v
    ensures Repeat(v, w) == Filled(cur[w..], v, w)
  {
    var x := Filled(cur[w..], v, w);
    forall j | 0 <= j < w
      ensures x[j] == v
    {
      if j < |cur| - w {
        assert cur[w..][j] == cur[w + j];
      }
    }
  }

  /** More bits equal to the fill above the pending ones change nothing. */
  lemma FilledExtend(cur: seq<bool>, v: bool, w: nat, c: nat)
    ensures Filled(cur + Repeat(v, c), v, w) == Filled(cur, v, w)
  {
  }

  /** bits | (data_mask << bit_count) fills everything above the pending bits with ones. */
  lemma FilledOnes(cur: seq<bool>, w: nat)
    requires |cur| <= w
    ensures Or(Filled(cur, false, w), Shl(Repeat(true, w), |cur|)) == Filled(cur, true, w)
  {
  }

  /** bits & ~(data_mask << bit_count) clears everything above the pending bits. */
  lemma FilledClear(cur: seq<bool>, w: nat)
    requires |cur| <= w
    ensures And(Filled(cur, true, w), Not(Shl(Repeat(true, w), |cur|))) == Filled(cur, false, w)
  {
  }

  /** bits | (one << bit_count) appends the one bit that ends a run of zeros. */
  lemma FilledMark(cur: seq<bool>, w: nat)
    requires |cur| < w
    ensures Or(Filled(cur, false, w), Shl(FromNat(1, w), |cur|)) == Filled(cur + [true], false, w)
  {
    FromNatWiden(1, 1, w);
    assert FromNat(1, w) == [true] + Repeat(false, w - 1);
  }

  /** bits | (in << bit_count) appends the 7 bits of a literal (bit 7 is clear). */
  lemma FilledLiteral(cur: seq<bool>, b: Byte, w: nat)
    requires b < 128 && |cur| < w && LiteralSize <= w
    ensures Or(Filled(cur, false, w), Shl(FromNat(b, w), |cur|)) == Filled(cur + FromNat(b, LiteralSize), false, w)
  {
    var lit := FromNat(b, LiteralSize);
    var big := FromNat(b, w);
    assert Pow2(LiteralSize) == 128;
    FromNatWiden(b, LiteralSize, w);
    var x, y := Or(Filled(cur, false, w), Shl(big, |cur|)), Filled(cur + lit, false, w);
    forall j | 0 <= j < w
      ensures x[j] == y[j]
    {
      if |cur| <= j < |cur| + LiteralSize {
        assert big[j - |cur|] == lit[j - |cur|];
      } else if j >= |cur| + LiteralSize {
        assert big[j - |cur|] == false;
      }
    }
  }

  /** After a literal completes a word, in >> (7 - bit_count) holds the literal
      bits that did not fit. */
  lemma SpillLiteral(cur: seq<bool>, b: Byte, w: nat)
    requires b < 128 && |cur| < w <= |cur| + LiteralSize && LiteralSize < w
    ensures var all := cur + FromNat(b, LiteralSize);
      Spill(w, b, |all| - w) == Filled(all[w..], false, w)
  {
    var lit := FromNat(b, LiteralSize);
    var all := cur + lit;
    assert Pow2(LiteralSize) == 128;
    FromNatWiden(b, LiteralSize, w);
    var x, y := Spill(w, b, |all| - w), Filled(all[w..], false, w);
    forall j | 0 <= j < w
      ensures x[j] == y[j]
    {
      if w + j < |all| {
        assert all[w..][j] == lit[w + j - |cur|];
      }
    }
  }

  /** Pending bits followed by a run of v: everything from position w on is v. */
  lemma RunTail(cur: seq<bool>, v: bool, c: nat, w: nat)
    requires |cur| < w
    ensures forall j :: w <= j < |cur + Repeat(v, c)| ==> (cur + Repeat(v, c))[j] == v
  {
  }

  lemma StreamWord(w: nat, out: seq<nat>, x: nat, cur: seq<bool>)
    requires w <= |cur| && FromNat(x, w) == cur[..w]
    ensures Stream(w, out) + cur == Stream(w, out + [x]) + cur[w..]
  {
    StreamAppend(w, out, [x]);
    assert [x][1..] == [];
    assert Stream(w, [x]) == cur[..w] + Stream(w, []);
    assert cur == cur[..w] + cur[w..];
  }

  lemma WordFits(w: nat, out: seq<nat>, bits: seq<bool>)
    requires |bits| == w
    ensures AreWords(w, out) ==> AreWords(w, out + [ToNat(bits)])
  {
    if AreWords(w, out) {
      AppendWords(w, out, [ToNat(bits)]);
    }
  }

  lemma MulSucc(n: nat, w: nat)
    ensures (n + 1) * w == n * w + w
  {
  }

  // The source's loop, defined once as functions over the state it keeps.

  /** What the loop keeps between statements: the words written so far, the
      register `bits` and `bit_count`. */
  type State = (seq<nat>, seq<bool>, nat)

  /** How the register is refilled after a word is completed: AsWritten from
      the block byte whatever its mode (src/brle.h:284), Corrected from the
      block byte after a literal only, and emptied after a run. */
  datatype SpillRule = AsWritten | Corrected

  /** A run block that carries a terminator bit. */
  predicate ShortRun(b: Byte)
  {
    (Mode(b) == ModeZeros || Mode(b) == ModeOnes) && Count(b) < MaxCount
  }

  /** The inner for loop of a run: while a full word is buffered, write it and
      refill the register with the run's bit (bits = 0 or bits = data_mask).
      Every written word accounts for w bits. */
  function DrainLoop(w: nat, v: bool, bits: seq<bool>, bitCount: nat): (r: State)
    requires 0 < w && |bits| == w
    ensures |r.1| == w && r.2 < w && |r.0| * w + r.2 == bitCount
    decreases bitCount
  {
    if bitCount < w then ([], bits, bitCount)
    else
      var rest := DrainLoop(w, v, Repeat(v, w), bitCount - w);
      ([ToNat(bits)] + rest.0, rest.1, rest.2)
  }

  /** The zeros branch: count zero bits, the inner loop, then the terminator
      one bit unless the run is maximal. */
  function ZerosBranch(w: nat, bits: seq<bool>, bitCount: nat, b: Byte): (r: State)
    requires 0 < w && |bits| == w && Mode(b) == ModeZeros
    ensures |r.1| == w && r.2 <= w && |r.0| * w + r.2 == bitCount + |BlockBits(b)|
    ensures Count(b) == MaxCount ==> r.2 < w
  {
    var count := Count(b);
    var d := DrainLoop(w, false, bits, bitCount + count);
    if count < MaxCount then (d.0, Or(d.1, Shl(FromNat(1, w), d.2)), d.2 + 1) else d
  }

  /** The ones branch: ones above the pending bits, count one bits, the inner
      loop, the bits above the pending ones cleared, then the terminator zero
      bit unless the run is maximal. */
  function OnesBranch(w: nat, bits: seq<bool>, bitCount: nat, b: Byte): (r: State)
    requires 0 < w && |bits| == w && Mode(b) == ModeOnes
    ensures |r.1| == w && r.2 <= w && |r.0| * w + r.2 == bitCount + |BlockBits(b)|
    ensures Count(b) == MaxCount ==> r.2 < w
  {
    var count := Count(b);
    var mask := Repeat(true, w);
    var d := DrainLoop(w, true, Or(bits, Shl(mask, bitCount)), bitCount + count);
    var cleared := if d.2 > 0 then And(d.1, Not(Shl(mask, d.2))) else Repeat(false, w);
    (d.0, cleared, if count < MaxCount then d.2 + 1 else d.2)
  }

  /** The literal branch: the block's bits or-ed in above the pending ones. */
  function LiteralBranch(w: nat, bits: seq<bool>, bitCount: nat, b: Byte): (r: State)
    requires |bits| == w && Mode(b) != ModeZeros && Mode(b) != ModeOnes
    ensures |r.1| == w && r.0 == [] && r.2 == bitCount + |BlockBits(b)|
  {
    ([], Or(bits, Shl(FromNat(b, w), bitCount)), bitCount + LiteralSize)
  }

  /** The check after the branches: a completed word is written and the
      register refilled as the rule says. */
  function WordCheck(w: nat, b: Byte, s: State, rule: SpillRule): (r: State)
    requires IsWidth(w) && |s.1| == w && s.2 < w + LiteralSize
    ensures |r.1| == w && r.2 < w && |r.0| * w + r.2 == |s.0| * w + s.2
  {
    if s.2 >= w then
      MulSucc(|s.0|, w);
      var refill :=
        if rule == Corrected && (Mode(b) == ModeZeros || Mode(b) == ModeOnes) then Repeat(false, w)
        else Spill(w, b, s.2 - w);
      (s.0 + [ToNat(s.1)], refill, s.2 - w)
    else s
  }

  /** The body of the source's loop for one block. */
  function Step(w: nat, bits: seq<bool>, bitCount: nat, b: Byte, rule: SpillRule): (r: State)
    requires IsWidth(w) && |bits| == w && bitCount < w
    ensures |r.1| == w && r.2 < w && |r.0| * w + r.2 == bitCount + |BlockBits(b)|
  {
    var mode := Mode(b);
    var s :=
      if mode == ModeZeros then ZerosBranch(w, bits, bitCount, b)
      else if mode == ModeOnes then OnesBranch(w, bits, bitCount, b)
      else LiteralBranch(w, bits, bitCount, b);
    WordCheck(w, b, s, rule)
  }

  /** The source's loop over the remaining blocks. */
  function Run(w: nat, blocks: seq<Byte>, bits: seq<bool>, bitCount: nat, rule: SpillRule): (r: State)
    requires IsWidth(w) && |bits| == w && bitCount < w
    ensures r.2 < w && |r.0| * w + r.2 == bitCount + |Expand(blocks)|
  {
    if blocks == [] then ([], bits, bitCount)
    else
      var s := Step(w, bits, bitCount, blocks[0], rule);
      var rest := Run(w, blocks[1..], s.1, s.2, rule);
      (s.0 + rest.0, rest.1, rest.2)
  }

  /** decode exactly as written. */
  function DecodeAsWritten(w: nat, blocks: seq<Byte>): seq<nat>
    requires IsWidth(w)
  {
    Run(w, blocks, Repeat(false, w), 0, AsWritten).0
  }

  /** As written, decode still writes one word per w expanded bits. */
  lemma AsWrittenCount(w: nat, blocks: seq<Byte>)
    requires IsWidth(w)
    ensures |DecodeAsWritten(w, blocks)| == |Expand(blocks)| / w
  {
    var r := Run(w, blocks, Repeat(false, w), 0, AsWritten);
    DivBetween(|Expand(blocks)|, w, |r.0|);
  }

  // What the state means.

  /** The state s accounts for the bits all: the words written, followed by
      the s.2 pending bits, are all, and the register holds the pending bits
      with v in every position above them. */
  ghost predicate Accounts(w: nat, all: seq<bool>, s: State, v: bool)
  {
    s.2 <= |all| && AreWords(w, s.0) &&
    all == Stream(w, s.0) + all[|all| - s.2..] && s.1 == Filled(all[|all| - s.2..], v, w)
  }

  /** The inner loop writes the leading whole words of the pending bits and
      keeps the rest, with the run's bit above them. */
  lemma {:induction false} DrainAccounts(w: nat, v: bool, cur: seq<bool>)
    requires 0 < w && forall j :: w <= j < |cur| ==> cur[j] == v
    ensures Accounts(w, cur, DrainLoop(w, v, Filled(cur, v, w), |cur|), v)
    decreases |cur|
  {
    if |cur| < w {
      assert cur[|cur| - |cur|..] == cur;
    } else {
      var rest := cur[w..];
      var bits := Filled(cur, v, w);
      EmitFilled(cur, v, w);
      DrainFilled(cur, v, w);
      forall j | w <= j < |rest|
        ensures rest[j] == v
      {
        assert rest[j] == cur[w + j];
      }
      DrainAccounts(w, v, rest);
      var r := DrainLoop(w, v, Filled(rest, v, w), |rest|);
      assert DrainLoop(w, v, bits, |cur|) == ([ToNat(bits)] + r.0, r.1, r.2);
      DrainWord(w, ToNat(bits), cur, r.0, r.2);
    }
  }

  /** One written word in front of the words written from the rest. */
  lemma DrainWord(w: nat, x: nat, cur: seq<bool>, ws: seq<nat>, n: nat)
    requires 0 < w <= |cur| && x < Pow2(w) && FromNat(x, w) == cur[..w] && AreWords(w, ws)
    requires n <= |cur| - w && cur[w..] == Stream(w, ws) + cur[w..][|cur| - w - n..]
    ensures AreWords(w, [x] + ws) && cur[w..][|cur| - w - n..] == cur[|cur| - n..]
    ensures cur == Stream(w, [x] + ws) + cur[|cur| - n..]
  {
    assert ([x] + ws)[0] == x && ([x] + ws)[1..] == ws;
    assert Stream(w, [x] + ws) == FromNat(x, w) + Stream(w, ws);
    AppendWords(w, [x], ws);
    SplitFront(cur, w, n, FromNat(x, w), Stream(w, ws));
  }

  /** A sequence whose first w elements are a and whose rest is b followed by
      its last n elements. */
  lemma SplitFront(cur: seq<bool>, w: nat, n: nat, a: seq<bool>, b: seq<bool>)
    requires w <= |cur| && n <= |cur| - w && cur[..w] == a
    requires cur[w..] == b + cur[w..][|cur| - w - n..]
    ensures cur[w..][|cur| - w - n..] == cur[|cur| - n..]
    ensures cur == (a + b) + cur[|cur| - n..]
  {
    var t := cur[|cur| - n..];
    assert cur[w..][|cur| - w - n..] == t;
    calc {
      cur;
      cur[..w] + cur[w..];
      a + (b + t);
      (a + b) + t;
    }
  }

  /** A run's bits after the pending ones, split where the inner loop stopped,
      followed by the terminator. */
  lemma RunFinish(cur: seq<bool>, v: bool, count: nat, written: seq<bool>, left: seq<bool>, rest: seq<bool>)
    requires cur + Repeat(v, count) == written + left
    requires rest == left + if count < MaxCount then [!v] else []
    ensures cur + RunBits(v, count) == written + rest
  {
    var stuffed := if count < MaxCount then [!v] else [];
    calc {
      cur + RunBits(v, count);
      cur + (Repeat(v, count) + stuffed);
      (cur + Repeat(v, count)) + stuffed;
      (written + left) + stuffed;
      written + (left + stuffed);
    }
  }

  /** The last |b| bits of a + b are b. */
  lemma Suffix(a: seq<bool>, b: seq<bool>)
    ensures (a + b)[|a + b| - |b|..] == b
  {
  }

  /** The state after a run block accounts for its bits once the inner loop
      has written the words ws and the terminator follows the bits left. */
  lemma RunAccountsEnd(w: nat, cur: seq<bool>, v: bool, count: nat, ws: seq<nat>, left: seq<bool>, rest: seq<bool>, s: State)
    requires AreWords(w, ws) && cur + Repeat(v, count) == Stream(w, ws) + left
    requires rest == left + if count < MaxCount then [!v] else []
    requires s.0 == ws && s.1 == Filled(rest, false, w) && s.2 == |rest|
    ensures Accounts(w, cur + RunBits(v, count), s, false)
  {
    RunFinish(cur, v, count, Stream(w, ws), left, rest);
    Suffix(Stream(w, ws), rest);
  }

  /** What the inner loop leaves: the words of the run's leading bits and the
      register holding the rest, with v above them. */
  lemma DrainSplit(w: nat, v: bool, cur: seq<bool>, count: nat) returns (left: seq<bool>, d: State)
    requires 0 < w && |cur| < w
    ensures d == DrainLoop(w, v, Filled(cur, v, w), |cur| + count)
    ensures AreWords(w, d.0) && cur + Repeat(v, count) == Stream(w, d.0) + left
    ensures |left| == d.2 && d.1 == Filled(left, v, w)
  {
    var run := cur + Repeat(v, count);
    FilledExtend(cur, v, w, count);
    RunTail(cur, v, count, w);
    DrainAccounts(w, v, run);
    d := DrainLoop(w, v, Filled(run, v, w), |run|);
    left := run[|run| - d.2..];
  }

  /** The zeros branch adds the run and, below 71, the terminator one bit;
      then the check for a completed word. */
  lemma ZerosAccounts(w: nat, cur: seq<bool>, bits: seq<bool>, c: nat, b: Byte, rule: SpillRule)
    requires IsWidth(w) && Mode(b) == ModeZeros && c == |cur| < w && bits == Filled(cur, false, w)
    requires rule == Corrected || !ShortRun(b) || WordOffset(c + |BlockBits(b)|, w) != 0
    ensures Accounts(w, cur + BlockBits(b), Step(w, bits, c, b, rule), false)
  {
    var ws, rest := ZerosSplit(w, cur, b);
    ZerosFinish(w, bits, c, b, rule, cur + BlockBits(b), ws, rest);
  }

  /** The words the zeros branch writes and the bits it leaves pending. */
  lemma ZerosSplit(w: nat, cur: seq<bool>, b: Byte) returns (ws: seq<nat>, rest: seq<bool>)
    requires IsWidth(w) && Mode(b) == ModeZeros && |cur| < w
    ensures AreWords(w, ws) && cur + BlockBits(b) == Stream(w, ws) + rest
    ensures ZerosBranch(w, Filled(cur, false, w), |cur|, b).0 == ws
    ensures ZerosBranch(w, Filled(cur, false, w), |cur|, b).1 == Filled(rest, false, w)
    ensures ZerosBranch(w, Filled(cur, false, w), |cur|, b).2 == |rest|
  {
    var count := Count(b);
    assert BlockBits(b) == RunBits(false, count);
    var left, d := DrainSplit(w, false, cur, count);
    rest := left + if count < MaxCount then [true] else [];
    ws := d.0;
    ZerosState(w, Filled(cur, false, w), |cur|, b, d, left, rest);
    RunFinish(cur, false, count, Stream(w, d.0), left, rest);
  }

  /** The state the zeros branch leaves, in terms of the bits the inner loop
      left pending. */
  lemma ZerosState(w: nat, bits: seq<bool>, c: nat, b: Byte, d: State, left: seq<bool>, rest: seq<bool>)
    requires IsWidth(w) && Mode(b) == ModeZeros && |bits| == w
    requires d == DrainLoop(w, false, bits, c + Count(b))
    requires |left| == d.2 && d.1 == Filled(left, false, w)
    requires rest == left + if Count(b) < MaxCount then [true] else []
    ensures ZerosBranch(w, bits, c, b).0 == d.0
    ensures ZerosBranch(w, bits, c, b).1 == Filled(rest, false, w)
    ensures ZerosBranch(w, bits, c, b).2 == |rest|
  {
    if Count(b) < MaxCount {
      FilledMark(left, w);
    } else {
      assert rest == left;
    }
  }

  /** The ones branch adds the run and, below 71, the terminator zero bit;
      then the check for a completed word. */
  lemma OnesAccounts(w: nat, cur: seq<bool>, bits: seq<bool>, c: nat, b: Byte, rule: SpillRule)
    requires IsWidth(w) && Mode(b) == ModeOnes && c == |cur| < w && bits == Filled(cur, false, w)
    requires rule == Corrected || !ShortRun(b) || WordOffset(c + |BlockBits(b)|, w) != 0
    ensures Accounts(w, cur + BlockBits(b), Step(w, bits, c, b, rule), false)
  {
    var ws, rest := OnesSplit(w, cur, b);
    OnesFinish(w, bits, c, b, rule, cur + BlockBits(b), ws, rest);
  }

  /** The words the ones branch writes and the bits it leaves pending. */
  lemma OnesSplit(w: nat, cur: seq<bool>, b: Byte) returns (ws: seq<nat>, rest: seq<bool>)
    requires IsWidth(w) && Mode(b) == ModeOnes && |cur| < w
    ensures AreWords(w, ws) && cur + BlockBits(b) == Stream(w, ws) + rest
    ensures OnesBranch(w, Filled(cur, false, w), |cur|, b).0 == ws
    ensures OnesBranch(w, Filled(cur, false, w), |cur|, b).1 == Filled(rest, false, w)
    ensures OnesBranch(w, Filled(cur, false, w), |cur|, b).2 == |rest|
  {
    var count := Count(b);
    assert BlockBits(b) == RunBits(true, count);
    FilledOnes(cur, w);
    var left, d := DrainSplit(w, true, cur, count);
    rest := left + if count < MaxCount then [false] else [];
    ws := d.0;
    OnesState(w, Filled(cur, false, w), |cur|, b, Filled(cur, true, w), d, left, rest);
    RunFinish(cur, true, count, Stream(w, d.0), left, rest);
  }

  /** The state the ones branch leaves, in terms of the bits the inner loop
      left pending. */
  lemma OnesState(w: nat, bits: seq<bool>, c: nat, b: Byte, reg: seq<bool>, d: State, left: seq<bool>, rest: seq<bool>)
    requires IsWidth(w) && Mode(b) == ModeOnes && |bits| == w
    requires reg == Or(bits, Shl(Repeat(true, w), c)) && d == DrainLoop(w, true, reg, c + Count(b))
    requires |left| == d.2 && d.1 == Filled(left, true, w)
    requires rest == left + if Count(b) < MaxCount then [false] else []
    ensures OnesBranch(w, bits, c, b).0 == d.0
    ensures OnesBranch(w, bits, c, b).1 == Filled(rest, false, w)
    ensures OnesBranch(w, bits, c, b).2 == |rest|
  {
    if d.2 > 0 {
      FilledClear(left, w);
    } else {
      assert Filled(left, false, w) == Repeat(false, w);
    }
    if Count(b) < MaxCount {
      FilledExtend(left, false, w, 1);
      assert Repeat(false, 1) == [false];
    } else {
      assert rest == left;
    }
  }

  /** The literal branch adds the block's 7 bits; when they complete a word,
      the register holds the whole word and the spill the bits past it. */
  lemma LiteralAccounts(w: nat, cur: seq<bool>, b: Byte)
    requires IsWidth(w) && Mode(b) != ModeZeros && Mode(b) != ModeOnes && |cur| < w
    ensures LiteralBranch(w, Filled(cur, false, w), |cur|, b).1 == Filled(cur + BlockBits(b), false, w)
    ensures |cur + BlockBits(b)| >= w ==>
      FromNat(ToNat(Filled(cur + BlockBits(b), false, w)), w) == (cur + BlockBits(b))[..w] &&
      Spill(w, b, |cur + BlockBits(b)| - w) == Filled((cur + BlockBits(b))[w..], false, w)
  {
    FilledLiteral(cur, b, w);
    if |cur + BlockBits(b)| >= w {
      EmitFilled(cur + BlockBits(b), false, w);
      SpillLiteral(cur, b, w);
    }
  }

  /** After a run block completes a word, the corrected refill leaves no
      pending bits; below a full word nothing happens. */
  lemma RunWordAccounts(w: nat, b: Byte, all: seq<bool>, s: State, rule: SpillRule)
    requires IsWidth(w) && (Mode(b) == ModeZeros || Mode(b) == ModeOnes)
    requires |s.1| == w && s.2 <= w && Accounts(w, all, s, false)
    requires rule == Corrected || s.2 < w
    ensures Accounts(w, all, WordCheck(w, b, s, rule), false)
  {
    if s.2 == w {
      var p := all[|all| - w..];
      EmitFilled(p, false, w);
      assert p[..w] == p;
      StreamWord(w, s.0, ToNat(s.1), p);
      WordFits(w, s.0, s.1);
      assert all[|all| - 0..] == [];
      assert Filled([], false, w) == Repeat(false, w);
    }
  }

  /** After a literal, under either rule, the state accounts for the bits so
      far. */
  lemma LiteralWordAccounts(w: nat, cur: seq<bool>, b: Byte, rule: SpillRule)
    requires IsWidth(w) && Mode(b) != ModeZeros && Mode(b) != ModeOnes && |cur| < w
    ensures Accounts(w, cur + BlockBits(b), WordCheck(w, b, LiteralBranch(w, Filled(cur, false, w), |cur|, b), rule), false)
  {
    LiteralAccounts(w, cur, b);
    LiteralFinish(w, b, rule, cur + BlockBits(b), LiteralBranch(w, Filled(cur, false, w), |cur|, b));
  }

  /** The check for a completed word after a literal. */
  lemma LiteralFinish(w: nat, b: Byte, rule: SpillRule, all: seq<bool>, s: State)
    requires IsWidth(w) && Mode(b) != ModeZeros && Mode(b) != ModeOnes
    requires s.0 == [] && s.1 == Filled(all, false, w) && s.2 == |all| < w + LiteralSize
    requires |all| >= w ==>
      FromNat(ToNat(Filled(all, false, w)), w) == all[..w] &&
      Spill(w, b, |all| - w) == Filled(all[w..], false, w)
    ensures Accounts(w, all, WordCheck(w, b, s, rule), false)
  {
    if |all| >= w {
      WordFull(w, b, all, s, rule);
    } else {
      assert all[|all| - |all|..] == all;
    }
  }

  /** A literal that completes a word: the word is written and the register
      holds the bits past it. */
  lemma WordFull(w: nat, b: Byte, all: seq<bool>, s: State, rule: SpillRule)
    requires IsWidth(w) && Mode(b) != ModeZeros && Mode(b) != ModeOnes
    requires s.0 == [] && |s.1| == w && s.2 == |all| && w <= |all| < w + LiteralSize
    requires FromNat(ToNat(s.1), w) == all[..w] && Spill(w, b, s.2 - w) == Filled(all[w..], false, w)
    ensures Accounts(w, all, WordCheck(w, b, s, rule), false)
  {
    StreamWord(w, [], ToNat(s.1), all);
    WordFits(w, [], s.1);
    assert Stream(w, []) + all == all;
    assert all[|all| - (s.2 - w)..] == all[w..];
  }

  /** One block: with the corrected rule always, and as written unless the
      block is a run with a terminator that ends on a word boundary, the
      block's bits are added to what the state accounts for. */
  lemma StepAccounts(w: nat, cur: seq<bool>, b: Byte, rule: SpillRule)
    requires IsWidth(w) && |cur| < w
    requires rule == Corrected || !ShortRun(b) || WordOffset(|cur| + |BlockBits(b)|, w) != 0
    ensures Accounts(w, cur + BlockBits(b), Step(w, Filled(cur, false, w), |cur|, b, rule), false)
  {
    if Mode(b) == ModeZeros {
      ZerosAccounts(w, cur, Filled(cur, false, w), |cur|, b, rule);
    } else if Mode(b) == ModeOnes {
      OnesAccounts(w, cur, Filled(cur, false, w), |cur|, b, rule);
    } else {
      LiteralWordAccounts(w, cur, b, rule);
    }
  }

  /** The state a zeros block leaves, once the words written and the
      pending bits are known, then the check for a completed word. */
  lemma ZerosFinish(w: nat, bits: seq<bool>, c: nat, b: Byte, rule: SpillRule, all: seq<bool>, ws: seq<nat>, rest: seq<bool>)
    requires IsWidth(w) && |bits| == w && c < w && Mode(b) == ModeZeros
    requires rule == Corrected || !ShortRun(b) || WordOffset(c + |BlockBits(b)|, w) != 0
    requires AreWords(w, ws) && all == Stream(w, ws) + rest
    requires ZerosBranch(w, bits, c, b).0 == ws
    requires ZerosBranch(w, bits, c, b).1 == Filled(rest, false, w)
    requires ZerosBranch(w, bits, c, b).2 == |rest|
    ensures Accounts(w, all, Step(w, bits, c, b, rule), false)
  {
    Suffix(Stream(w, ws), rest);
    ZerosStep(w, bits, c, b, rule, all);
  }

  /** A zeros block, then the check for a completed word. */
  lemma ZerosStep(w: nat, bits: seq<bool>, c: nat, b: Byte, rule: SpillRule, all: seq<bool>)
    requires IsWidth(w) && |bits| == w && c < w && Mode(b) == ModeZeros
    requires Accounts(w, all, ZerosBranch(w, bits, c, b), false)
    requires rule == Corrected || !ShortRun(b) || WordOffset(c + |BlockBits(b)|, w) != 0
    ensures Accounts(w, all, Step(w, bits, c, b, rule), false)
  {
    RunStepAccounts(w, c, b, rule, all, ZerosBranch(w, bits, c, b));
  }

  /** The state a ones block leaves, once the words written and the
      pending bits are known, then the check for a completed word. */
  lemma OnesFinish(w: nat, bits: seq<bool>, c: nat, b: Byte, rule: SpillRule, all: seq<bool>, ws: seq<nat>, rest: seq<bool>)
    requires IsWidth(w) && |bits| == w && c < w && Mode(b) == ModeOnes
    requires rule == Corrected || !ShortRun(b) || WordOffset(c + |BlockBits(b)|, w) != 0
    requires AreWords(w, ws) && all == Stream(w, ws) + rest
    requires OnesBranch(w, bits, c, b).0 == ws
    requires OnesBranch(w, bits, c, b).1 == Filled(rest, false, w)
    requires OnesBranch(w, bits, c, b).2 == |rest|
    ensures Accounts(w, all, Step(w, bits, c, b, rule), false)
  {
    Suffix(Stream(w, ws), rest);
    OnesStep(w, bits, c, b, rule, all);
  }

  /** A ones block, then the check for a completed word. */
  lemma OnesStep(w: nat, bits: seq<bool>, c: nat, b: Byte, rule: SpillRule, all: seq<bool>)
    requires IsWidth(w) && |bits| == w && c < w && Mode(b) == ModeOnes
    requires Accounts(w, all, OnesBranch(w, bits, c, b), false)
    requires rule == Corrected || !ShortRun(b) || WordOffset(c + |BlockBits(b)|, w) != 0
    ensures Accounts(w, all, Step(w, bits, c, b, rule), false)
  {
    RunStepAccounts(w, c, b, rule, all, OnesBranch(w, bits, c, b));
  }

  /** The check for a completed word after a run branch. */
  lemma RunStepAccounts(w: nat, c: nat, b: Byte, rule: SpillRule, all: seq<bool>, s: State)
    requires IsWidth(w) && (Mode(b) == ModeZeros || Mode(b) == ModeOnes)
    requires |s.1| == w && s.2 <= w && |s.0| * w + s.2 == c + |BlockBits(b)|
    requires Accounts(w, all, s, false)
    requires rule == Corrected || !ShortRun(b) || WordOffset(c + |BlockBits(b)|, w) != 0
    requires Count(b) == MaxCount ==> s.2 < w
    ensures Accounts(w, all, WordCheck(w, b, s, rule), false)
  {
    if s.2 == w {
      MulSucc(|s.0|, w);
      WordOffsetOf(c + |BlockBits(b)|, w, |s.0| + 1, 0);
    }
    RunWordAccounts(w, b, all, s, rule);
  }

  /** Every run block with a terminator ends off a word boundary of the
      stream; k is the number of bits already in the current word. */
  predicate NoStray(w: nat, k: nat, blocks: seq<Byte>)
    requires w > 0
    decreases |blocks|
  {
    blocks == [] ||
    ((ShortRun(blocks[0]) ==> WordOffset(k + |BlockBits(blocks[0])|, w) != 0) &&
     NoStray(w, WordOffset(k + |BlockBits(blocks[0])|, w), blocks[1..]))
  }

  /** The position of bit x of the stream within its word. */
  function WordOffset(x: nat, w: nat): (r: nat)
    requires w > 0
    ensures r < w
    decreases x
  {
    if x < w then x else WordOffset(x - w, w)
  }

  /** Past q whole words, bit q * w + r sits at position r of its word. */
  lemma {:induction false} WordOffsetOf(x: nat, w: nat, q: nat, r: nat)
    requires 0 <= r < w && x == q * w + r
    ensures WordOffset(x, w) == r
    decreases q
  {
    if q > 0 {
      MulSucc(q - 1, w);
      WordOffsetOf(x - w, w, q - 1, r);
    }
  }

  /** One block and what it leaves pending: the block's bits are accounted
      for, and the pending bits are the stream's bits past its last word
      boundary. */
  lemma StepPending(w: nat, cur: seq<bool>, bits: seq<bool>, c: nat, b: Byte, rule: SpillRule) returns (p: seq<bool>)
    requires IsWidth(w) && c == |cur| < w && bits == Filled(cur, false, w)
    requires rule == Corrected || !ShortRun(b) || WordOffset(c + |BlockBits(b)|, w) != 0
    ensures p == Pending(cur + BlockBits(b), Step(w, bits, c, b, rule).2)
    ensures |p| == Step(w, bits, c, b, rule).2 == WordOffset(c + |BlockBits(b)|, w)
    ensures Step(w, bits, c, b, rule).1 == Filled(p, false, w)
  {
    StepAccounts(w, cur, b, rule);
    var s := Step(w, bits, c, b, rule);
    p := Pending(cur + BlockBits(b), s.2);
    WordOffsetOf(c + |BlockBits(b)|, w, |s.0|, s.2);
  }

  /** The loop over the remaining blocks adds their expansion to what the
      state accounts for. */
  lemma {:induction false} RunAccounts(w: nat, blocks: seq<Byte>, cur: seq<bool>, bits: seq<bool>, c: nat, rule: SpillRule)
    requires IsWidth(w) && c == |cur| < w && bits == Filled(cur, false, w)
    requires rule == Corrected || NoStray(w, c, blocks)
    ensures Accounts(w, cur + Expand(blocks), Run(w, blocks, bits, c, rule), false)
    decreases |blocks|, 1
  {
    if blocks == [] {
      assert cur + Expand(blocks) == cur;
      assert cur[|cur| - |cur|..] == cur;
    } else {
      var b := blocks[0];
      var s := Step(w, bits, c, b, rule);
      var p := StepPending(w, cur, bits, c, b, rule);
      RunRest(w, blocks, cur, bits, c, rule, s, p);
    }
  }

  /** The loop over the blocks after the first, from its pending bits. */
  lemma {:induction false} RunRest(w: nat, blocks: seq<Byte>, cur: seq<bool>, bits: seq<bool>, c: nat, rule: SpillRule, s: State, p: seq<bool>)
    requires IsWidth(w) && c == |cur| < w && blocks != []
    requires bits == Filled(cur, false, w)
    requires rule == Corrected || !ShortRun(blocks[0]) || WordOffset(c + |BlockBits(blocks[0])|, w) != 0
    requires rule == Corrected || NoStray(w, s.2, blocks[1..])
    requires s == Step(w, bits, c, blocks[0], rule)
    requires p == Pending(cur + BlockBits(blocks[0]), s.2) && |p| == s.2 < w
    requires s.1 == Filled(p, false, w)
    ensures Accounts(w, cur + Expand(blocks), Run(w, blocks, bits, c, rule), false)
    decreases |blocks|, 0
  {
    RunAccounts(w, blocks[1..], p, s.1, s.2, rule);
    RunLink(w, blocks, cur, bits, c, rule, s, p, Run(w, blocks[1..], s.1, s.2, rule));
  }

  /** The first block, then the loop over the rest. */
  lemma RunLink(w: nat, blocks: seq<Byte>, cur: seq<bool>, bits: seq<bool>, c: nat, rule: SpillRule, s: State, p: seq<bool>, r: State)
    requires IsWidth(w) && c == |cur| < w && blocks != []
    requires bits == Filled(cur, false, w)
    requires rule == Corrected || !ShortRun(blocks[0]) || WordOffset(c + |BlockBits(blocks[0])|, w) != 0
    requires s == Step(w, bits, c, blocks[0], rule)
    requires r == Run(w, blocks[1..], s.1, s.2, rule)
    requires p == Pending(cur + BlockBits(blocks[0]), s.2)
    requires Accounts(w, p + Expand(blocks[1..]), r, false)
    ensures Accounts(w, cur + Expand(blocks), Run(w, blocks, bits, c, rule), false)
  {
    StepAccounts(w, cur, blocks[0], rule);
    RunCons(w, blocks, bits, c, rule);
    assert Expand(blocks) == BlockBits(blocks[0]) + Expand(blocks[1..]);
    AccountsChain(w, cur, BlockBits(blocks[0]), Expand(blocks[1..]), s, r);
  }

  /** The last k bits of all. */
  function Pending(all: seq<bool>, k: nat): seq<bool>
    requires k <= |all|
  {
    all[|all| - k..]
  }

  /** A state for the bits before a block, then the loop over the rest from
      its pending bits: together they account for everything. */
  lemma AccountsChain(w: nat, cur: seq<bool>, block: seq<bool>, rest: seq<bool>, s: State, r: State)
    requires Accounts(w, cur + block, s, false)
    requires Accounts(w, Pending(cur + block, s.2) + rest, r, false)
    ensures Accounts(w, cur + (block + rest), (s.0 + r.0, r.1, r.2), false)
  {
    var p := Pending(cur + block, s.2);
    var t := Pending(p + rest, r.2);
    StreamAppend(w, s.0, r.0);
    AppendWords(w, s.0, r.0);
    Concat(cur, block, rest, Stream(w, s.0), Stream(w, r.0), p, t);
  }

  /** The bits of a block and of the rest, each split into written and
      pending bits. */
  lemma Concat(cur: seq<bool>, block: seq<bool>, rest: seq<bool>, x: seq<bool>, y: seq<bool>, p: seq<bool>, t: seq<bool>)
    requires cur + block == x + p && p + rest == y + t
    ensures cur + (block + rest) == (x + y) + t
    ensures (cur + (block + rest))[|cur + (block + rest)| - |t|..] == t
  {
    calc {
      cur + (block + rest);
      (cur + block) + rest;
      (x + p) + rest;
      x + (p + rest);
      x + (y + t);
      (x + y) + t;
    }
    Suffix(x + y, t);
  }

  /** With the corrected refill every block sequence decodes to the complete
      words of its expansion; as written, so does every one in which no run
      block with a terminator ends on a word boundary. */
  lemma DecodedWords(w: nat, blocks: seq<Byte>, rule: SpillRule)
    requires IsWidth(w) && (rule == Corrected || NoStray(w, 0, blocks))
    ensures Run(w, blocks, Repeat(false, w), 0, rule).0 == Pack(w, Expand(blocks))
  {
    assert Filled([], false, w) == Repeat(false, w);
    RunAccounts(w, blocks, [], Repeat(false, w), 0, rule);
    assert [] + Expand(blocks) == Expand(blocks);
    AccountsPack(w, Expand(blocks), Run(w, blocks, Repeat(false, w), 0, rule));
  }

  /** A state that accounts for a stream, with fewer than w bits pending,
      has written exactly the stream's complete words. */
  lemma AccountsPack(w: nat, all: seq<bool>, s: State)
    requires w > 0 && s.2 < w && Accounts(w, all, s, false)
    ensures Pack(w, all) == s.0
  {
    PackStream(w, s.0, all[|all| - s.2..]);
  }

  /** decode as written is right on every block sequence without a stray refill. */
  lemma AsWrittenClean(w: nat, blocks: seq<Byte>)
    requires IsWidth(w) && NoStray(w, 0, blocks)
    ensures DecodeAsWritten(w, blocks) == Pack(w, Expand(blocks))
  {
    DecodedWords(w, blocks, AsWritten);
  }

  // The source's loop, statement by statement, with the corrected refill.

  /** The inner for loop of a run. */
  method Drain(w: nat, v: bool, bits: seq<bool>, bitCount: nat) returns (out: seq<nat>, bits': seq<bool>, bitCount': nat)
    requires 0 < w && |bits| == w
    ensures (out, bits', bitCount') == DrainLoop(w, v, bits, bitCount)
  {
    out, bits', bitCount' := [], bits, bitCount;
    assert [] + DrainLoop(w, v, bits, bitCount).0 == DrainLoop(w, v, bits, bitCount).0;
    while bitCount' >= w
      invariant |bits'| == w
      invariant DrainLoop(w, v, bits, bitCount) ==
        (out + DrainLoop(w, v, bits', bitCount').0, DrainLoop(w, v, bits', bitCount').1, DrainLoop(w, v, bits', bitCount').2)
      decreases bitCount'
    {
      var rest := DrainLoop(w, v, Repeat(v, w), bitCount' - w);
      assert DrainLoop(w, v, bits', bitCount') == ([ToNat(bits')] + rest.0, rest.1, rest.2);
      assert (out + [ToNat(bits')]) + rest.0 == out + ([ToNat(bits')] + rest.0);
      out := out + [ToNat(bits')];
      bits' := Repeat(v, w);
      bitCount' := bitCount' - w;
    }
    assert out + [] == out;
  }

  /** A zeros block. */
  method ZerosBlock(w: nat, bits: seq<bool>, bitCount: nat, b: Byte) returns (out: seq<nat>, bits': seq<bool>, bitCount': nat)
    requires 0 < w && |bits| == w && Mode(b) == ModeZeros
    ensures (out, bits', bitCount') == ZerosBranch(w, bits, bitCount, b)
  {
    var count := Count(b);
    out, bits', bitCount' := Drain(w, false, bits, bitCount + count);
    if count < MaxCount {
      bits' := Or(bits', Shl(FromNat(1, w), bitCount'));
      bitCount' := bitCount' + 1;
    }
  }

  /** A ones block. */
  method OnesBlock(w: nat, bits: seq<bool>, bitCount: nat, b: Byte) returns (out: seq<nat>, bits': seq<bool>, bitCount': nat)
    requires 0 < w && |bits| == w && Mode(b) == ModeOnes
    ensures (out, bits', bitCount') == OnesBranch(w, bits, bitCount, b)
  {
    var count := Count(b);
    var mask := Repeat(true, w);
    out, bits', bitCount' := Drain(w, true, Or(bits, Shl(mask, bitCount)), bitCount + count);
    if bitCount' > 0 {
      bits' := And(bits', Not(Shl(mask, bitCount')));
    } else {
      bits' := Repeat(false, w);
    }
    if count < MaxCount {
      bitCount' := bitCount' + 1;
    }
  }

  /** A literal block. */
  method LiteralBlock(w: nat, bits: seq<bool>, bitCount: nat, b: Byte) returns (bits': seq<bool>, bitCount': nat)
    requires |bits| == w && Mode(b) != ModeZeros && Mode(b) != ModeOnes
    ensures ([], bits', bitCount') == LiteralBranch(w, bits, bitCount, b)
  {
    bits' := Or(bits, Shl(FromNat(b, w), bitCount));
    bitCount' := bitCount + LiteralSize;
  }

  /** The check for a completed word, with the corrected refill. */
  method Complete(w: nat, b: Byte, out: seq<nat>, bits: seq<bool>, bitCount: nat)
    returns (out': seq<nat>, bits': seq<bool>, bitCount': nat)
    requires IsWidth(w) && |bits| == w && bitCount < w + LiteralSize
    ensures (out', bits', bitCount') == WordCheck(w, b, (out, bits, bitCount), Corrected)
  {
    if bitCount < w {
      return out, bits, bitCount;
    }
    out', bitCount' := out + [ToNat(bits)], bitCount - w;
    if Mode(b) == ModeZeros || Mode(b) == ModeOnes {
      bits' := Repeat(false, w);
    } else {
      bits' := Spill(w, b, bitCount');
    }
  }

  /** The body of the source's loop for one block. */
  method DecodeBlock(w: nat, bits: seq<bool>, bitCount: nat, b: Byte) returns (out: seq<nat>, bits': seq<bool>, bitCount': nat)
    requires IsWidth(w) && |bits| == w && bitCount < w
    ensures (out, bits', bitCount') == Step(w, bits, bitCount, b, Corrected)
  {
    var mode := Mode(b);
    if mode == ModeZeros {
      out, bits', bitCount' := ZerosBlock(w, bits, bitCount, b);
    } else if mode == ModeOnes {
      out, bits', bitCount' := OnesBlock(w, bits, bitCount, b);
    } else {
      out := [];
      bits', bitCount' := LiteralBlock(w, bits, bitCount, b);
    }
    out, bits', bitCount' := Complete(w, b, out, bits', bitCount');
  }

  /** decode, with the corrected refill: the words written are exactly the
      complete W-bit words of the expanded stream; a trailing partial word is
      dropped. */
  method Decode(w: nat, blocks: seq<Byte>) returns (words: seq<nat>)
    requires IsWidth(w)
    ensures words == Run(w, blocks, Repeat(false, w), 0, Corrected).0
    ensures words == Pack(w, Expand(blocks))
  {
    var bits := Repeat(false, w);
    var bitCount: nat := 0;
    words := [];
    var k := 0;
    ghost var all := Run(w, blocks, bits, bitCount, Corrected).0;
    assert blocks[0..] == blocks;
    while k < |blocks|
      invariant k <= |blocks| && |bits| == w && bitCount < w
      invariant all == words + Run(w, blocks[k..], bits, bitCount, Corrected).0
    {
      var out, bits', bitCount' := DecodeBlock(w, bits, bitCount, blocks[k]);
      assert blocks[k..][1..] == blocks[k + 1..];
      RunFront(w, blocks[k..], words, bits, bitCount, (out, bits', bitCount'));
      words, bits, bitCount := words + out, bits', bitCount';
      k := k + 1;
    }
    assert blocks[k..] == [];
    DecodeDone(w, blocks, words, bits, bitCount);
  }

  /** After the last block, the words written are all there are. */
  lemma DecodeDone(w: nat, blocks: seq<Byte>, words: seq<nat>, bits: seq<bool>, bitCount: nat)
    requires IsWidth(w) && |bits| == w && bitCount < w
    requires Run(w, blocks, Repeat(false, w), 0, Corrected).0 == words + Run(w, [], bits, bitCount, Corrected).0
    ensures words == Run(w, blocks, Repeat(false, w), 0, Corrected).0
    ensures words == Pack(w, Expand(blocks))
  {
    assert words + [] == words;
    DecodedWords(w, blocks, Corrected);
  }

  /** One iteration of decode's loop: the words written so far, then those
      of the remaining blocks. */
  lemma RunFront(w: nat, rest: seq<Byte>, words: seq<nat>, bits: seq<bool>, bitCount: nat, s: State)
    requires IsWidth(w) && rest != [] && |bits| == w && bitCount < w
    requires s == Step(w, bits, bitCount, rest[0], Corrected)
    ensures words + Run(w, rest, bits, bitCount, Corrected).0 ==
      (words + s.0) + Run(w, rest[1..], s.1, s.2, Corrected).0
  {
    RunCons(w, rest, bits, bitCount, Corrected);
    Assoc(words, s.0, Run(w, rest[1..], s.1, s.2, Corrected).0);
  }

  /** The loop's first iteration. */
  lemma RunCons(w: nat, rest: seq<Byte>, bits: seq<bool>, bitCount: nat, rule: SpillRule)
    requires IsWidth(w) && rest != [] && |bits| == w && bitCount < w
    ensures Run(w, rest, bits, bitCount, rule) ==
      (Step(w, bits, bitCount, rest[0], rule).0 +
       Run(w, rest[1..], Step(w, bits, bitCount, rest[0], rule).1, Step(w, bits, bitCount, rest[0], rule).2, rule).0,
       Run(w, rest[1..], Step(w, bits, bitCount, rest[0], rule).1, Step(w, bits, bitCount, rest[0], rule).2, rule).1,
       Run(w, rest[1..], Step(w, bits, bitCount, rest[0], rule).1, Step(w, bits, bitCount, rest[0], rule).2, rule).2)
  {
  }

  lemma Assoc(a: seq<nat>, b: seq<nat>, c: seq<nat>)
    ensures a + (b + c) == (a + b) + c
  {
  }

  /** The discrepancy in general: as written, the spill after a run block that
      completes a word leaves the run tag's top bit in bit 0 of the register,
      which then belongs to the next word, instead of an empty register. */
  lemma StraySpill(w: nat, b: Byte)
    requires IsWidth(w) && (Mode(b) == ModeZeros || Mode(b) == ModeOnes)
    ensures Spill(w, b, 0) == FromNat(1, w) != Repeat(false, w)
  {
    var low := FromNat(b % 128, LiteralSize);
    var high := [true] + Repeat(false, w - LiteralSize - 1);
    TagBits(w, b);
    ShrPast(low, high);
    OneBits(w);
    OneShifted(w);
  }

  lemma OneShifted(w: nat)
    requires LiteralSize < w
    ensures ([true] + Repeat(false, w - LiteralSize - 1)) + Repeat(false, LiteralSize) == [true] + Repeat(false, w - 1)
    ensures [true] + Repeat(false, w - 1) != Repeat(false, w)
  {
    assert ([true] + Repeat(false, w - 1))[0] != Repeat(false, w)[0];
  }

  /** A run block widened to w bits: its 7 low bits, then the tag bit 7 set. */
  lemma TagBits(w: nat, b: Byte)
    requires IsWidth(w) && (Mode(b) == ModeZeros || Mode(b) == ModeOnes)
    ensures FromNat(b, w) == FromNat(b % 128, LiteralSize) + ([true] + Repeat(false, w - LiteralSize - 1))
  {
    var k := w - LiteralSize;
    assert Pow2(LiteralSize) == 128;
    DivModUnique(b, 128, 1, b - 128);
    FromNatSplit(b, LiteralSize, k);
    OneBits(k);
  }

  lemma OneBits(w: nat)
    requires w > 0
    ensures FromNat(1, w) == [true] + Repeat(false, w - 1)
  {
    FromNatWiden(1, 1, w);
  }

  /** Shifting right past the low part leaves the high part, then zeros. */
  lemma ShrPast(low: seq<bool>, high: seq<bool>)
    ensures Shr(low + high, |low|) == high + Repeat(false, |low|)
  {
    var x, y := Shr(low + high, |low|), high + Repeat(false, |low|);
    forall j | 0 <= j < |x|
      ensures x[j] == y[j]
    {
      if j < |high| {
        assert (low + high)[j + |low|] == high[j];
      }
    }
  }
}
