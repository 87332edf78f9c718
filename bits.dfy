/** Unsigned values and W-bit registers as sequences of bits, bit 0 first.

    The codec reads every word and every block least-significant bit first, so a
    register of width W is modelled as the sequence of its W bits, index 0 being
    the least significant one. The C++ shift, or, and and complement operators on
    such a register become the bitwise definitions below; bits shifted past the
    top are lost, exactly as when the C++ result is stored back into a W-bit
    variable. */
module Bits {

  function Pow2(n: nat): (p: nat)
    ensures p > 0
  {
    if n == 0 then 1 else 2 * Pow2(n - 1)
  }

  function Min(a: int, b: int): int
  {
    if a <= b then a else b
  }

  /** n copies of the bit v. */
  function Repeat(v: bool, n: nat): (r: seq<bool>)
    ensures |r| == n
  {
    seq(n, _ => v)
  }

  /** The unsigned value of a bit sequence, bit 0 being the least significant. */
  function ToNat(s: seq<bool>): (n: nat)
    ensures n < Pow2(|s|)
  {
    if s == [] then 0 else (if s[0] then 1 else 0) + 2 * ToNat(s[1..])
  }

  /** The k low bits of n, least significant first. */
  function FromNat(n: nat, k: nat): (s: seq<bool>)
    ensures |s| == k
  {
    if k == 0 then [] else [n % 2 == 1] + FromNat(n / 2, k - 1)
  }

  /** The number of leading elements of s equal to v. On a register this is
      std::countr_zero (v false) or std::countr_one (v true), capped at the width. */
  function RunLength(s: seq<bool>, v: bool): (n: nat)
    ensures n <= |s|
  {
    if s == [] || s[0] != v then 0 else 1 + RunLength(s[1..], v)
  }

  /** The run is made of v. */
  lemma {:induction false} RunLengthSpec(s: seq<bool>, v: bool)
    ensures forall j :: 0 <= j < RunLength(s, v) ==> s[j] == v
  {
    if s != [] && s[0] == v {
      RunLengthSpec(s[1..], v);
      forall j | 1 <= j < RunLength(s, v) ensures s[j] == v {
        assert s[j] == s[1..][j - 1];
      }
    }
  }

  /** The run is maximal: it ends at the end of s or at a bit other than v. */
  lemma {:induction false} RunLengthStops(s: seq<bool>, v: bool)
    ensures RunLength(s, v) < |s| ==> s[RunLength(s, v)] != v
  {
    if s != [] && s[0] == v {
      RunLengthStops(s[1..], v);
      if RunLength(s, v) < |s| {
        assert s[RunLength(s, v)] == s[1..][RunLength(s[1..], v)];
      }
    }
  }

  // The register operators. Every register has a fixed width, the length of x.

  /** x << k, truncated to the width of x. */
  function Shl(x: seq<bool>, k: nat): seq<bool>
  {
    seq(|x|, j requires 0 <= j < |x| => k <= j && x[j - k])
  }

  /** x >> k. */
  function Shr(x: seq<bool>, k: nat): seq<bool>
  {
    seq(|x|, j requires 0 <= j < |x| => j + k < |x| && x[j + k])
  }

  /** x | y. */
  function Or(x: seq<bool>, y: seq<bool>): seq<bool>
    requires |x| == |y|
  {
    seq(|x|, j requires 0 <= j < |x| => x[j] || y[j])
  }

  /** x & y. */
  function And(x: seq<bool>, y: seq<bool>): seq<bool>
    requires |x| == |y|
  {
    seq(|x|, j requires 0 <= j < |x| => x[j] && y[j])
  }

  /** ~x. */
  function Not(x: seq<bool>): seq<bool>
  {
    seq(|x|, j requires 0 <= j < |x| => !x[j])
  }

  lemma {:induction false} ToNatFromNat(n: nat, k: nat)
    requires n < Pow2(k)
    ensures ToNat(FromNat(n, k)) == n
  {
    if k > 0 {
      ToNatFromNat(n / 2, k - 1);
      assert FromNat(n, k)[1..] == FromNat(n / 2, k - 1);
    }
  }

  /** Reading back the k low bits of a value gives its first k bits. */
  lemma {:induction false} FromNatToNat(s: seq<bool>, k: nat)
    requires k <= |s|
    ensures FromNat(ToNat(s), k) == s[..k]
  {
    if k > 0 {
      FromNatToNat(s[1..], k - 1);
      assert ToNat(s) % 2 == 1 <==> s[0];
      assert ToNat(s) / 2 == ToNat(s[1..]);
      assert s[..k] == [s[0]] + s[1..][..k - 1];
    }
  }

  /** The value of a concatenation: the high part is weighted by 2^|x|. */
  lemma {:induction false} ToNatAppend(x: seq<bool>, y: seq<bool>)
    ensures ToNat(x + y) == ToNat(x) + Pow2(|x|) * ToNat(y)
    decreases |x|, 1
  {
    if x == [] {
      assert x + y == y;
    } else {
      ToNatAppendStep(x, y);
    }
  }

  lemma {:induction false} ToNatAppendStep(x: seq<bool>, y: seq<bool>)
    requires x != []
    ensures ToNat(x + y) == ToNat(x) + Pow2(|x|) * ToNat(y)
    decreases |x|, 0
  {
    assert (x + y)[1..] == x[1..] + y;
    ToNatAppend(x[1..], y);
    var b: int := if x[0] then 1 else 0;
    assert (x + y)[0] == x[0];
    DoubleStep(ToNat(x + y), ToNat(x[1..] + y), b, ToNat(x[1..]), Pow2(|x| - 1), ToNat(y));
  }

  lemma DoubleStep(whole: int, rest: int, b: int, i: int, p: int, t: int)
    requires whole == b + 2 * rest && rest == i + p * t
    ensures whole == (b + 2 * i) + (2 * p) * t
  {
  }

  lemma {:induction false} ToNatZeros(n: nat)
    ensures ToNat(Repeat(false, n)) == 0
  {
    if n > 0 {
      assert Repeat(false, n)[1..] == Repeat(false, n - 1);
      ToNatZeros(n - 1);
    }
  }

  /** Appending zero bits above the top does not change a value. */
  lemma ToNatPadded(x: seq<bool>, n: nat)
    ensures ToNat(x + Repeat(false, n)) == ToNat(x)
  {
    ToNatAppend(x, Repeat(false, n));
    ToNatZeros(n);
  }

  /** The k low bits of the value of at most k bits: those bits, then zeros. */
  lemma FromNatPadded(c: seq<bool>, k: nat)
    requires |c| <= k
    ensures FromNat(ToNat(c), k) == c + Repeat(false, k - |c|)
  {
    var padded := c + Repeat(false, k - |c|);
    ToNatPadded(c, k - |c|);
    FromNatToNat(padded, k);
    assert padded[..k] == padded;
  }

  /** A value that fits in m bits has only zeros above bit m. */
  lemma {:induction false} FromNatWiden(n: nat, m: nat, k: nat)
    requires m <= k && n < Pow2(m)
    ensures FromNat(n, k) == FromNat(n, m) + Repeat(false, k - m)
  {
    if m == 0 {
      FromNatZero(k);
    } else {
      FromNatWiden(n / 2, m - 1, k - 1);
      assert Repeat(false, k - m) == Repeat(false, (k - 1) - (m - 1));
    }
  }

  lemma {:induction false} FromNatZero(k: nat)
    ensures FromNat(0, k) == Repeat(false, k)
  {
    if k > 0 {
      FromNatZero(k - 1);
      assert Repeat(false, k) == [false] + Repeat(false, k - 1);
    }
  }

  /** Reducing n modulo 2^k keeps its k low bits. */
  lemma {:induction false} FromNatMod(n: nat, k: nat)
    ensures FromNat(n % Pow2(k), k) == FromNat(n, k)
  {
    if k > 0 {
      var p := Pow2(k - 1);
      assert Pow2(k) == 2 * p;
      HalveMod(n, p);
      FromNatMod(n / 2, k - 1);
    }
  }

  /** n / d on naturals. */
  function Div(n: nat, d: nat): (q: nat)
    requires d > 0
    ensures q * d <= n < (q + 1) * d
  {
    n / d
  }

  /** The low m bits, then the bits above them. */
  lemma {:induction false} FromNatSplit(n: nat, m: nat, k: nat)
    ensures FromNat(n, m + k) == FromNat(n % Pow2(m), m) + FromNat(Div(n, Pow2(m)), k)
  {
    if m > 0 {
      FromNatSplit(n / 2, m - 1, k);
      FromNatSplitStep(n, m, k);
    }
  }

  lemma FromNatSplitStep(n: nat, m: nat, k: nat)
    requires m > 0
    requires FromNat(n / 2, m - 1 + k) ==
      FromNat((n / 2) % Pow2(m - 1), m - 1) + FromNat(Div(n / 2, Pow2(m - 1)), k)
    ensures FromNat(n, m + k) == FromNat(n % Pow2(m), m) + FromNat(Div(n, Pow2(m)), k)
  {
    var p := Pow2(m - 1);
    var bit := [n % 2 == 1];
    var low, high := FromNat((n / 2) % p, m - 1), FromNat(Div(n / 2, p), k);
    LowBits(n, m, p);
    calc {
      FromNat(n, m + k);
      bit + FromNat(n / 2, m - 1 + k);
      bit + (low + high);
      (bit + low) + high;
    }
  }

  lemma LowBits(n: nat, m: nat, p: nat)
    requires m > 0 && p == Pow2(m - 1)
    ensures FromNat(n % Pow2(m), m) == [n % 2 == 1] + FromNat((n / 2) % p, m - 1)
    ensures Div(n, Pow2(m)) == Div(n / 2, p)
  {
    assert Pow2(m) == 2 * p;
    HalveMod(n, p);
  }

  lemma HalveMod(n: nat, p: nat)
    requires p > 0
    ensures (n % (2 * p)) % 2 == n % 2
    ensures (n % (2 * p)) / 2 == (n / 2) % p
    ensures n / (2 * p) == (n / 2) / p
  {
    var a, b := n / 2, n % 2;
    var q, r := a / p, a % p;
    assert a == p * q + r;
    assert n == (2 * p) * q + (2 * r + b);
    DivModUnique(n, 2 * p, q, 2 * r + b);
  }

  lemma DivModUnique(n: nat, d: nat, q: nat, r: nat)
    requires 0 <= r < d && n == d * q + r
    ensures n / d == q && n % d == r
  {
    var m := n / d;
    assert n == d * m + n % d;
    if m < q {
      MulMono(d, m + 1, q);
    } else if m > q {
      MulMono(d, q + 1, m);
    }
  }

  lemma MulMono(d: nat, a: nat, b: nat)
    requires a <= b
    ensures d * a <= d * b
  {
  }
}
