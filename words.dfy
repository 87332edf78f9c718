/** Words of width W and the logical bit stream they form.

    The codec concatenates its W-bit words least-significant bit first, in
    order, into one bit stream; the decoder cuts a stream back into complete
    W-bit words and drops a trailing partial word. */
module Words {
  import opened Bits

  /** The widths of the unsigned word types the codec is used with. */
  predicate IsWidth(w: nat)
  {
    w == 8 || w == 16 || w == 32 || w == 64
  }

  /** Every value fits in w bits, as values of a w-bit unsigned type do. */
  predicate AreWords(w: nat, ws: seq<nat>)
  {
    forall k :: 0 <= k < |ws| ==> ws[k] < Pow2(w)
  }

  /** The logical bit stream of a word sequence. */
  function Stream(w: nat, ws: seq<nat>): seq<bool>
  {
    if ws == [] then [] else FromNat(ws[0], w) + Stream(w, ws[1..])
  }

  /** Every word contributes w bits. */
  lemma {:induction false} StreamLength(w: nat, ws: seq<nat>)
    ensures |Stream(w, ws)| == |ws| * w
  {
    if ws != [] {
      StreamLength(w, ws[1..]);
    }
  }

  /** The complete w-bit words of a bit stream, in order. */
  function Pack(w: nat, bits: seq<bool>): (ws: seq<nat>)
    requires w > 0
    ensures |ws| * w <= |bits| < (|ws| + 1) * w
    ensures AreWords(w, ws)
    decreases |bits|
  {
    if |bits| < w then [] else [ToNat(bits[..w])] + Pack(w, bits[w..])
  }

  lemma AppendWords(w: nat, a: seq<nat>, b: seq<nat>)
    requires AreWords(w, a) && AreWords(w, b)
    ensures AreWords(w, a + b)
  {
    forall k | 0 <= k < |a + b|
      ensures (a + b)[k] < Pow2(w)
    {
      if k >= |a| {
        assert (a + b)[k] == b[k - |a|];
      }
    }
  }

  lemma {:induction false} StreamAppend(w: nat, a: seq<nat>, b: seq<nat>)
    ensures Stream(w, a + b) == Stream(w, a) + Stream(w, b)
  {
    if a == [] {
      assert a + b == b;
    } else {
      assert (a + b)[1..] == a[1..] + b;
      StreamAppend(w, a[1..], b);
    }
  }

  /** Loading word i appends its bits to the stream loaded so far, and removes
      them from the front of what is still to be loaded. */
  lemma LoadWord(w: nat, ws: seq<nat>, i: nat)
    requires i < |ws|
    ensures Stream(w, ws[..i + 1]) == Stream(w, ws[..i]) + FromNat(ws[i], w)
    ensures Stream(w, ws[i..]) == FromNat(ws[i], w) + Stream(w, ws[i + 1..])
  {
    assert ws[..i + 1] == ws[..i] + [ws[i]];
    StreamAppend(w, ws[..i], [ws[i]]);
    assert ws[i..][1..] == ws[i + 1..];
  }

  /** The stream from word i on starts with word i. */
  lemma StreamAt(w: nat, ws: seq<nat>, i: nat)
    requires i < |ws|
    ensures Stream(w, ws[i..]) == FromNat(ws[i], w) + Stream(w, ws[i + 1..])
  {
    assert ws[i..][1..] == ws[i + 1..];
  }

  /** The number of words is the stream length divided by w, rounded down. */
  lemma PackLength(w: nat, bits: seq<bool>)
    requires w > 0
    ensures |Pack(w, bits)| == |bits| / w
  {
    var n := |Pack(w, bits)|;
    DivBetween(|bits|, w, n);
  }

  lemma DivBetween(x: nat, w: nat, n: nat)
    requires w > 0 && n * w <= x < (n + 1) * w
    ensures x / w == n
  {
    var q := x / w;
    assert x == q * w + x % w;
    if q < n {
      MulMono(w, q + 1, n);
    } else if q > n {
      MulMono(w, n + 1, q);
    }
  }

  /** Cutting the stream of a word sequence, followed by fewer than w extra
      bits, gives back the words. */
  lemma {:induction false} PackStream(w: nat, ws: seq<nat>, pad: seq<bool>)
    requires w > 0 && AreWords(w, ws) && |pad| < w
    ensures Pack(w, Stream(w, ws) + pad) == ws
  {
    if ws != [] {
      var s := Stream(w, ws) + pad;
      var head := FromNat(ws[0], w);
      assert s == head + (Stream(w, ws[1..]) + pad);
      assert s[..w] == head;
      assert s[w..] == Stream(w, ws[1..]) + pad;
      ToNatFromNat(ws[0], w);
      PackStream(w, ws[1..], pad);
    }
  }

  /** The same for a stream followed by fewer than w bits of padding. */
  lemma PackPadded(w: nat, ws: seq<nat>, e: seq<bool>)
    requires w > 0 && AreWords(w, ws)
    requires |Stream(w, ws)| <= |e| < |Stream(w, ws)| + w && e[..|Stream(w, ws)|] == Stream(w, ws)
    ensures Pack(w, e) == ws
  {
    var n := |Stream(w, ws)|;
    var pad := e[n..];
    assert e == e[..n] + pad;
    PackStream(w, ws, pad);
  }
}
