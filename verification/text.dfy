/** String helpers the generator needs: `Array.prototype.join`, the position of
    each joined element, and decimal rendering of integers. */
module Text {

  /** `xs.join(sep)`: the elements separated by `sep`, with nothing before the
      first element or after the last. */
  function Join(xs: seq<string>, sep: string): string
    decreases |xs|
  {
    if |xs| == 0 then ""
    else if |xs| == 1 then xs[0]
    else xs[0] + sep + Join(xs[1..], sep)
  }

  /** Where element `i` starts inside `Join(xs, sep)`: the lengths of the
      elements before it, plus one separator after each of them. */
  function Offset(xs: seq<string>, sep: string, i: nat): nat
    requires i < |xs|
    decreases i
  {
    if i == 0 then 0 else |xs[0]| + |sep| + Offset(xs[1..], sep, i - 1)
  }

  /** Every element appears verbatim in the joined string, at its offset. */
  lemma {:induction false} JoinSlice(xs: seq<string>, sep: string, i: nat)
    requires i < |xs|
    ensures Offset(xs, sep, i) + |xs[i]| <= |Join(xs, sep)|
    ensures Join(xs, sep)[Offset(xs, sep, i) .. Offset(xs, sep, i) + |xs[i]|] == xs[i]
    decreases i
  {
    if i == 0 {
      assert Join(xs, sep)[..|xs[0]|] == xs[0];
    } else {
      var tail := xs[1..];
      JoinSlice(tail, sep, i - 1);
      var head := xs[0] + sep;
      assert Join(xs, sep) == head + Join(tail, sep);
      var o := Offset(tail, sep, i - 1);
      assert Offset(xs, sep, i) == |head| + o;
      assert tail[i - 1] == xs[i];
      assert Join(xs, sep)[|head| + o .. |head| + o + |xs[i]|] == Join(tail, sep)[o .. o + |xs[i]|];
    }
  }

  /** The joined string ends exactly where its last element ends: no trailing
      separator follows the last element. */
  lemma {:induction false} JoinEndsWithLast(xs: seq<string>, sep: string)
    requires |xs| > 0
    ensures Offset(xs, sep, |xs| - 1) + |xs[|xs| - 1]| == |Join(xs, sep)|
    decreases |xs|
  {
    if |xs| > 1 {
      JoinEndsWithLast(xs[1..], sep);
    }
  }

  /** Joining two non-empty lists is joining each and putting one separator
      between the two results. */
  lemma {:induction false} JoinAppend(a: seq<string>, b: seq<string>, sep: string)
    requires |a| > 0 && |b| > 0
    ensures Join(a + b, sep) == Join(a, sep) + sep + Join(b, sep)
    decreases |a|
  {
    if |a| == 1 {
      assert (a + b)[1..] == b;
    } else {
      JoinAppend(a[1..], b, sep);
      assert (a + b)[1..] == a[1..] + b;
    }
  }

  lemma JoinPair(a: string, b: string, sep: string)
    ensures Join([a, b], sep) == a + sep + b
  {
    assert [a, b][1..] == [b];
  }

  /** Replacing a middle block of a list by another block with the same joined
      text leaves the joined text of the whole list unchanged. */
  lemma JoinSplice(pre: seq<string>, mid1: seq<string>, mid2: seq<string>, post: seq<string>, sep: string)
    requires |pre| > 0 && |mid1| > 0 && |mid2| > 0 && |post| > 0
    requires Join(mid1, sep) == Join(mid2, sep)
    ensures Join(pre + mid1 + post, sep) == Join(pre + mid2 + post, sep)
  {
    JoinAppend(pre, mid1, sep);
    JoinAppend(pre + mid1, post, sep);
    JoinAppend(pre, mid2, sep);
    JoinAppend(pre + mid2, post, sep);
  }

  /** Two lists that agree outside positions `i` to `j`, and whose blocks at
      those positions join to the same text, join to the same text. */
  lemma JoinSpliceAt(xs: seq<string>, ys: seq<string>, sep: string, i: nat, j: nat)
    requires 0 < i < j < |xs| == |ys|
    requires xs[..i] == ys[..i] && xs[j..] == ys[j..]
    requires Join(xs[i..j], sep) == Join(ys[i..j], sep)
    ensures Join(xs, sep) == Join(ys, sep)
  {
    assert xs == xs[..i] + xs[i..j] + xs[j..];
    assert ys == xs[..i] + ys[i..j] + xs[j..];
    JoinSplice(xs[..i], xs[i..j], ys[i..j], xs[j..], sep);
  }

  /** A slice of the middle part of `pre + mid + suf`, shifted by `|pre|`, is
      the same slice of `mid`. */
  lemma SliceOfMiddle(pre: string, mid: string, suf: string, lo: nat, hi: nat)
    requires lo <= hi <= |mid|
    ensures |pre| + hi <= |pre + mid + suf|
    ensures (pre + mid + suf)[|pre| + lo .. |pre| + hi] == mid[lo..hi]
  {
    var whole := pre + mid + suf;
    assert forall k | lo <= k < hi :: whole[|pre| + k] == mid[k];
  }

  /** Every element of a joined list appears verbatim in any text that embeds
      the joined list, shifted by what comes before it. */
  lemma EmbeddedJoinSlice(pre: string, xs: seq<string>, sep: string, suf: string, i: nat)
    requires i < |xs|
    ensures var s := |pre| + Offset(xs, sep, i);
            s + |xs[i]| <= |pre + Join(xs, sep) + suf|
            && (pre + Join(xs, sep) + suf)[s .. s + |xs[i]|] == xs[i]
  {
    JoinSlice(xs, sep, i);
    var o := Offset(xs, sep, i);
    SliceOfMiddle(pre, Join(xs, sep), suf, o, o + |xs[i]|);
  }

  /** The three parts of `pre + mid + suf` are recovered by slicing at the
      part boundaries. */
  lemma FrameSlices(pre: string, mid: string, suf: string)
    ensures |pre + mid + suf| == |pre| + |mid| + |suf|
    ensures (pre + mid + suf)[..|pre|] == pre
    ensures (pre + mid + suf)[|pre| .. |pre| + |mid|] == mid
    ensures (pre + mid + suf)[|pre| + |mid|..] == suf
  {
    var whole := pre + mid + suf;
    assert whole == pre + (mid + suf);
    assert whole == (pre + mid) + suf;
    assert whole[..|pre|] == pre;
    assert whole[|pre| + |mid|..] == suf;
    assert forall k | 0 <= k < |mid| :: whole[|pre| + k] == mid[k];
  }

  /** Moving the text `b` that closes one quoted field and opens the next from
      the second field into the first leaves the two fields' joined text
      unchanged, when nothing is escaped. */
  lemma QuoteShift(nm: string, em: string, q: string, sep: string, b: string, u: string, v: string, w: string)
    requires b == q + sep + em + q
    ensures nm + (q + u + q) + sep + (em + (q + (v + b + w) + q))
         == nm + (q + (u + b + v) + q) + sep + (em + (q + w + q))
  {
    var whole := nm + q + u + b + v + b + w + q;
    assert nm + (q + u + q) + sep + (em + (q + (v + b + w) + q)) == whole;
    assert nm + (q + (u + b + v) + q) + sep + (em + (q + w + q)) == whole;
  }

  predicate IsDigit(c: char) {
    '0' <= c <= '9'
  }

  function DigitChar(d: nat): (c: char)
    requires d < 10
    ensures IsDigit(c)
  {
    "0123456789"[d]
  }

  function DigitValue(c: char): (d: nat)
    requires IsDigit(c)
    ensures d < 10
  {
    (c as int - '0' as int) as nat
  }

  /** The decimal numeral of `n`: digits only, and no leading zero unless the
      number is zero itself. */
  function NatDecimal(n: nat): (s: string)
    ensures |s| > 0
    ensures forall i | 0 <= i < |s| :: IsDigit(s[i])
    ensures s[0] == '0' ==> n == 0
    decreases n
  {
    if n < 10 then [DigitChar(n)] else NatDecimal(n / 10) + [DigitChar(n % 10)]
  }

  /** The value a string of decimal digits denotes; the reading partner of `NatDecimal`. */
  function DecimalValue(s: string): nat
    requires forall i | 0 <= i < |s| :: IsDigit(s[i])
    decreases |s|
  {
    if |s| == 0 then 0 else DecimalValue(s[..|s| - 1]) * 10 + DigitValue(s[|s| - 1])
  }

  /** Reading back the numeral of `n` gives `n`. */
  lemma {:induction false} DecimalRoundTrip(n: nat)
    ensures DecimalValue(NatDecimal(n)) == n
    decreases n
  {
    var s := NatDecimal(n);
    if n < 10 {
      assert s[..|s| - 1] == [];
    } else {
      DecimalRoundTrip(n / 10);
      assert s[..|s| - 1] == NatDecimal(n / 10);
    }
  }

  /** How JavaScript prints an integer-valued number whose magnitude is below
      2^53: a minus sign for negative values, then the decimal numeral of the
      magnitude. */
  function IntDecimal(n: int): (s: string)
    ensures |s| > 0
    ensures n < 0 <==> s[0] == '-'
  {
    if n < 0 then "-" + NatDecimal(-n) else NatDecimal(n)
  }
}
