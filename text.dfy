/**
 * The .NET string operations the compiler core relies on, written out:
 * `String.Trim()`, `String.TrimEnd(',')` and `Int32.ToString()`.
 */
module Text {

  /** `Char.IsWhiteSpace`: the Unicode space, line and paragraph separators,
      the control characters U+0009..U+000D, and U+0085. */
  predicate IsWhiteSpace(c: char)
  {
    c == ' ' || ('\t' <= c <= '\r') || c == '\U{0085}' || c == '\U{00A0}' ||
    c == '\U{1680}' || ('\U{2000}' <= c <= '\U{200A}') || c == '\U{2028}' ||
    c == '\U{2029}' || c == '\U{202F}' || c == '\U{205F}' || c == '\U{3000}'
  }

  predicate IsComma(c: char)
  {
    c == ','
  }

  /** Drops the longest prefix of `s` whose characters all satisfy `drop`. */
  function TrimStartWhile(s: string, drop: char -> bool): string
  {
    if s != [] && drop(s[0]) then TrimStartWhile(s[1..], drop) else s
  }

  /** Drops the longest suffix of `s` whose characters all satisfy `drop`
      (`String.TrimEnd(params char[])` with `drop` the membership test). */
  function TrimEndWhile(s: string, drop: char -> bool): string
  {
    if s != [] && drop(s[|s| - 1]) then TrimEndWhile(s[..|s| - 1], drop) else s
  }

  /** `String.Trim()`: removes leading and trailing white space. The result is
      no longer than the input and neither starts nor ends with white space. */
  function Trim(s: string): (r: string)
    ensures |r| <= |s|
    ensures r == [] || (!IsWhiteSpace(r[0]) && !IsWhiteSpace(r[|r| - 1]))
  {
    var e := TrimEndWhile(s, IsWhiteSpace);
    TrimEndWhileSpec(s, IsWhiteSpace);
    TrimStartWhileSpec(e, IsWhiteSpace);
    var t := TrimStartWhile(e, IsWhiteSpace);
    assert t != [] ==> t[|t| - 1] == e[|e| - 1];
    t
  }

  /** TrimStartWhile removes a prefix made only of dropped characters, and
      what it keeps does not start with one. */
  lemma {:induction false} TrimStartWhileSpec(s: string, drop: char -> bool)
    ensures var r := TrimStartWhile(s, drop);
      |r| <= |s| && r == s[|s| - |r|..] &&
      (forall i :: 0 <= i < |s| - |r| ==> drop(s[i])) &&
      (r == [] || !drop(r[0]))
  {
    if s != [] && drop(s[0]) {
      TrimStartWhileSpec(s[1..], drop);
    }
  }

  /** TrimEndWhile removes a suffix made only of dropped characters, and
      what it keeps does not end with one. */
  lemma {:induction false} TrimEndWhileSpec(s: string, drop: char -> bool)
    ensures var r := TrimEndWhile(s, drop);
      |r| <= |s| && r == s[..|r|] &&
      (forall i :: |r| <= i < |s| ==> drop(s[i])) &&
      (r == [] || !drop(r[|r| - 1]))
  {
    if s != [] && drop(s[|s| - 1]) {
      TrimEndWhileSpec(s[..|s| - 1], drop);
    }
  }

  predicate AllWhiteSpace(w: string)
  {
    forall i :: 0 <= i < |w| ==> IsWhiteSpace(w[i])
  }

  /** Trim removes white space from both ends only, and what it keeps
      neither starts nor ends with white space. */
  lemma TrimSpec(s: string)
    ensures exists p, q :: AllWhiteSpace(p) && AllWhiteSpace(q) && s == p + Trim(s) + q
    ensures var r := Trim(s);
      r == [] || (!IsWhiteSpace(r[0]) && !IsWhiteSpace(r[|r| - 1]))
  {
    var e := TrimEndWhile(s, IsWhiteSpace);
    var r := TrimStartWhile(e, IsWhiteSpace);
    TrimEndWhileSpec(s, IsWhiteSpace);
    TrimStartWhileSpec(e, IsWhiteSpace);
    assert r == Trim(s);
    var p, q := e[..|e| - |r|], s[|e|..];
    assert AllWhiteSpace(p) by {
      forall i | 0 <= i < |p| ensures IsWhiteSpace(p[i]) {
        assert p[i] == e[i];
      }
    }
    assert AllWhiteSpace(q) by {
      forall i | 0 <= i < |q| ensures IsWhiteSpace(q[i]) {
        assert q[i] == s[|e| + i];
      }
    }
    assert e == p + r;
    assert s == e + q;
    assert s == p + r + q;
    assert AllWhiteSpace(p) && AllWhiteSpace(q) && s == p + Trim(s) + q;
  }

  /** Trimming stops at the first character it must keep: whatever stands
      in front of that character is never touched. */
  lemma {:induction false} TrimEndStopsAt(a: string, x: char, b: string, drop: char -> bool)
    requires !drop(x)
    ensures TrimEndWhile(a + [x] + b, drop) == a + [x] + TrimEndWhile(b, drop)
  {
    if b != [] && drop(b[|b| - 1]) {
      assert (a + [x] + b)[..|a + [x] + b| - 1] == a + [x] + b[..|b| - 1];
      TrimEndStopsAt(a, x, b[..|b| - 1], drop);
    } else {
      assert (a + [x] + b)[|a + [x] + b| - 1] == if b == [] then x else b[|b| - 1];
    }
  }

  /** Trim leaves a string alone exactly when it neither starts nor ends
      with white space. */
  lemma {:induction false} TrimFixedPoint(s: string)
    ensures Trim(s) == s <==> (s == [] || (!IsWhiteSpace(s[0]) && !IsWhiteSpace(s[|s| - 1])))
  {
    TrimSpec(s);
    if s != [] && !IsWhiteSpace(s[0]) && !IsWhiteSpace(s[|s| - 1]) {
      assert TrimEndWhile(s, IsWhiteSpace) == s;
      assert TrimStartWhile(s, IsWhiteSpace) == s;
    }
  }

  function DigitChar(d: nat): (c: char)
    requires d < 10
    ensures '0' <= c <= '9'
  {
    "0123456789"[d]
  }

  /** Decimal rendering of a natural number, without leading zeros. */
  function NatToString(n: nat): (r: string)
    ensures |r| >= 1
    ensures forall i :: 0 <= i < |r| ==> '0' <= r[i] <= '9'
    ensures r[0] == '0' ==> n == 0
  {
    if n < 10 then [DigitChar(n)] else NatToString(n / 10) + [DigitChar(n % 10)]
  }

  /** `Int32.ToString()`: a minus sign for a negative number, then the digits
      of the magnitude. This is the rendering of the invariant culture; a
      culture with another negative sign is not modelled. The text has no
      space in it. */
  function IntToString(i: int): (r: string)
    ensures |r| >= 1
    ensures r[0] == '-' <==> i < 0
    ensures forall k :: (if i < 0 then 1 else 0) <= k < |r| ==> '0' <= r[k] <= '9'
    ensures ' ' !in r
  {
    if i < 0 then "-" + NatToString(-i) else NatToString(i)
  }

  /** In a text without spaces followed by one that starts with a space, the
      first space is where the second text begins. */
  lemma FirstSpaceAt(x: string, t: string)
    requires ' ' !in x && t != [] && t[0] == ' '
    ensures (x + t)[|x|] == ' '
    ensures forall k :: 0 <= k < |x| ==> (x + t)[k] != ' '
  {
    forall k | 0 <= k < |x| ensures (x + t)[k] != ' ' {
      assert (x + t)[k] == x[k];
    }
  }

  /** A text without spaces followed by a text that starts with a space can be
      split at that space in only one way. */
  lemma SplitBeforeSpace(x1: string, t1: string, x2: string, t2: string)
    requires ' ' !in x1 && ' ' !in x2
    requires t1 != [] && t1[0] == ' ' && t2 != [] && t2[0] == ' '
    requires x1 + t1 == x2 + t2
    ensures x1 == x2 && t1 == t2
  {
    FirstSpaceAt(x1, t1);
    FirstSpaceAt(x2, t2);
    assert |x1| == |x2|;
    assert x1 == (x1 + t1)[..|x1|];
    assert x2 == (x2 + t2)[..|x2|];
    assert t1 == (x1 + t1)[|x1|..];
    assert t2 == (x2 + t2)[|x2|..];
  }

  /** The value of a string of decimal digits (the inverse of NatToString). */
  function DigitsValue(s: string): nat
    requires forall i :: 0 <= i < |s| ==> '0' <= s[i] <= '9'
  {
    if s == [] then 0 else DigitsValue(s[..|s| - 1]) * 10 + ((s[|s| - 1] as int) - ('0' as int))
  }

  lemma {:induction false} NatToStringRoundTrip(n: nat)
    ensures DigitsValue(NatToString(n)) == n
  {
    var r := NatToString(n);
    if n < 10 {
      DigitCharValue(n);
      assert r[..|r| - 1] == [];
    } else {
      var p := NatToString(n / 10);
      assert r == p + [DigitChar(n % 10)];
      assert r[..|r| - 1] == p;
      NatToStringRoundTrip(n / 10);
      DigitCharValue(n % 10);
    }
  }

  /** A digit character stands for its digit. */
  lemma DigitCharValue(d: nat)
    requires d < 10
    ensures (DigitChar(d) as int) - ('0' as int) == d
  {
  }

  /** Distinct naturals render as distinct strings. */
  lemma NatToStringInjective(m: nat, n: nat)
    requires NatToString(m) == NatToString(n)
    ensures m == n
  {
    NatToStringRoundTrip(m);
    NatToStringRoundTrip(n);
  }

  /** Distinct integers render as distinct strings: the rendered line and
      column numbers of a diagnostic identify the numbers themselves. */
  lemma IntToStringInjective(i: int, j: int)
    requires IntToString(i) == IntToString(j)
    ensures i == j
  {
    if i < 0 && j < 0 {
      var m, n: nat := -i, -j;
      var a, b := NatToString(m), NatToString(n);
      assert IntToString(i) == "-" + a && IntToString(j) == "-" + b;
      assert a == ("-" + a)[1..] == ("-" + b)[1..] == b;
      NatToStringInjective(m, n);
    } else if i >= 0 && j >= 0 {
      NatToStringInjective(i, j);
    }
  }
}
