/** The JavaScript string operations the app relies on: `includes`,
    `toLowerCase` (ASCII letters only), `trim`, and the decimal rendering
    of a small number inside a template literal. */
module Text {

  /** `sub` occurs in `s` starting at index `i`. */
  ghost predicate OccursAt(s: string, sub: string, i: int)
  {
    0 <= i && i + |sub| <= |s| && s[i..i + |sub|] == sub
  }

  /** `s.includes(sub)`: a prefix is always included, a needle longer
      than the text never is; `ContainsIff` gives the whole meaning. */
  function Contains(s: string, sub: string): (r: bool)
    ensures sub <= s ==> r
    ensures r ==> |sub| <= |s|
    decreases |s|
  {
    if sub <= s then true
    else if |s| == 0 then false
    else Contains(s[1..], sub)
  }

  lemma OccursAtStart(s: string, sub: string)
    ensures OccursAt(s, sub, 0) <==> sub <= s
  {
    if sub <= s {
      assert s[0..|sub|] == sub;
    }
  }

  lemma OccursAtShift(s: string, sub: string, i: int)
    requires |s| > 0 && 0 <= i
    ensures OccursAt(s[1..], sub, i) <==> OccursAt(s, sub, i + 1)
  {
    if i + 1 + |sub| <= |s| {
      assert s[1..][i..i + |sub|] == s[i + 1..i + 1 + |sub|];
    }
  }

  /** `includes` holds exactly when the needle occurs at some index. */
  lemma {:induction false} ContainsIff(s: string, sub: string)
    ensures Contains(s, sub) <==> exists i :: OccursAt(s, sub, i)
    decreases |s|
  {
    OccursAtStart(s, sub);
    if sub <= s {
    } else if |s| == 0 {
    } else {
      ContainsIff(s[1..], sub);
      if Contains(s[1..], sub) {
        var i :| OccursAt(s[1..], sub, i);
        OccursAtShift(s, sub, i);
      } else {
        forall i | 1 <= i ensures !OccursAt(s, sub, i) {
          OccursAtShift(s, sub, i - 1);
        }
      }
    }
  }

  /** Every string includes the empty string, as in JavaScript. */
  lemma ContainsEmpty(s: string)
    ensures Contains(s, "")
  {
  }

  function LowerChar(c: char): char
  {
    if 'A' <= c <= 'Z' then (c as int + 32) as char else c
  }

  /** `toLowerCase`, restricted to the ASCII letters: no capital is left,
      every capital becomes the small letter at the same place in the
      alphabet, and every other character is kept. */
  function ToLower(s: string): (r: string)
    ensures |r| == |s|
    ensures forall i :: 0 <= i < |r| ==> !('A' <= r[i] <= 'Z')
    ensures forall i :: 0 <= i < |s| && 'A' <= s[i] <= 'Z' ==>
      'a' <= r[i] <= 'z' && r[i] as int - 'a' as int == s[i] as int - 'A' as int
    ensures forall i :: 0 <= i < |s| && !('A' <= s[i] <= 'Z') ==> r[i] == s[i]
  {
    seq(|s|, i requires 0 <= i < |s| => LowerChar(s[i]))
  }

  /** Lowercasing works character by character, so it distributes over
      concatenation. */
  lemma ToLowerAppend(x: string, y: string)
    ensures ToLower(x + y) == ToLower(x) + ToLower(y)
  {
    var l := ToLower(x + y);
    var r := ToLower(x) + ToLower(y);
    forall i | 0 <= i < |l|
      ensures l[i] == r[i]
    {
      if i < |x| {
        assert (x + y)[i] == x[i];
      } else {
        assert (x + y)[i] == y[i - |x|];
      }
    }
  }

  /** The code points `String.prototype.trim` removes: WhiteSpace and
      LineTerminator of ECMAScript (tab, vertical tab, form feed, space,
      no-break space, byte order mark, the Zs space separators, LF, CR,
      line and paragraph separators). */
  predicate IsWhitespace(c: char)
  {
    || c == '\t' || c == '\n' || c == '\U{000B}' || c == '\U{000C}' || c == '\r'
    || c == ' ' || c == '\U{00A0}' || c == '\U{1680}'
    || ('\U{2000}' <= c <= '\U{200A}')
    || c == '\U{2028}' || c == '\U{2029}' || c == '\U{202F}' || c == '\U{205F}'
    || c == '\U{3000}' || c == '\U{FEFF}'
  }

  ghost predicate AllWhitespace(s: string)
  {
    forall i :: 0 <= i < |s| ==> IsWhitespace(s[i])
  }

  /** Drops the leading whitespace: what is left is a suffix of `s` that
      does not start with whitespace, and what was dropped is all whitespace. */
  function TrimStart(s: string): (r: string)
    ensures |r| <= |s| && r == s[|s| - |r|..]
    ensures AllWhitespace(s[..|s| - |r|])
    ensures r == [] || !IsWhitespace(r[0])
    decreases |s|
  {
    if |s| > 0 && IsWhitespace(s[0]) then
      var r := TrimStart(s[1..]);
      WhitespaceBefore(s, |s| - 1 - |r|);
      r
    else s
  }

  /** A whitespace character in front of a whitespace run. */
  lemma WhitespaceBefore(s: string, k: nat)
    requires 0 < |s| && k < |s| && IsWhitespace(s[0]) && AllWhitespace(s[1..][..k])
    ensures AllWhitespace(s[..k + 1])
  {
    var p := s[..k + 1];
    var q := s[1..][..k];
    forall i | 1 <= i < k + 1
      ensures IsWhitespace(p[i])
    {
      assert p[i] == q[i - 1];
    }
  }

  /** A whitespace character behind a whitespace run. */
  lemma WhitespaceAfter(s: string, k: nat)
    requires 0 < |s| && k < |s| && IsWhitespace(s[|s| - 1]) && AllWhitespace(s[..|s| - 1][k..])
    ensures AllWhitespace(s[k..])
  {
    var p := s[k..];
    var q := s[..|s| - 1][k..];
    forall i | 0 <= i < |s| - k - 1
      ensures IsWhitespace(p[i])
    {
      assert p[i] == q[i];
    }
  }

  /** Drops the trailing whitespace: what is left is a prefix of `s` that
      does not end with whitespace, and what was dropped is all whitespace. */
  function TrimEnd(s: string): (r: string)
    ensures |r| <= |s| && r == s[..|r|]
    ensures AllWhitespace(s[|r|..])
    ensures r == [] || !IsWhitespace(r[|r| - 1])
    decreases |s|
  {
    if |s| > 0 && IsWhitespace(s[|s| - 1]) then
      var r := TrimEnd(s[..|s| - 1]);
      WhitespaceAfter(s, |r|);
      r
    else s
  }

  /** `s.trim()`: a piece of the input that neither starts nor ends with
      whitespace. */
  function Trim(s: string): (r: string)
    ensures |r| <= |s|
    ensures r == [] || (!IsWhitespace(r[0]) && !IsWhitespace(r[|r| - 1]))
  {
    var t := TrimStart(s);
    var u := TrimEnd(t);
    assert u == [] || u[0] == t[0];
    u
  }

  /** `t` sits in `s` at index `k` with only whitespace around it. */
  ghost predicate PaddedAt(s: string, t: string, k: int)
  {
    0 <= k <= |s| - |t| && s[k..k + |t|] == t && AllWhitespace(s[..k]) && AllWhitespace(s[k + |t|..])
  }

  /** `s` is the trimmed text with only whitespace around it. */
  lemma TrimShape(s: string)
    ensures exists k :: PaddedAt(s, Trim(s), k)
  {
    var t := TrimStart(s);
    var u := TrimEnd(t);
    var k := |s| - |t|;
    SliceOfSuffix(s, t, u, k);
    assert AllWhitespace(s[k + |u|..]);
    assert PaddedAt(s, u, k);
    assert u == Trim(s);
  }

  /** A prefix `u` of the suffix `t` of `s` that starts at `k`. */
  lemma SliceOfSuffix(s: string, t: string, u: string, k: nat)
    requires k <= |s| && t == s[k..] && |u| <= |t| && u == t[..|u|]
    ensures s[k..k + |u|] == u && s[k + |u|..] == t[|u|..]
  {
  }

  lemma {:induction false} TrimStartOfBlank(s: string)
    requires AllWhitespace(s)
    ensures TrimStart(s) == ""
    decreases |s|
  {
    if |s| > 0 {
      TrimStartOfBlank(s[1..]);
    }
  }

  /** `!s.trim()`: the input is blank exactly when every character is whitespace. */
  lemma BlankIff(s: string)
    ensures Trim(s) == "" <==> AllWhitespace(s)
  {
    var t := TrimStart(s);
    if Trim(s) == "" {
      assert t[0..] == t;
      assert |t| == 0;
      assert s[..|s| - |t|] == s;
    }
    if AllWhitespace(s) {
      TrimStartOfBlank(s);
    }
  }

  function DigitChar(d: nat): char
    requires d < 10
  {
    "0123456789"[d]
  }

  /** The decimal rendering of `n`, as `${n}` produces for a non-negative integer. */
  function NatToString(n: nat): (r: string)
    ensures |r| > 0
    ensures forall i :: 0 <= i < |r| ==> '0' <= r[i] <= '9'
    ensures r[0] == '0' ==> n == 0
  {
    if n < 10 then [DigitChar(n)] else NatToString(n / 10) + [DigitChar(n % 10)]
  }

  /** The value of a string of decimal digits. */
  function DigitsValue(s: string): nat
    requires forall i :: 0 <= i < |s| ==> '0' <= s[i] <= '9'
  {
    if s == [] then 0 else DigitsValue(s[..|s| - 1]) * 10 + (s[|s| - 1] as int - '0' as int)
  }

  /** The rendering is faithful: reading the digits back gives the number. */
  lemma {:induction false} NatToStringRoundTrip(n: nat)
    ensures DigitsValue(NatToString(n)) == n
  {
    if n >= 10 {
      NatToStringRoundTrip(n / 10);
      var s := NatToString(n);
      assert s[..|s| - 1] == NatToString(n / 10);
    }
  }
}
