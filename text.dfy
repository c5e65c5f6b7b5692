/**
 * The JavaScript string operations the dashboard relies on, on `seq<char>`:
 * `includes`, ASCII `toLowerCase`, `trim`, `substring` with its index clamping,
 * `localeCompare` taken as lexicographic code-point order, and the decimal
 * rendering of an integer inside a template string.
 */
module Text {

  // ---------------------------------------------------------------- includes

  predicate StartsWith(s: string, prefix: string) {
    |prefix| <= |s| && s[..|prefix|] == prefix
  }

  /** `sub` occurs in `s` starting at position `i`. */
  predicate OccursAt(s: string, sub: string, i: int) {
    0 <= i <= |s| - |sub| && s[i..i + |sub|] == sub
  }

  /** `s.includes(sub)`: some window of `s` equals `sub` (the empty string is in every string). */
  predicate Contains(s: string, sub: string)
    ensures sub == [] ==> Contains(s, sub)
    ensures Contains(s, sub) ==> |sub| <= |s|
    decreases |s|
  {
    StartsWith(s, sub) || (s != [] && Contains(s[1..], sub))
  }

  /** The search above finds exactly the positions at which `sub` occurs. */
  lemma {:induction false} ContainsIffOccurs(s: string, sub: string)
    ensures Contains(s, sub) <==> exists i :: OccursAt(s, sub, i)
    decreases |s|
  {
    if StartsWith(s, sub) {
      assert s[0..0 + |sub|] == s[..|sub|] == sub;
      assert OccursAt(s, sub, 0);
    } else if s == [] {
      assert |sub| > 0;
    } else {
      ContainsIffOccurs(s[1..], sub);
      if Contains(s[1..], sub) {
        var i :| OccursAt(s[1..], sub, i);
        OccursAtShift(s, sub, i + 1);
        assert OccursAt(s, sub, i + 1);
      } else {
        forall i | 0 <= i <= |s| - |sub|
          ensures !OccursAt(s, sub, i)
        {
          if i == 0 {
            assert s[..|sub|] == s[0..0 + |sub|];
          } else {
            OccursAtShift(s, sub, i);
          }
        }
      }
    }
  }

  /** An occurrence past the first position is an occurrence in the tail, one position earlier. */
  lemma OccursAtShift(s: string, sub: string, i: int)
    requires s != [] && 1 <= i
    ensures OccursAt(s, sub, i) <==> OccursAt(s[1..], sub, i - 1)
  {
    if 0 <= i <= |s| - |sub| {
      assert 0 <= i - 1 <= |s[1..]| - |sub|;
      var here, there := s[i..i + |sub|], s[1..][i - 1..i - 1 + |sub|];
      forall k | 0 <= k < |sub|
        ensures here[k] == there[k]
      {
        assert here[k] == s[i + k];
        assert there[k] == s[1..][i - 1 + k] == s[i + k];
      }
      assert here == there;
    }
  }

  /** A string in which the first character of `sub` never occurs does not contain `sub`. */
  lemma {:induction false} LacksFirstChar(s: string, sub: string)
    requires sub != [] && forall i :: 0 <= i < |s| ==> s[i] != sub[0]
    ensures !Contains(s, sub)
    decreases |s|
  {
    if s != [] {
      assert s[0] != sub[0];
      if |sub| <= |s| {
        assert s[..|sub|][0] == s[0];
      }
      assert !StartsWith(s, sub);
      forall i | 0 <= i < |s[1..]|
        ensures s[1..][i] != sub[0]
      {
        assert s[1..][i] == s[i + 1];
      }
      LacksFirstChar(s[1..], sub);
    }
  }

  // ---------------------------------------------------------------- toLowerCase

  function LowerChar(c: char): char {
    if 'A' <= c <= 'Z' then (c as int + 32) as char else c
  }

  /** ASCII `toLowerCase`: the same length, each character lowered on its own. */
  function ToLower(s: string): (r: string)
    ensures |r| == |s|
    ensures forall i :: 0 <= i < |s| ==> r[i] == LowerChar(s[i])
    ensures forall i :: 0 <= i < |r| ==> !('A' <= r[i] <= 'Z')
  {
    if s == [] then [] else [LowerChar(s[0])] + ToLower(s[1..])
  }

  // ---------------------------------------------------------------- trim

  /** The ECMAScript WhiteSpace and LineTerminator code points, which `trim` removes. */
  predicate IsWhitespace(c: char) {
    c == '\t' || c == '\n' || c == '\U{000B}' || c == '\U{000C}' || c == '\r' || c == ' '
    || c == '\U{00A0}' || c == '\U{1680}' || ('\U{2000}' <= c <= '\U{200A}')
    || c == '\U{2028}' || c == '\U{2029}' || c == '\U{202F}' || c == '\U{205F}'
    || c == '\U{3000}' || c == '\U{FEFF}'
  }

  predicate IsBlank(s: string) {
    forall i :: 0 <= i < |s| ==> IsWhitespace(s[i])
  }

  /** A whitespace character in front changes nothing about blankness. */
  lemma BlankCons(c: char, t: string)
    requires IsWhitespace(c)
    ensures IsBlank([c] + t) <==> IsBlank(t)
  {
    if IsBlank(t) {
      forall i | 0 <= i < |[c] + t|
        ensures IsWhitespace(([c] + t)[i])
      {
        if i > 0 {
          assert ([c] + t)[i] == t[i - 1];
        }
      }
    }
    if IsBlank([c] + t) {
      forall i | 0 <= i < |t|
        ensures IsWhitespace(t[i])
      {
        assert t[i] == ([c] + t)[i + 1];
      }
    }
  }

  /** A whitespace character at the back changes nothing about blankness. */
  lemma BlankSnoc(t: string, c: char)
    requires IsWhitespace(c)
    ensures IsBlank(t + [c]) <==> IsBlank(t)
  {
    if IsBlank(t) {
      forall i | 0 <= i < |t + [c]|
        ensures IsWhitespace((t + [c])[i])
      {
        if i < |t| {
          assert (t + [c])[i] == t[i];
        }
      }
    }
    if IsBlank(t + [c]) {
      forall i | 0 <= i < |t|
        ensures IsWhitespace(t[i])
      {
        assert t[i] == (t + [c])[i];
      }
    }
  }

  /** The recursive step of `TrimStart`: a whitespace character in front is dropped too. */
  lemma TrimStartStep(s: string, r: string)
    requires s != [] && IsWhitespace(s[0])
    requires |r| <= |s| - 1 && r == s[1..][|s| - 1 - |r|..] && IsBlank(s[1..][..|s| - 1 - |r|])
    requires r == [] <==> IsBlank(s[1..])
    ensures r == s[|s| - |r|..] && IsBlank(s[..|s| - |r|])
    ensures r == [] <==> IsBlank(s)
  {
    assert s[..|s| - |r|] == [s[0]] + s[1..][..|s| - 1 - |r|];
    assert s == [s[0]] + s[1..];
    BlankCons(s[0], s[1..][..|s| - 1 - |r|]);
    BlankCons(s[0], s[1..]);
  }

  /** Drops the leading whitespace: the result is a suffix that does not start with whitespace. */
  function TrimStart(s: string): (r: string)
    ensures |r| <= |s| && r == s[|s| - |r|..]
    ensures IsBlank(s[..|s| - |r|])
    ensures r == [] || !IsWhitespace(r[0])
    ensures r == [] <==> IsBlank(s)
  {
    if s != [] && IsWhitespace(s[0]) then
      var r := TrimStart(s[1..]);
      TrimStartStep(s, r);
      r
    else
      assert s[..0] == [];
      s
  }

  /** The recursive step of `TrimEnd`: a whitespace character at the back is dropped too. */
  lemma TrimEndStep(s: string, r: string)
    requires s != [] && IsWhitespace(s[|s| - 1])
    requires |r| <= |s| - 1 && r == s[..|s| - 1][..|r|] && IsBlank(s[..|s| - 1][|r|..])
    requires r == [] <==> IsBlank(s[..|s| - 1])
    ensures r == s[..|r|] && IsBlank(s[|r|..])
    ensures r == [] <==> IsBlank(s)
  {
    var t := s[..|s| - 1];
    assert s[|r|..] == t[|r|..] + [s[|s| - 1]];
    assert s == t + [s[|s| - 1]];
    BlankSnoc(t[|r|..], s[|s| - 1]);
    BlankSnoc(t, s[|s| - 1]);
  }

  /** Drops the trailing whitespace: the result is a prefix that does not end with whitespace. */
  function TrimEnd(s: string): (r: string)
    ensures |r| <= |s| && r == s[..|r|]
    ensures IsBlank(s[|r|..])
    ensures r == [] || !IsWhitespace(r[|r| - 1])
    ensures r == [] <==> IsBlank(s)
  {
    if s != [] && IsWhitespace(s[|s| - 1]) then
      var r := TrimEnd(s[..|s| - 1]);
      TrimEndStep(s, r);
      r
    else
      assert s[|s|..] == [];
      s
  }

  /** `s.trim()`: a window of `s` with only whitespace around it, neither starting nor ending
      with whitespace; empty exactly when `s` holds nothing but whitespace. */
  function Trim(s: string): (r: string)
    ensures exists i :: WindowAt(s, r, i)
    ensures r == [] || (!IsWhitespace(r[0]) && !IsWhitespace(r[|r| - 1]))
    ensures r == [] <==> IsBlank(s)
  {
    var t := TrimStart(s);
    var r := TrimEnd(t);
    TrimWindow(s, t, r);
    r
  }

  /** `r` occurs in `s` at `i` with nothing but whitespace before and after it. */
  predicate WindowAt(s: string, r: string, i: int) {
    OccursAt(s, r, i) && IsBlank(s[..i]) && IsBlank(s[i + |r|..])
  }

  /** The two trims together cut out a window that starts and ends with a visible character. */
  lemma TrimWindow(s: string, t: string, r: string)
    requires |t| <= |s| && t == s[|s| - |t|..] && IsBlank(s[..|s| - |t|])
    requires (t == [] || !IsWhitespace(t[0])) && (t == [] <==> IsBlank(s))
    requires |r| <= |t| && r == t[..|r|] && IsBlank(t[|r|..])
    requires (r == [] || !IsWhitespace(r[|r| - 1])) && (r == [] <==> IsBlank(t))
    ensures WindowAt(s, r, |s| - |t|)
    ensures r == [] || (!IsWhitespace(r[0]) && !IsWhitespace(r[|r| - 1]))
    ensures r == [] <==> IsBlank(s)
  {
    var i := |s| - |t|;
    assert s[i..i + |r|] == t[..|r|];
    assert s[i + |r|..] == t[|r|..];
    if t != [] {
      assert !IsBlank(t);
    }
  }

  // ---------------------------------------------------------------- substring

  /** An index clamped into `[0, len]`, as `substring` does with each argument. */
  function Clamp(k: int, len: nat): (r: nat)
    ensures r <= len
    ensures 0 <= k <= len ==> r == k
  {
    if k < 0 then 0 else if k > len then len else k
  }

  /** `s.substring(start, end)`: both indices clamped, then swapped when out of order. */
  function Substring(s: string, start: int, end: int): (r: string)
    ensures var a, b := Clamp(start, |s|), Clamp(end, |s|);
            |r| == (if a <= b then b - a else a - b)
            && forall k :: 0 <= k < |r| ==> r[k] == s[Min(a, b) + k]
  {
    var a, b := Clamp(start, |s|), Clamp(end, |s|);
    if a <= b then s[a..b] else s[b..a]
  }

  function Min(a: int, b: int): int {
    if a <= b then a else b
  }

  /** The two indices of `substring` may be given in either order. */
  lemma SubstringSymmetric(s: string, i: int, j: int)
    ensures Substring(s, i, j) == Substring(s, j, i)
  {
  }

  /** `s.substring(0, n)` is the first `min(n, |s|)` characters. */
  lemma SubstringPrefix(s: string, n: nat)
    ensures Substring(s, 0, n) == s[..Min(n, |s|)]
  {
  }

  /** `s.substring(s.length - n)` is the last `min(n, |s|)` characters. */
  lemma SubstringSuffix(s: string, n: nat)
    ensures Substring(s, |s| - n, |s|) == s[|s| - Min(n, |s|)..]
  {
  }

  // ---------------------------------------------------------------- localeCompare

  /** `a.localeCompare(b) <= 0`, taken as lexicographic order on code points. */
  predicate LexLe(a: string, b: string)
    ensures a <= b ==> LexLe(a, b)
  {
    a == [] || (b != [] && (a[0] < b[0] || (a[0] == b[0] && LexLe(a[1..], b[1..]))))
  }

  lemma {:induction false} LexLeTotal(a: string, b: string)
    ensures LexLe(a, b) || LexLe(b, a)
  {
    if a != [] && b != [] && a[0] == b[0] {
      LexLeTotal(a[1..], b[1..]);
    }
  }

  lemma {:induction false} LexLeTransitive(a: string, b: string, c: string)
    requires LexLe(a, b) && LexLe(b, c)
    ensures LexLe(a, c)
  {
    if a != [] && a[0] == b[0] && b[0] == c[0] {
      LexLeTransitive(a[1..], b[1..], c[1..]);
    }
  }

  // ---------------------------------------------------------------- number to text

  predicate IsDigit(c: char) {
    '0' <= c <= '9'
  }

  function DigitChar(d: nat): (c: char)
    requires d < 10
    ensures IsDigit(c) && c as int - '0' as int == d
  {
    (48 + d) as char
  }

  /** The decimal digits of `n`, most significant first, as `${n}` renders it. */
  function NatToDecimal(n: nat): (r: string)
    ensures r != [] && forall i :: 0 <= i < |r| ==> IsDigit(r[i])
    ensures r[0] == '0' ==> n == 0
  {
    if n < 10 then [DigitChar(n)] else NatToDecimal(n / 10) + [DigitChar(n % 10)]
  }

  /** `${i}` for an integer: a minus sign before the digits of a negative one. */
  function IntToDecimal(i: int): (r: string)
    ensures r != [] && (r[0] == '-' <==> i < 0) && (i >= 0 ==> IsDigit(r[0]))
    ensures forall k :: 1 <= k < |r| ==> IsDigit(r[k])
  {
    if i < 0 then "-" + NatToDecimal(-i) else NatToDecimal(i)
  }

  /** Reads a string of decimal digits back as a number. */
  function DecimalValue(s: string): nat
    requires forall i :: 0 <= i < |s| ==> IsDigit(s[i])
  {
    if s == [] then 0
    else
      assert IsDigit(s[|s| - 1]);
      DecimalValue(s[..|s| - 1]) * 10 + (s[|s| - 1] as int - '0' as int)
  }

  /** Reads an optionally negative decimal numeral back as an integer. */
  function SignedDecimalValue(s: string): int
    requires s != [] && (s[0] == '-' || IsDigit(s[0]))
    requires forall i :: 1 <= i < |s| ==> IsDigit(s[i])
  {
    if s[0] == '-' then -(DecimalValue(s[1..]) as int) else DecimalValue(s)
  }

  lemma {:induction false} NatToDecimalRoundTrip(n: nat)
    ensures DecimalValue(NatToDecimal(n)) == n
  {
    if n >= 10 {
      NatToDecimalRoundTrip(n / 10);
      var r := NatToDecimal(n);
      assert r[..|r| - 1] == NatToDecimal(n / 10);
    }
  }

  /** Rendering an integer and reading it back gives the integer. */
  lemma IntToDecimalRoundTrip(i: int)
    ensures var r := IntToDecimal(i);
            r != [] && (r[0] == '-' || IsDigit(r[0])) && (forall k :: 1 <= k < |r| ==> IsDigit(r[k]))
            && SignedDecimalValue(r) == i
  {
    var r := IntToDecimal(i);
    if i < 0 {
      NatToDecimalRoundTrip(-i);
      assert r[1..] == NatToDecimal(-i);
    } else {
      NatToDecimalRoundTrip(i);
    }
  }
}
