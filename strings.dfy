/**
 * String operations of the JavaScript runtime that the modelled code relies on:
 * `Array.prototype.join`, `String.prototype.includes` / `indexOf`,
 * `String.prototype.trim` and the decimal rendering of a length in a template
 * literal. JavaScript strings are modelled as sequences of characters; every
 * literal of the modelled code lies in the Basic Multilingual Plane, so a
 * character here is one UTF-16 code unit there.
 */
module Strings {

  datatype Option<T> = None | Some(value: T)

  // ---------------------------------------------------------------- join

  /** `parts.join(sep)`: the parts in order with `sep` between neighbours. */
  function Join(sep: string, parts: seq<string>): string
    decreases |parts|
  {
    if |parts| == 0 then ""
    else if |parts| == 1 then parts[0]
    else parts[0] + sep + Join(sep, parts[1..])
  }

  /** A join of at least one part is at least as long as its first part. */
  lemma JoinFirst(sep: string, parts: seq<string>)
    requires |parts| > 0
    ensures |Join(sep, parts)| >= |parts[0]|
    ensures Join(sep, parts)[..|parts[0]|] == parts[0]
  {
  }

  /** Plain concatenation of the parts, as a consumer of a stream of deltas does. */
  function Concat(parts: seq<string>): string
    decreases |parts|
  {
    if |parts| == 0 then "" else parts[0] + Concat(parts[1..])
  }

  // ------------------------------------------------------- substring search

  /** `needle` occurs in `hay` starting at index `i`. */
  predicate OccursAt(needle: string, hay: string, i: int)
  {
    0 <= i && i + |needle| <= |hay| && hay[i..i + |needle|] == needle
  }

  lemma OccursAtShift(needle: string, hay: string, i: int)
    requires |hay| > 0 && i >= 0
    ensures OccursAt(needle, hay[1..], i) <==> OccursAt(needle, hay, i + 1)
  {
    if 0 <= i && i + |needle| <= |hay[1..]| {
      assert hay[1..][i..i + |needle|] == hay[i + 1..i + 1 + |needle|];
    }
  }

  /** `hay.indexOf(needle)`: the first index at which `needle` occurs, if any. */
  function IndexOf(hay: string, needle: string): (r: Option<nat>)
    ensures r.Some? ==> OccursAt(needle, hay, r.value)
    ensures r.Some? ==> forall j :: 0 <= j < r.value ==> !OccursAt(needle, hay, j)
    ensures r.None? ==> forall j :: !OccursAt(needle, hay, j)
    decreases |hay|
  {
    if |hay| < |needle| then None
    else if hay[..|needle|] == needle then Some(0)
    else
      var rest := IndexOf(hay[1..], needle);
      forall j | 1 <= j
        ensures OccursAt(needle, hay, j) <==> OccursAt(needle, hay[1..], j - 1)
      {
        OccursAtShift(needle, hay, j - 1);
      }
      assert !OccursAt(needle, hay, 0);
      match rest
      case None => None
      case Some(k) => Some(k + 1)
  }

  /** `hay.includes(needle)`. */
  predicate Includes(hay: string, needle: string)
  {
    IndexOf(hay, needle).Some?
  }

  lemma IncludesAt(hay: string, needle: string, i: int)
    requires OccursAt(needle, hay, i)
    ensures Includes(hay, needle)
  {
  }

  lemma NotIncludes(hay: string, needle: string, i: int)
    requires !Includes(hay, needle)
    ensures !OccursAt(needle, hay, i)
  {
  }

  /** An occurrence inside a prefix is an occurrence in the whole string. */
  lemma OccursInPrefix(needle: string, hay: string, n: int, j: int)
    requires 0 <= n <= |hay| && OccursAt(needle, hay[..n], j)
    ensures OccursAt(needle, hay, j)
  {
    assert hay[..n][j..j + |needle|] == hay[j..j + |needle|];
  }

  /** Occurrences in a suffix are the occurrences in the whole string, shifted. */
  lemma OccursInSuffix(needle: string, hay: string, n: int, k: int)
    requires 0 <= n <= |hay| && 0 <= k
    ensures OccursAt(needle, hay[n..], k) <==> OccursAt(needle, hay, n + k)
  {
    if k + |needle| <= |hay| - n {
      assert hay[n..][k..k + |needle|] == hay[n + k..n + k + |needle|];
    }
  }

  /**
   * A needle whose first character appears nowhere else in it, standing right
   * after a prefix that does not contain it, is first found after that prefix.
   */
  lemma FirstOccurrence(pre: string, needle: string, post: string)
    requires |needle| > 0 && forall k :: 1 <= k < |needle| ==> needle[k] != needle[0]
    requires !Includes(pre, needle)
    ensures IndexOf(pre + needle + post, needle) == Some(|pre|)
  {
    var s := pre + needle + post;
    OccursInMiddle(pre, needle, post);
    forall p | 0 <= p < |pre|
      ensures !OccursAt(needle, s, p)
    {
      if p + |needle| <= |pre| {
        // a window inside the prefix is a window of the prefix
        assert s[..|pre|] == pre;
        assert s[p..p + |needle|] == pre[p..p + |needle|];
        NotIncludes(pre, needle, p);
      } else if p + |needle| <= |s| {
        // a window straddling the border sees the needle's first character
        // at a later position, where the needle has another character
        var k := |pre| - p;
        assert s[p..p + |needle|][k] == s[|pre|] == needle[0];
        assert needle[k] != needle[0];
      }
    }
  }

  /** A window inside the middle part of `a + t + b` is a window of `t`. */
  lemma OccursWithin(needle: string, a: string, t: string, b: string, k: int)
    requires 0 <= k && k + |needle| <= |t|
    ensures OccursAt(needle, a + t + b, |a| + k) <==> OccursAt(needle, t, k)
  {
    assert (a + t + b)[|a| + k..|a| + k + |needle|] == t[k..k + |needle|];
  }

  /** A window of an infix `t` of `x` is a window of `x`. */
  lemma OccursInInfix(needle: string, x: string, j: int, t: string, k: int)
    requires 0 <= j && j + |t| <= |x| && x[j..j + |t|] == t
    requires 0 <= k && k + |needle| <= |t|
    ensures OccursAt(needle, t, k) <==> OccursAt(needle, x, j + k)
  {
    var u, v := t[k..k + |needle|], x[j + k..j + k + |needle|];
    forall i | 0 <= i < |needle| ensures u[i] == v[i] {
      assert t[k + i] == x[j..j + |t|][k + i] == x[j + k + i];
    }
    assert u == v;
  }

  /** Concatenation is associative; a proof step for regrouping texts and lists of chunks. */
  lemma Regroup<T>(a: seq<T>, b: seq<T>, c: seq<T>)
    ensures a + b + c == a + (b + c)
  {
  }

  /** Whatever stands between a prefix and a suffix occurs in their concatenation. */
  lemma OccursInMiddle(a: string, x: string, b: string)
    ensures OccursAt(x, a + x + b, |a|)
  {
    assert (a + x + b)[|a|..|a| + |x|] == x;
  }

  // ------------------------------------------------------------------ trim

  /**
   * The characters that `String.prototype.trim` strips: the ECMAScript
   * WhiteSpace and LineTerminator code points.
   */
  predicate IsJsWhitespace(c: char)
  {
    c == '\t' || c == '\n' || c == '\U{B}' || c == '\U{C}' || c == '\r' || c == ' '
    || c == '\U{A0}' || c == '\U{1680}' || ('\U{2000}' <= c <= '\U{200A}')
    || c == '\U{2028}' || c == '\U{2029}' || c == '\U{202F}' || c == '\U{205F}'
    || c == '\U{3000}' || c == '\U{FEFF}'
  }

  function TrimStart(s: string): string
    decreases |s|
  {
    if |s| > 0 && IsJsWhitespace(s[0]) then TrimStart(s[1..]) else s
  }

  function TrimEnd(s: string): string
    decreases |s|
  {
    if |s| > 0 && IsJsWhitespace(s[|s| - 1]) then TrimEnd(s[..|s| - 1]) else s
  }

  /** `s.trim()`: drops the whitespace at both ends. */
  function Trim(s: string): string
  {
    TrimEnd(TrimStart(s))
  }

  /** `TrimStart` drops a whitespace prefix and stops at the first other character. */
  lemma {:induction false} TrimStartSpec(s: string)
    ensures var r := TrimStart(s);
      && |r| <= |s| && r == s[|s| - |r|..]
      && (forall i :: 0 <= i < |s| - |r| ==> IsJsWhitespace(s[i]))
      && (r == [] || !IsJsWhitespace(r[0]))
    decreases |s|
  {
    if |s| > 0 && IsJsWhitespace(s[0]) {
      TrimStartSpec(s[1..]);
      var r := TrimStart(s[1..]);
      assert s[1..][|s[1..]| - |r|..] == s[|s| - |r|..];
      assert forall i :: 1 <= i < |s| - |r| ==> s[i] == s[1..][i - 1];
    }
  }

  /** `TrimEnd` drops a whitespace suffix and stops at the last other character. */
  lemma {:induction false} TrimEndSpec(s: string)
    ensures var r := TrimEnd(s);
      && |r| <= |s| && r == s[..|r|]
      && (forall i :: |r| <= i < |s| ==> IsJsWhitespace(s[i]))
      && (r == [] || !IsJsWhitespace(r[|r| - 1]))
    decreases |s|
  {
    if |s| > 0 && IsJsWhitespace(s[|s| - 1]) {
      TrimEndSpec(s[..|s| - 1]);
      var r := TrimEnd(s[..|s| - 1]);
      assert s[..|s| - 1][..|r|] == s[..|r|];
    }
  }

  /** `r` is `s[i..]` cut to its length, and only whitespace surrounds it in `s`. */
  predicate TrimmedAt(s: string, r: string, i: int)
  {
    && 0 <= i <= |s| - |r| && s[i..i + |r|] == r
    && (forall k :: 0 <= k < i ==> IsJsWhitespace(s[k]))
    && (forall k :: i + |r| <= k < |s| ==> IsJsWhitespace(s[k]))
  }

  /**
   * `s.trim()` is the infix of `s` left after dropping only whitespace on
   * both sides, and it neither starts nor ends with whitespace.
   */
  lemma TrimSpec(s: string)
    ensures exists i :: TrimmedAt(s, Trim(s), i)
    ensures var r := Trim(s); r == [] || (!IsJsWhitespace(r[0]) && !IsJsWhitespace(r[|r| - 1]))
  {
    var t := TrimStart(s);
    TrimStartSpec(s);
    var r := TrimEnd(t);
    TrimEndSpec(t);
    assert r == Trim(s);
    var i := |s| - |t|;
    assert s[i..i + |r|] == t[..|r|] == r;
    assert forall k :: i + |r| <= k < |s| ==> s[k] == t[k - i];
    assert TrimmedAt(s, r, i);
  }

  // ------------------------------------------------------ decimal numbers

  predicate IsDigit(c: char)
  {
    '0' <= c <= '9'
  }

  function DigitChar(d: nat): (c: char)
    requires d < 10
    ensures IsDigit(c) && c as int - '0' as int == d
  {
    (('0' as int) + d) as char
  }

  function DigitValue(c: char): (d: nat)
    requires IsDigit(c)
    ensures d < 10
  {
    c as int - '0' as int
  }

  /** The decimal rendering of `n` that a template literal `${n}` produces. */
  function NatToString(n: nat): (r: string)
    ensures |r| >= 1
    ensures forall i :: 0 <= i < |r| ==> IsDigit(r[i])
    ensures |r| > 1 ==> r[0] != '0'
    decreases n
  {
    if n < 10 then [DigitChar(n)] else NatToString(n / 10) + [DigitChar(n % 10)]
  }

  /** Reads a string of decimal digits back as a number. */
  function ParseNat(s: string): nat
    requires forall i :: 0 <= i < |s| ==> IsDigit(s[i])
    decreases |s|
  {
    if |s| == 0 then 0
    else ParseNat(s[..|s| - 1]) * 10 + DigitValue(s[|s| - 1])
  }

  /** The rendering of a number is read back as the same number. */
  lemma {:induction false} ParseNatToString(n: nat)
    ensures ParseNat(NatToString(n)) == n
    decreases n
  {
    if n >= 10 {
      var s := NatToString(n);
      assert s[..|s| - 1] == NatToString(n / 10);
      ParseNatToString(n / 10);
    }
  }

  /** Different numbers render differently. */
  lemma NatToStringInjective(m: nat, n: nat)
    requires NatToString(m) == NatToString(n)
    ensures m == n
  {
    ParseNatToString(m);
    ParseNatToString(n);
  }
}
