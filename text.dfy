/**
 * Character classes and string helpers shared by both parsers, the notation
 * matcher and the foreign-function router. Characters are Dafny `char`s;
 * the classes follow the Rust/nom definitions they stand for.
 */
module Text {
  import opened Wrappers

  /** `t` is what is left of `s` after dropping some prefix. */
  predicate IsSuffix(t: string, s: string)
  {
    |t| <= |s| && s[|s| - |t|..] == t
  }

  /** Suffixes of suffixes are suffixes. */
  lemma SuffixTrans(a: string, b: string, c: string)
    requires IsSuffix(a, b) && IsSuffix(b, c)
    ensures IsSuffix(a, c)
  {
  }

  predicate StartsWith(s: string, prefix: string)
  {
    |prefix| <= |s| && s[..|prefix|] == prefix
  }

  /** nom's `digit1`: ASCII digits. */
  predicate IsDigit(c: char) { '0' <= c <= '9' }

  /** nom's `alpha1`: ASCII letters. */
  predicate IsAlpha(c: char) { 'a' <= c <= 'z' || 'A' <= c <= 'Z' }

  predicate IsAlphanumeric(c: char) { IsAlpha(c) || IsDigit(c) }

  /** First character of an identifier: `alpha1` or `_`. */
  predicate IsIdentStart(c: char) { IsAlpha(c) || c == '_' }

  /** Later characters of an identifier: `alphanumeric1` or `_`. */
  predicate IsIdentChar(c: char) { IsAlphanumeric(c) || c == '_' }

  /** nom's `multispace0`/`multispace1` character set. */
  predicate IsMultispace(c: char) { c == ' ' || c == '\t' || c == '\r' || c == '\n' }

  /** Rust's `char::is_whitespace`: the Unicode White_Space property. */
  predicate IsUnicodeWhitespace(c: char)
  {
    ('\U{9}' <= c <= '\U{D}') || c == ' ' || c == '\U{85}' || c == '\U{A0}' ||
    c == '\U{1680}' || ('\U{2000}' <= c <= '\U{200A}') || c == '\U{2028}' || c == '\U{2029}' ||
    c == '\U{202F}' || c == '\U{205F}' || c == '\U{3000}'
  }

  /** Length of the longest prefix of `s` whose characters all satisfy `p`. */
  function Span(s: string, p: char -> bool): (n: nat)
    ensures n <= |s|
    ensures forall i :: 0 <= i < n ==> p(s[i])
    ensures n < |s| ==> !p(s[n])
  {
    if |s| == 0 || !p(s[0]) then 0 else 1 + Span(s[1..], p)
  }

  /** A span that covers all of `a` and stops at the start of `b`. */
  lemma {:induction false} SpanPrefix(a: string, b: string, p: char -> bool)
    requires forall i :: 0 <= i < |a| ==> p(a[i])
    requires |b| == 0 || !p(b[0])
    ensures Span(a + b, p) == |a|
    decreases |a|
  {
    if |a| > 0 {
      assert (a + b)[1..] == a[1..] + b;
      SpanPrefix(a[1..], b, p);
    }
  }

  /** `pat` occurs in `s` starting at index `i`. */
  predicate OccursAt(s: string, i: nat, pat: string)
  {
    i + |pat| <= |s| && s[i..i + |pat|] == pat
  }

  /** Index of the first occurrence of `pat` in `s` (nom's `take_until`), if any. */
  function Find(s: string, pat: string): (r: Option<nat>)
    requires |pat| > 0
    ensures r.Some? ==> OccursAt(s, r.value, pat)
    ensures r.Some? ==> forall i :: 0 <= i < r.value ==> !OccursAt(s, i, pat)
    ensures r.None? ==> forall i :: 0 <= i ==> !OccursAt(s, i, pat)
  {
    if |s| < |pat| then None
    else if s[..|pat|] == pat then Some(0)
    else
      assert forall i :: 1 <= i ==> OccursAt(s, i, pat) == OccursAt(s[1..], i - 1, pat);
      match Find(s[1..], pat)
      case None => None
      case Some(k) => Some(k + 1)
  }

  function DigitValue(c: char): nat requires IsDigit(c) { (c as int - '0' as int) as nat }

  function DigitChar(d: nat): (c: char) requires d < 10 ensures IsDigit(c) && DigitValue(c) == d
  {
    ('0' as int + d) as char
  }

  /** The decimal value of a digit string (`str::parse` on a digit run; never overflows here). */
  function DecimalValue(ds: string): nat
    requires forall i :: 0 <= i < |ds| ==> IsDigit(ds[i])
  {
    if |ds| == 0 then 0 else DecimalValue(ds[..|ds| - 1]) * 10 + DigitValue(ds[|ds| - 1])
  }

  /** Canonical decimal rendering of a natural number, as Rust's `{}` formats it. */
  function NatToString(n: nat): (s: string)
    ensures |s| > 0 && forall i :: 0 <= i < |s| ==> IsDigit(s[i])
  {
    if n < 10 then [DigitChar(n)] else NatToString(n / 10) + [DigitChar(n % 10)]
  }

  lemma {:induction false} DecimalOfNatToString(n: nat)
    ensures DecimalValue(NatToString(n)) == n
  {
    if n >= 10 {
      var s := NatToString(n);
      assert s[..|s| - 1] == NatToString(n / 10);
      DecimalOfNatToString(n / 10);
    }
  }

  /** Rust's `str::split(c)`: always at least one part; empty parts are kept. */
  function Split(s: string, c: char): (parts: seq<string>)
    ensures |parts| >= 1
    ensures forall i, j :: 0 <= i < |parts| && 0 <= j < |parts[i]| ==> parts[i][j] != c
  {
    if |s| == 0 then [""]
    else if s[0] == c then [""] + Split(s[1..], c)
    else
      var t := Split(s[1..], c);
      [[s[0]] + t[0]] + t[1..]
  }

  /** Rust's `join(sep)` on a slice of strings. */
  function Join(parts: seq<string>, sep: string): string
  {
    if |parts| == 0 then ""
    else if |parts| == 1 then parts[0]
    else parts[0] + sep + Join(parts[1..], sep)
  }

  /** Splitting on a character and joining with that character restores the string. */
  lemma {:induction false} JoinSplit(s: string, c: char)
    ensures Join(Split(s, c), [c]) == s
  {
    if |s| > 0 {
      JoinSplit(s[1..], c);
      var t := Split(s[1..], c);
      if s[0] != c {
        if |t| > 1 {
          assert Join(t, [c]) == t[0] + [c] + Join(t[1..], [c]);
          assert Join([[s[0]] + t[0]] + t[1..], [c]) == [s[0]] + t[0] + [c] + Join(t[1..], [c]);
        }
        assert [s[0]] + s[1..] == s;
      } else {
        assert [c] + s[1..] == s;
      }
    }
  }

  /** Index of the first `c` in `s`. */
  function IndexOf(s: string, c: char): (k: nat)
    requires c in s
    ensures k < |s| && s[k] == c && c !in s[..k]
  {
    if s[0] == c then 0
    else
      var k := IndexOf(s[1..], c);
      assert s[..k + 1] == [s[0]] + s[1..][..k];
      k + 1
  }

  /** Without the separator, `split` yields the whole string as its only part. */
  lemma {:induction false} SplitWithoutSeparator(s: string, c: char)
    requires c !in s
    ensures Split(s, c) == [s]
  {
    if |s| > 0 {
      assert c !in s[1..];
      SplitWithoutSeparator(s[1..], c);
      assert [s[0]] + s[1..] == s;
    }
  }

  /**
   * With `k` the first index of `c`, the first part of `Split(s, c)` is the
   * text before `k`, and the other parts joined with `c` are the text after it.
   */
  lemma {:induction false} SplitAtFirst(s: string, c: char, k: nat)
    requires k < |s| && s[k] == c && c !in s[..k]
    ensures Split(s, c)[0] == s[..k]
    ensures Join(Split(s, c)[1..], [c]) == s[k + 1..]
  {
    if k == 0 {
      JoinSplit(s[1..], c);
    } else {
      assert s[0] != c;
      assert s[1..][..k - 1] == s[1..k];
      assert c !in s[1..][..k - 1];
      SplitAtFirst(s[1..], c, k - 1);
      assert s[..k] == [s[0]] + s[1..][..k - 1];
      assert s[k + 1..] == s[1..][k..];
    }
  }

  predicate NotWhitespace(c: char) { !IsUnicodeWhitespace(c) }

  /** Rust's `str::split_whitespace`: the maximal non-whitespace runs, in order. */
  function SplitWhitespace(s: string): (words: seq<string>)
    ensures forall i :: 0 <= i < |words| ==> |words[i]| > 0
    ensures forall i, j :: 0 <= i < |words| && 0 <= j < |words[i]| ==> !IsUnicodeWhitespace(words[i][j])
    decreases |s|
  {
    if |s| == 0 then []
    else if IsUnicodeWhitespace(s[0]) then SplitWhitespace(s[1..])
    else
      var n := Span(s, NotWhitespace);
      [s[..n]] + SplitWhitespace(s[n..])
  }

  /** A word followed by whitespace or the end is the first part of the split. */
  lemma WordThenRest(w: string, rest: string)
    requires |w| > 0 && forall i :: 0 <= i < |w| ==> NotWhitespace(w[i])
    requires |rest| == 0 || IsUnicodeWhitespace(rest[0])
    ensures SplitWhitespace(w + rest) == [w] + SplitWhitespace(rest)
  {
    SpanPrefix(w, rest, NotWhitespace);
    assert (w + rest)[..|w|] == w && (w + rest)[|w|..] == rest;
  }

  /** Leading whitespace is dropped by the split. */
  lemma SpaceThenRest(c: char, rest: string)
    requires IsUnicodeWhitespace(c)
    ensures SplitWhitespace([c] + rest) == SplitWhitespace(rest)
  {
    assert ([c] + rest)[1..] == rest;
  }
}
