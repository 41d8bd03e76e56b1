/**
 * Python's `str` operations used by the scripts, on `seq<char>`.
 * Character classes, case mapping, `strip` and `title` follow Python's rules on
 * the ASCII range; the behaviour of non-ASCII characters is not modelled.
 */
module Strings {

  predicate IsDigit(c: char) { '0' <= c <= '9' }
  predicate IsLower(c: char) { 'a' <= c <= 'z' }
  predicate IsUpper(c: char) { 'A' <= c <= 'Z' }
  predicate IsLetter(c: char) { IsLower(c) || IsUpper(c) }

  /** Python's whitespace (`str.isspace`, `str.strip`, the regex class `\s`) on the ASCII range. */
  predicate IsSpace(c: char) { c == ' ' || '\t' <= c <= '\r' || '\U{1c}' <= c <= '\U{1f}' }

  predicate NotNewline(c: char) { c != '\n' }

  function ToLower(c: char): char { if IsUpper(c) then (c as int + 32) as char else c }
  function ToUpper(c: char): char { if IsLower(c) then (c as int - 32) as char else c }

  /** `s.lower()` */
  function Lower(s: string): string { seq(|s|, i requires 0 <= i < |s| => ToLower(s[i])) }

  /** `s.startswith(p)` */
  predicate StartsWith(s: string, p: string) { |p| <= |s| && s[..|p|] == p }

  /** `s.endswith(p)` */
  predicate EndsWith(s: string, p: string) { |p| <= |s| && s[|s| - |p|..] == p }

  lemma EndsWithTransitive(s: string, t: string, u: string)
    requires EndsWith(s, t) && EndsWith(t, u)
    ensures EndsWith(s, u)
  {
    assert s[|s| - |u|..] == s[|s| - |t|..][|t| - |u|..];
  }

  /** `s.replace(a, b)` for single characters */
  function ReplaceChar(s: string, a: char, b: char): string
  {
    seq(|s|, i requires 0 <= i < |s| => if s[i] == a then b else s[i])
  }

  /** `s.replace(pat, '')`: removes the non-overlapping occurrences of `pat`, scanning left to right. */
  function RemoveAll(s: string, pat: string): (r: string)
    requires pat != []
    ensures |r| <= |s|
  {
    if |s| < |pat| then s
    else if s[..|pat|] == pat then RemoveAll(s[|pat|..], pat)
    else [s[0]] + RemoveAll(s[1..], pat)
  }

  /** The end of the run of characters satisfying `p` that starts at `i`. */
  function SpanEnd(s: string, i: nat, p: char -> bool): (e: nat)
    requires i <= |s|
    ensures i <= e <= |s|
    ensures forall k :: i <= k < e ==> p(s[k])
    ensures e < |s| ==> !p(s[e])
    decreases |s| - i
  {
    if i < |s| && p(s[i]) then SpanEnd(s, i + 1, p) else i
  }

  /** A run is determined by its end: all of `s[i..j]` satisfy `p` and `s[j]`, if any, does not. */
  lemma {:induction false} SpanEndExact(s: string, i: nat, p: char -> bool, j: nat)
    requires i <= j <= |s|
    requires forall k :: i <= k < j ==> p(s[k])
    requires j < |s| ==> !p(s[j])
    ensures SpanEnd(s, i, p) == j
    decreases j - i
  {
    if i < j {
      SpanEndExact(s, i + 1, p, j);
    }
  }

  /** The start of the run of characters satisfying `p` that ends at `e`, looking no further left than `lo`. */
  function SpanStart(s: string, lo: nat, e: nat, p: char -> bool): (b: nat)
    requires lo <= e <= |s|
    ensures lo <= b <= e
    ensures forall k :: b <= k < e ==> p(s[k])
    ensures b > lo ==> !p(s[b - 1])
    decreases e
  {
    if e > lo && p(s[e - 1]) then SpanStart(s, lo, e - 1, p) else e
  }

  /** `s.lstrip(chars)` for a single character */
  function LStripChar(s: string, c: char): (r: string)
    ensures r == [] || r[0] != c
    ensures |r| <= |s| && r == s[|s| - |r|..]
  {
    s[SpanEnd(s, 0, x => x == c)..]
  }

  /** `s.strip()` */
  function Strip(s: string): (r: string)
    ensures r == [] || (!IsSpace(r[0]) && !IsSpace(r[|r| - 1]))
  {
    var a := SpanEnd(s, 0, IsSpace);
    var b := SpanStart(s, a, |s|, IsSpace);
    assert a < b ==> !IsSpace(s[a]);
    s[a..b]
  }

  /** A string that `strip` leaves alone. */
  predicate Stripped(s: string) { s == [] || (!IsSpace(s[0]) && !IsSpace(s[|s| - 1])) }

  lemma StripStripped(s: string)
    requires Stripped(s)
    ensures Strip(s) == s
  {
    var a := SpanEnd(s, 0, IsSpace);
    assert a == 0;
    var b := SpanStart(s, a, |s|, IsSpace);
    assert b == |s|;
  }

  /** `s.capitalize()`: the first character upper case, the rest lower case. */
  function Capitalize(s: string): string
  {
    seq(|s|, i requires 0 <= i < |s| => if i == 0 then ToUpper(s[i]) else ToLower(s[i]))
  }

  /** `s.title()`: a letter is upper-cased when the character before it is not a letter, lower-cased otherwise. */
  function Title(s: string): string
  {
    seq(|s|, i requires 0 <= i < |s| => if i > 0 && IsLetter(s[i - 1]) then ToLower(s[i]) else ToUpper(s[i]))
  }

  /** The decimal numeral of `n`, as `str(n)` gives it. */
  function Decimal(n: nat): (r: string)
    ensures r != [] && forall i :: 0 <= i < |r| ==> IsDigit(r[i])
  {
    if n < 10 then [('0' as int + n) as char] else Decimal(n / 10) + [('0' as int + n % 10) as char]
  }
}
