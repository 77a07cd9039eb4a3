/** The string operations of JavaScript that the curator relies on, over UTF-16 code units. */
module Strings {

  predicate StartsWith(s: string, prefix: string) {
    |prefix| <= |s| && s[..|prefix|] == prefix
  }

  predicate EndsWith(s: string, suffix: string) {
    |suffix| <= |s| && s[|s| - |suffix|..] == suffix
  }

  /** `s.replace(/p/g, '')` for a literal, non-empty pattern `p`: the leftmost occurrence is
      removed and the scan resumes after it, so occurrences never overlap. */
  function RemoveAll(s: string, p: string): (r: string)
    requires |p| > 0
    ensures |r| <= |s|
    decreases |s|
  {
    if |s| < |p| then s
    else if s[..|p|] == p then RemoveAll(s[|p|..], p)
    else [s[0]] + RemoveAll(s[1..], p)
  }

  /** The code units that `String.prototype.trim` removes: WhiteSpace and LineTerminator. */
  predicate IsJsWhitespace(c: char) {
    c == ' ' || c == '\t' || c == '\n' || c == '\r' || c == '\U{000B}' || c == '\U{000C}'
    || c == '\U{00A0}' || c == '\U{1680}' || ('\U{2000}' <= c <= '\U{200A}')
    || c == '\U{2028}' || c == '\U{2029}' || c == '\U{202F}' || c == '\U{205F}'
    || c == '\U{3000}' || c == '\U{FEFF}'
  }

  function TrimStart(s: string): (r: string)
    ensures |r| <= |s| && r == s[|s| - |r|..]
    ensures r == [] || !IsJsWhitespace(r[0])
    ensures forall i :: 0 <= i < |s| - |r| ==> IsJsWhitespace(s[i])
  {
    if |s| > 0 && IsJsWhitespace(s[0]) then TrimStart(s[1..]) else s
  }

  function TrimEnd(s: string): (r: string)
    ensures |r| <= |s| && r == s[..|r|]
    ensures r == [] || !IsJsWhitespace(r[|r| - 1])
    ensures forall i :: |r| <= i < |s| ==> IsJsWhitespace(s[i])
  {
    if |s| > 0 && IsJsWhitespace(s[|s| - 1]) then TrimEnd(s[..|s| - 1]) else s
  }

  /** The number of code units `trim` drops at the front. */
  function LeadingWhitespace(s: string): (n: nat)
    ensures n <= |s|
  {
    |s| - |TrimStart(s)|
  }

  /** `String.prototype.trim`: the infix left after dropping leading and trailing whitespace. */
  function Trim(s: string): (r: string)
    ensures LeadingWhitespace(s) + |r| <= |s|
    ensures r == s[LeadingWhitespace(s)..LeadingWhitespace(s) + |r|]
    ensures r == [] || (!IsJsWhitespace(r[0]) && !IsJsWhitespace(r[|r| - 1]))
    ensures forall i :: 0 <= i < LeadingWhitespace(s) ==> IsJsWhitespace(s[i])
    ensures forall i :: LeadingWhitespace(s) + |r| <= i < |s| ==> IsJsWhitespace(s[i])
  {
    var front := TrimStart(s);
    var r := TrimEnd(front);
    assert forall i :: LeadingWhitespace(s) + |r| <= i < |s| ==> s[i] == front[i - LeadingWhitespace(s)];
    r
  }

  predicate IsAsciiAlnum(c: char) {
    ('a' <= c <= 'z') || ('A' <= c <= 'Z') || ('0' <= c <= '9')
  }

  /** `String.prototype.toLowerCase` restricted to ASCII, the only letters left after cleaning. */
  function AsciiLower(c: char): (r: char)
    ensures 'A' <= c <= 'Z' ==> 'a' <= r <= 'z'
    ensures !('A' <= c <= 'Z') ==> r == c
  {
    if 'A' <= c <= 'Z' then (c as int - 'A' as int + 'a' as int) as char else c
  }

  function DigitChar(d: nat): (c: char)
    requires d < 10
    ensures '0' <= c <= '9'
    ensures c as int - '0' as int == d
  {
    ('0' as int + d) as char
  }

  /** The number a string of decimal digits denotes, most significant digit first. */
  function DigitsValue(s: string): int
  {
    if |s| == 0 then 0 else 10 * DigitsValue(s[..|s| - 1]) + (s[|s| - 1] as int - '0' as int)
  }

  /** The decimal rendering of a non-negative integer, as a template literal produces it:
      digits only, no leading zero, denoting `n`. */
  function Decimal(n: nat): (r: string)
    ensures |r| >= 1
    ensures forall i :: 0 <= i < |r| ==> '0' <= r[i] <= '9'
    ensures r[0] != '0' || n == 0
    ensures DigitsValue(r) == n
  {
    if n < 10 then [DigitChar(n)]
    else
      var init := Decimal(n / 10);
      var r := init + [DigitChar(n % 10)];
      assert r[..|r| - 1] == init;
      r
  }

  /** The text in front of the first code unit of the pattern is kept as it is. */
  lemma {:induction false} RemoveAllKeepsPrefix(t: string, q: string, p: string)
    requires |p| > 0 && forall i :: 0 <= i < |t| ==> t[i] != p[0]
    ensures RemoveAll(t + q, p) == t + RemoveAll(q, p)
    decreases |t|
  {
    if |t| > 0 {
      var s := t + q;
      if |s| >= |p| {
        assert s[..|p|] != p by { assert s[..|p|][0] == t[0]; }
        assert s[1..] == t[1..] + q;
        RemoveAllKeepsPrefix(t[1..], q, p);
        calc {
          RemoveAll(s, p);
          [s[0]] + RemoveAll(s[1..], p);
          [t[0]] + (t[1..] + RemoveAll(q, p));
          { assert t == [t[0]] + t[1..]; }
          t + RemoveAll(q, p);
        }
      } else {
        assert RemoveAll(q, p) == q;
      }
    } else {
      assert t + q == q;
    }
  }

}
