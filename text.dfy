/** String helpers shared by the validators, the serializers and the model
    formatters: ASCII digits and decimal numerals, ASCII lower-casing,
    case-insensitive prefix and substring tests, Python's `s[:n]`, and the
    length of the longest run of characters from one class. */
module Text {

  function Min(a: int, b: int): (m: int)
    ensures m <= a && m <= b && (m == a || m == b)
  {
    if a <= b then a else b
  }

  predicate IsAsciiDigit(c: char) { '0' <= c <= '9' }

  predicate IsAsciiUpper(c: char) { 'A' <= c <= 'Z' }

  predicate IsAsciiLower(c: char) { 'a' <= c <= 'z' }

  /** Every character is an ASCII digit (the empty string qualifies). */
  predicate AllDigits(s: string) {
    forall i :: 0 <= i < |s| ==> IsAsciiDigit(s[i])
  }

  /** Python's `s.isdigit()` restricted to ASCII: non-empty and all digits. */
  predicate IsDigitString(s: string) {
    |s| > 0 && AllDigits(s)
  }

  function DigitValue(c: char): (d: nat)
    requires IsAsciiDigit(c)
    ensures d < 10
  {
    (c as int) - ('0' as int)
  }

  function DigitChar(d: nat): (c: char)
    requires d < 10
    ensures IsAsciiDigit(c) && DigitValue(c) == d
  {
    (('0' as int) + d) as char
  }

  /** Python's `int(s)` on a string of ASCII digits (leading zeros allowed). */
  function ParseDigits(s: string): (n: nat)
    requires AllDigits(s)
  {
    if |s| == 0 then 0 else 10 * ParseDigits(s[..|s| - 1]) + DigitValue(s[|s| - 1])
  }

  /** Python's `str(n)` for a non-negative integer. */
  function NatToString(n: nat): (s: string)
    ensures IsDigitString(s)
    ensures |s| == 1 || s[0] != '0'
  {
    if n < 10 then [DigitChar(n)] else NatToString(n / 10) + [DigitChar(n % 10)]
  }

  /** `int(str(n)) == n`. */
  lemma {:induction false} ParseNatToString(n: nat)
    ensures ParseDigits(NatToString(n)) == n
  {
    var s := NatToString(n);
    if n >= 10 {
      ParseNatToString(n / 10);
      assert s[..|s| - 1] == NatToString(n / 10);
    }
  }

  /** ASCII lower-casing of one character; other characters are unchanged. */
  function Lower(c: char): (r: char)
    ensures IsAsciiUpper(c) ==> IsAsciiLower(r) && (r as int) == (c as int) + 32
    ensures !IsAsciiUpper(c) ==> r == c
  {
    if IsAsciiUpper(c) then ((c as int) + 32) as char else c
  }

  function LowerString(s: string): (r: string)
    ensures |r| == |s|
    ensures forall i :: 0 <= i < |s| ==> r[i] == Lower(s[i])
  {
    if |s| == 0 then [] else [Lower(s[0])] + LowerString(s[1..])
  }

  predicate StartsWith(s: string, p: string) {
    |p| <= |s| && s[..|p|] == p
  }

  /** `p` occurs in `s` at some offset. */
  ghost predicate OccursIn(p: string, s: string) {
    exists k :: 0 <= k <= |s| && StartsWith(s[k..], p)
  }

  /** Search for `p` in `s`, trying each offset from the left. */
  function Contains(s: string, p: string): (b: bool)
    ensures b <==> OccursIn(p, s)
  {
    if StartsWith(s, p) then
      assert s[0..] == s;
      true
    else if |s| == 0 then
      false
    else
      var b := Contains(s[1..], p);
      assert forall k :: 1 <= k <= |s| ==> s[k..] == s[1..][k - 1..];
      assert b ==> OccursIn(p, s) by {
        if b {
          var k :| 0 <= k <= |s[1..]| && StartsWith(s[1..][k..], p);
          assert s[k + 1..] == s[1..][k..];
        }
      }
      b
  }

  lemma PrefixOccurs(s: string, p: string)
    requires StartsWith(s, p)
    ensures OccursIn(p, s)
  {
    assert s[0..] == s;
  }

  /** Django's `istartswith` and `icontains` lookups, ASCII case-insensitively. */
  predicate IStartsWith(s: string, p: string) {
    StartsWith(LowerString(s), LowerString(p))
  }

  predicate IContains(s: string, p: string) {
    Contains(LowerString(s), LowerString(p))
  }

  /** Python's `s[:n]`: the whole string when it is short enough. */
  function Truncate(s: string, n: nat): (r: string)
    ensures |r| == Min(|s|, n)
    ensures r == s[..|r|]
    ensures |s| <= n ==> r == s
  {
    if |s| <= n then s else s[..n]
  }

  /** Length of the longest prefix of `s` whose characters all satisfy `inClass`. */
  function RunLength(s: string, inClass: char -> bool): (k: nat)
    ensures k <= |s|
    ensures forall i :: 0 <= i < k ==> inClass(s[i])
    ensures k < |s| ==> !inClass(s[k])
  {
    if |s| == 0 || !inClass(s[0]) then 0 else 1 + RunLength(s[1..], inClass)
  }

  /** A run of class characters stopped by a non-class character (or the end)
      has exactly the run's length. */
  lemma RunLengthOfConcat(a: string, b: string, inClass: char -> bool)
    requires forall i :: 0 <= i < |a| ==> inClass(a[i])
    requires |b| == 0 || !inClass(b[0])
    ensures RunLength(a + b, inClass) == |a|
  {
    assert forall i :: 0 <= i < |a| ==> (a + b)[i] == a[i];
    assert |b| > 0 ==> (a + b)[|a|] == b[0];
  }
}
