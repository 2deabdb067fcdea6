/** Go's `%d` rendering of integers and the prefix test `contains` of
    analyzer/simple_reporter.go, which is what the report layer needs of
    strings. */
module Text {

  predicate IsDigit(c: char)
  {
    '0' <= c <= '9'
  }

  function DigitChar(d: nat): (c: char)
    requires d < 10
    ensures IsDigit(c)
    ensures c as int - '0' as int == d
  {
    (48 + d) as char
  }

  function DigitValue(c: char): (d: nat)
    requires IsDigit(c)
    ensures d < 10
  {
    c as int - '0' as int
  }

  /** `%d` of a non-negative integer: decimal digits, most significant
      first, with no leading zero. */
  function NatText(n: nat): (s: string)
    ensures |s| >= 1
    ensures forall i :: 0 <= i < |s| ==> IsDigit(s[i])
    ensures |s| > 1 ==> s[0] != '0'
    decreases n
  {
    if n < 10 then [DigitChar(n)] else NatText(n / 10) + [DigitChar(n % 10)]
  }

  /** `%d` of a Go `int`: a minus sign before the digits of the magnitude. */
  function IntText(i: int): (s: string)
    ensures |s| >= 1
    ensures s[0] == '-' <==> i < 0
    ensures i >= 0 ==> s == NatText(i)
    ensures i < 0 ==> s[1..] == NatText(-i)
  {
    if i < 0 then "-" + NatText(-i) else NatText(i)
  }

  /** The value of a string of decimal digits. */
  function ParseNat(s: string): nat
    requires forall i :: 0 <= i < |s| ==> IsDigit(s[i])
    decreases |s|
  {
    if s == [] then 0 else ParseNat(s[..|s| - 1]) * 10 + DigitValue(s[|s| - 1])
  }

  /** Reading the rendered digits back gives the number. */
  lemma {:induction false} NatTextRoundTrip(n: nat)
    ensures ParseNat(NatText(n)) == n
    decreases n
  {
    var s := NatText(n);
    if n >= 10 {
      NatTextRoundTrip(n / 10);
      assert s[..|s| - 1] == NatText(n / 10);
    }
  }

  /** Distinct numbers render differently. */
  lemma NatTextInjective(m: nat, n: nat)
    requires NatText(m) == NatText(n)
    ensures m == n
  {
    NatTextRoundTrip(m);
    NatTextRoundTrip(n);
  }

  /** `contains(s, p)`: despite its name, a prefix test. */
  predicate HasPrefix(s: string, p: string)
  {
    |s| >= |p| && s[..|p|] == p
  }

  /** The prefix test holds exactly when `s` is `p` followed by something. */
  lemma HasPrefixMeans(s: string, p: string)
    ensures HasPrefix(s, p) <==> exists t :: s == p + t
  {
    if HasPrefix(s, p) {
      assert s == p + s[|p|..];
    }
  }

  /** Text after a matching head does not change the outcome. */
  lemma PrefixOfAppend(a: string, b: string, p: string)
    requires |a| >= |p|
    ensures HasPrefix(a + b, p) <==> HasPrefix(a, p)
  {
    assert (a + b)[..|p|] == a[..|p|];
  }

  /** Two prefixes of one string are comparable: the shorter is a prefix
      of the longer. */
  lemma PrefixesComparable(s: string, p: string, q: string)
    requires HasPrefix(s, p) && HasPrefix(s, q) && |p| <= |q|
    ensures HasPrefix(q, p)
  {
    assert q[..|p|] == s[..|q|][..|p|];
  }
}
