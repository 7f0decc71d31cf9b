/** The few pieces of java.lang.String behaviour the engine bookkeeping relies on:
    trimming a configured path, prefix and suffix tests, the last-slash split of a
    resource path, and the decimal rendering of a long used in instance ids. */
module Text {

  /** A character `String.trim` removes: every code point up to and including U+0020. */
  predicate IsTrimmable(c: char) {
    c <= ' '
  }

  function TrimStart(s: string): (r: string)
    ensures |r| <= |s| && r == s[|s| - |r|..]
    ensures r == [] || !IsTrimmable(r[0])
    ensures forall k :: 0 <= k < |s| - |r| ==> IsTrimmable(s[k])
  {
    if s == [] || !IsTrimmable(s[0]) then s else TrimStart(s[1..])
  }

  function TrimEnd(s: string): (r: string)
    ensures |r| <= |s| && r == s[..|r|]
    ensures r == [] || !IsTrimmable(r[|r| - 1])
    ensures forall k :: |r| <= k < |s| ==> IsTrimmable(s[k])
  {
    if s == [] || !IsTrimmable(s[|s| - 1]) then s else TrimEnd(s[..|s| - 1])
  }

  /** `String.trim`: the longest infix that neither starts nor ends with a trimmable character. */
  function Trim(s: string): (r: string)
    ensures exists i, j ::
              && 0 <= i <= j <= |s| && r == s[i..j]
              && (forall k :: 0 <= k < i ==> IsTrimmable(s[k]))
              && (forall k :: j <= k < |s| ==> IsTrimmable(s[k]))
    ensures r == [] || (!IsTrimmable(r[0]) && !IsTrimmable(r[|r| - 1]))
  {
    var t := TrimStart(s);
    var r := TrimEnd(t);
    var i := |s| - |t|;
    assert r == s[i..i + |r|];
    r
  }

  /** Trimming twice is trimming once. */
  lemma TrimIdempotent(s: string)
    ensures Trim(Trim(s)) == Trim(s)
  {
    var t := Trim(s);
    if t != [] {
      assert TrimStart(t) == t;
      assert TrimEnd(t) == t;
    }
  }

  predicate StartsWith(s: string, prefix: string) {
    |prefix| <= |s| && s[..|prefix|] == prefix
  }

  predicate EndsWith(s: string, suffix: string) {
    |suffix| <= |s| && s[|s| - |suffix|..] == suffix
  }

  /** `String.lastIndexOf(char)`: the position of the last `c`, or -1 when `c` does not occur. */
  function LastIndexOf(s: string, c: char): (r: int)
    ensures -1 <= r < |s|
    ensures r == -1 <==> c !in s
    ensures 0 <= r ==> s[r] == c
    ensures forall k :: r < k < |s| ==> s[k] != c
  {
    if s == [] then -1
    else if s[|s| - 1] == c then |s| - 1
    else
      var r := LastIndexOf(s[..|s| - 1], c);
      assert s == s[..|s| - 1] + [s[|s| - 1]];
      r
  }

  /** `s.substring(s.lastIndexOf(c) + 1)`: what follows the last `c`, or all of `s` when there is none. */
  function AfterLast(s: string, c: char): (r: string)
    ensures c !in r
    ensures |r| <= |s| && r == s[|s| - |r|..]
    ensures |r| == |s| || s[|s| - |r| - 1] == c
  {
    s[LastIndexOf(s, c) + 1..]
  }

  /** The range of a Java `long`. */
  newtype int64 = x: int | -0x8000_0000_0000_0000 <= x < 0x8000_0000_0000_0000

  function DigitChar(d: nat): (c: char)
    requires d < 10
    ensures '0' <= c <= '9'
  {
    ('0' as int + d) as char
  }

  predicate IsDigit(c: char) {
    '0' <= c <= '9'
  }

  function NaturalString(n: nat): (r: string)
    ensures r != []
    ensures forall k :: 0 <= k < |r| ==> IsDigit(r[k])
  {
    if n < 10 then [DigitChar(n)] else NaturalString(n / 10) + [DigitChar(n % 10)]
  }

  /** `Long.toString`: a minus sign for negative values, then the decimal digits of the magnitude. */
  function DecimalString(n: int64): (r: string)
    ensures r != []
    ensures r[0] == '-' <==> n < 0
    ensures forall k :: (if n < 0 then 1 else 0) <= k < |r| ==> IsDigit(r[k])
  {
    if n < 0 then "-" + NaturalString(-(n as int)) else NaturalString(n as int)
  }

  /** Different values render differently. */
  lemma {:induction false} NaturalStringInjective(a: nat, b: nat)
    requires NaturalString(a) == NaturalString(b)
    ensures a == b
  {
    assert a >= 10 <==> |NaturalString(a)| >= 2;
    assert b >= 10 <==> |NaturalString(b)| >= 2;
    if a >= 10 && b >= 10 {
      var sa, sb := NaturalString(a), NaturalString(b);
      assert sa[..|sa| - 1] == NaturalString(a / 10);
      assert sb[..|sb| - 1] == NaturalString(b / 10);
      NaturalStringInjective(a / 10, b / 10);
      assert DigitChar(a % 10) == sa[|sa| - 1] == DigitChar(b % 10);
    }
  }

  lemma DecimalStringInjective(a: int64, b: int64)
    requires DecimalString(a) == DecimalString(b)
    ensures a == b
  {
    if a < 0 && b < 0 {
      assert DecimalString(a)[1..] == NaturalString(-(a as int));
      assert DecimalString(b)[1..] == NaturalString(-(b as int));
      NaturalStringInjective(-(a as int), -(b as int));
    } else if a >= 0 && b >= 0 {
      NaturalStringInjective(a as int, b as int);
    }
  }
}
