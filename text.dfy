/** String helpers with the meaning .NET gives them: decimal rendering of integers (string
    interpolation and concatenation of an int), String.LastIndexOf(char), String.Contains(string)
    and String.Trim(). */
module Text {

  /** The character of a decimal digit. */
  function DigitChar(d: nat): (c: char)
    requires d < 10
    ensures '0' <= c <= '9'
  {
    ('0' as int + d) as char
  }

  /** Decimal rendering of a natural number: most significant digit first, no leading zero. */
  function NatToString(n: nat): (s: string)
    ensures 1 <= |s|
    ensures |s| == 1 <==> n < 10
    ensures '0' <= s[0] <= '9'
    decreases n
  {
    if n < 10 then [DigitChar(n)] else NatToString(n / 10) + [DigitChar(n % 10)]
  }

  /** Distinct numbers render as distinct strings. */
  lemma {:induction false} NatToStringInjective(m: nat, n: nat)
    requires NatToString(m) == NatToString(n)
    ensures m == n
    decreases m
  {
    if m >= 10 && n >= 10 {
      var sm, sn := NatToString(m), NatToString(n);
      assert sm[|sm| - 1] == sn[|sn| - 1];
      assert m % 10 == n % 10;
      assert sm[..|sm| - 1] == NatToString(m / 10);
      assert sn[..|sn| - 1] == NatToString(n / 10);
      NatToStringInjective(m / 10, n / 10);
    }
  }

  /** Decimal rendering of an integer, with a leading '-' when negative (C#'s int.ToString()). */
  function IntToString(i: int): (s: string)
    ensures i < 0 <==> 0 < |s| && s[0] == '-'
  {
    if i < 0 then "-" + NatToString(-i) else NatToString(i)
  }

  /** String.LastIndexOf(c): the index of the last occurrence of c, or -1 when c does not occur. */
  function LastIndexOf(s: string, c: char): (r: int)
    ensures -1 <= r < |s|
    ensures r == -1 <==> c !in s
    ensures 0 <= r ==> s[r] == c
    ensures forall j :: r < j < |s| ==> s[j] != c
    decreases |s|
  {
    if |s| == 0 then -1
    else if s[|s| - 1] == c then |s| - 1
    else LastIndexOf(s[..|s| - 1], c)
  }

  /** p occurs in s starting at index i. */
  predicate OccursAt(s: string, p: string, i: int)
  {
    0 <= i <= |s| - |p| && s[i..i + |p|] == p
  }

  /** String.Contains(p): p occurs in s as a contiguous substring. */
  predicate Contains(s: string, p: string)
  {
    exists i | 0 <= i <= |s| :: OccursAt(s, p, i)
  }

  /** The white-space characters String.Trim() removes (the ASCII ones). */
  predicate IsWhiteSpace(c: char)
  {
    c == ' ' || c == '\t' || c == '\n' || c == '\r' || c == '\U{B}' || c == '\U{C}'
  }

  /** s without its leading white space: a suffix of s, and everything cut off is white space. */
  function TrimStart(s: string): (t: string)
    ensures |t| <= |s| && t == s[|s| - |t|..]
    ensures forall j :: 0 <= j < |s| - |t| ==> IsWhiteSpace(s[j])
    ensures t == [] || !IsWhiteSpace(t[0])
    decreases |s|
  {
    if |s| > 0 && IsWhiteSpace(s[0]) then TrimStart(s[1..]) else s
  }

  /** s without its trailing white space: a prefix of s, and everything cut off is white space. */
  function TrimEnd(s: string): (t: string)
    ensures |t| <= |s| && t == s[..|t|]
    ensures forall j :: |t| <= j < |s| ==> IsWhiteSpace(s[j])
    ensures t == [] || !IsWhiteSpace(t[|t| - 1])
    decreases |s|
  {
    if |s| > 0 && IsWhiteSpace(s[|s| - 1]) then TrimEnd(s[..|s| - 1]) else s
  }

  /** String.Trim(): s without its leading and trailing white space. */
  function Trim(s: string): (t: string)
    ensures t == [] || (!IsWhiteSpace(t[0]) && !IsWhiteSpace(t[|t| - 1]))
  {
    TrimEnd(TrimStart(s))
  }

  /** Trimming keeps every occurrence of a text that neither starts nor ends with white space:
      only white space is cut, and such an occurrence holds none at its ends. */
  lemma {:induction false} TrimKeepsInnerText(s: string, p: string)
    requires Contains(s, p)
    requires p != [] && !IsWhiteSpace(p[0]) && !IsWhiteSpace(p[|p| - 1])
    ensures Contains(Trim(s), p)
  {
    var i :| 0 <= i <= |s| && OccursAt(s, p, i);
    var j := TrimStartKeeps(s, p, i);
    TrimEndKeeps(TrimStart(s), p, j);
  }

  /** An occurrence that does not start with white space survives TrimStart, shifted left. */
  lemma {:induction false} TrimStartKeeps(s: string, p: string, i: int) returns (j: int)
    requires OccursAt(s, p, i)
    requires p != [] && !IsWhiteSpace(p[0])
    ensures OccursAt(TrimStart(s), p, j)
  {
    var u := TrimStart(s);
    var a := |s| - |u|;
    assert s[i] == p[0];
    j := i - a;
    assert u[j..j + |p|] == s[i..i + |p|];
  }

  /** An occurrence that does not end with white space survives TrimEnd in place. */
  lemma {:induction false} TrimEndKeeps(u: string, p: string, j: int)
    requires OccursAt(u, p, j)
    requires p != [] && !IsWhiteSpace(p[|p| - 1])
    ensures OccursAt(TrimEnd(u), p, j)
  {
    var t := TrimEnd(u);
    assert u[j + |p| - 1] == p[|p| - 1];
    assert t[j..j + |p|] == u[j..j + |p|];
  }
}
