/** Strings: decimal numerals, joining, cutting at a separator, and Python's strip and lower. */
module Text {

  // ----- Decimal numerals -----

  predicate IsDigit(c: char) { '0' <= c <= '9' }

  function Digit(n: nat): (c: char)
    requires n < 10
    ensures IsDigit(c)
  {
    '0' + n as char
  }

  function Dec(n: nat): (s: string)
    ensures |s| > 0 && forall i :: 0 <= i < |s| ==> IsDigit(s[i])
  {
    if n < 10 then [Digit(n)] else Dec(n / 10) + [Digit(n % 10)]
  }

  lemma {:induction false} DecInjective(m: nat, n: nat)
    requires Dec(m) == Dec(n)
    ensures m == n
  {
    assert (m >= 10 <==> |Dec(m)| >= 2) && (n >= 10 <==> |Dec(n)| >= 2);
    assert Dec(m)[|Dec(m)| - 1] == Digit(m % 10) && Dec(n)[|Dec(n)| - 1] == Digit(n % 10);
    if m >= 10 {
      assert Dec(m)[..|Dec(m)| - 1] == Dec(m / 10) && Dec(n)[..|Dec(n)| - 1] == Dec(n / 10);
      DecInjective(m / 10, n / 10);
    }
  }

  // ----- Cutting at a separator -----

  predicate Without(s: string, c: char) { forall i :: 0 <= i < |s| ==> s[i] != c }

  /** A separator that occurs in neither head can be found again. */
  lemma CutIsUnique(a: string, b: string, a': string, b': string, c: char)
    requires Without(a, c) && Without(a', c)
    requires a + [c] + b == a' + [c] + b'
    ensures a == a' && b == b'
  {
    var s := a + [c] + b;
    assert s[|a|] == c && (a' + [c] + b')[|a'|] == c;
    assert forall i :: 0 <= i < |a| ==> s[i] == a[i] != c;
    assert forall i :: 0 <= i < |a'| ==> s[i] == a'[i] != c;
    assert |a| == |a'|;
    assert a == s[..|a|] && a' == s[..|a'|];
    assert b == s[|a| + 1..] && b' == s[|a'| + 1..];
  }

  function Join(parts: seq<string>, c: char): (s: string) {
    if parts == [] then "" else if |parts| == 1 then parts[0] else parts[0] + [c] + Join(parts[1..], c)
  }

  lemma JoinHasCut(p: seq<string>, c: char)
    requires p != [] && forall i :: 0 <= i < |p| ==> Without(p[i], c)
    ensures Without(Join(p, c), c) <==> |p| == 1
  {
    if |p| > 1 {
      assert Join(p, c)[|p[0]|] == c;
    }
  }

  /** Parts free of the separator can be read back from the joined string. */
  lemma {:induction false} JoinInjective(p: seq<string>, q: seq<string>, c: char)
    requires p != [] && q != []
    requires forall i :: 0 <= i < |p| ==> Without(p[i], c)
    requires forall i :: 0 <= i < |q| ==> Without(q[i], c)
    requires Join(p, c) == Join(q, c)
    ensures p == q
  {
    JoinHasCut(p, c);
    JoinHasCut(q, c);
    if |p| <= 1 {
    } else {
      CutIsUnique(p[0], Join(p[1..], c), q[0], Join(q[1..], c), c);
      JoinInjective(p[1..], q[1..], c);
      assert p == [p[0]] + p[1..] && q == [q[0]] + q[1..];
    }
  }

  lemma {:induction false} JoinWithout(parts: seq<string>, c: char, d: char)
    requires c != d && forall i :: 0 <= i < |parts| ==> Without(parts[i], d)
    ensures Without(Join(parts, c), d)
  {
    if |parts| <= 1 {
    } else {
      JoinWithout(parts[1..], c, d);
    }
  }

  /** The part of a string before the first separator: s.split(c, 1)[0]. */
  function Before(s: string, c: char): (head: string)
    ensures Without(head, c) && head <= s
    ensures head == s || s[|head|] == c
  {
    if s == "" || s[0] == c then "" else [s[0]] + Before(s[1..], c)
  }

  lemma BeforeCut(a: string, b: string, c: char)
    requires Without(a, c)
    ensures Before(a + [c] + b, c) == a
  {
    var s := a + [c] + b;
    var head := Before(s, c);
    assert s[|a|] == c;
    assert forall i :: 0 <= i < |a| ==> s[i] == a[i] != c;
    assert forall i :: 0 <= i < |head| ==> s[i] == head[i] != c;
    assert |head| == |a|;
    assert head == s[..|head|];
  }

  // ----- Whitespace and case -----

  /** The characters for which Python's str.isspace holds. */
  predicate IsSpace(c: char) {
    || '\U{09}' <= c <= '\U{0D}' || '\U{1C}' <= c <= '\U{20}' || c == '\U{85}' || c == '\U{A0}'
    || c == '\U{1680}' || '\U{2000}' <= c <= '\U{200A}' || c == '\U{2028}' || c == '\U{2029}'
    || c == '\U{202F}' || c == '\U{205F}' || c == '\U{3000}'
  }

  predicate AllSpace(s: string) { forall i :: 0 <= i < |s| ==> IsSpace(s[i]) }

  function StripLeft(s: string): (r: string)
    ensures |r| <= |s| && r == s[|s| - |r|..] && AllSpace(s[..|s| - |r|])
    ensures r == "" || !IsSpace(r[0])
  {
    if s != "" && IsSpace(s[0]) then StripLeft(s[1..]) else s
  }

  function StripRight(s: string): (r: string)
    ensures r <= s && AllSpace(s[|r|..])
    ensures r == "" || !IsSpace(r[|r| - 1])
  {
    if s != "" && IsSpace(s[|s| - 1]) then StripRight(s[..|s| - 1]) else s
  }

  function Strip(s: string): string { StripRight(StripLeft(s)) }

  lemma StripIsStripped(s: string)
    ensures Strip(s) == "" || (!IsSpace(Strip(s)[0]) && !IsSpace(Strip(s)[|Strip(s)| - 1]))
    ensures Strip(Strip(s)) == Strip(s)
  {
  }

  /** Lower case of the ASCII letters, which is all that names of media types and profiles use. */
  function Lower(s: string): (r: string)
    ensures |r| == |s|
    ensures forall i :: 0 <= i < |s| ==> r[i] == LowerChar(s[i])
  {
    seq(|s|, i requires 0 <= i < |s| => LowerChar(s[i]))
  }

  function LowerChar(c: char): char {
    if 'A' <= c <= 'Z' then c - 'A' + 'a' else c
  }
}
