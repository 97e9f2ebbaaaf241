/** Taking the bracketed parts out of a title. */
module TitleBrackets {
  import opened Text

  predicate IsOpen(c: char) { c == '(' || c == '[' }

  predicate IsClose(c: char) { c == ')' || c == ']' }

  predicate IsBracket(c: char) { IsOpen(c) || IsClose(c) }

  /** The stretch up to the first bracket of any kind. */
  function UpToBracket(s: string): (n: nat)
    ensures n <= |s| && (forall i :: 0 <= i < n ==> !IsBracket(s[i])) && (n < |s| ==> IsBracket(s[n]))
  {
    if s == "" || IsBracket(s[0]) then 0 else 1 + UpToBracket(s[1..])
  }

  /** s starts with an opening bracket whose next bracket is a closing one. */
  predicate StartsWithGroup(s: string) {
    s != "" && IsOpen(s[0]) && var n := UpToBracket(s[1..]); n + 1 < |s| && IsClose(s[n + 1])
  }

  /** The text after such a group. */
  function AfterGroup(s: string): string
    requires StartsWithGroup(s)
  {
    s[UpToBracket(s[1..]) + 2..]
  }

  /** One substitution pass: every innermost group, left to right, becomes a blank. */
  function Pass(s: string): (r: string)
    ensures |r| <= |s| && (|r| == |s| ==> r == s)
    decreases |s|
  {
    if s == "" then ""
    else if StartsWithGroup(s) then " " + Pass(AfterGroup(s))
    else [s[0]] + Pass(s[1..])
  }

  // ----- A single scan with a stack -----

  /** `open` holds the text from each bracket that is still open, innermost last; `base` the text before
      them. A closing bracket drops the innermost one and leaves a blank. */
  function Scan(base: string, open: seq<string>, s: string): string
    decreases |s|
  {
    if s == "" then base + Flat(open)
    else if IsOpen(s[0]) then Scan(base, open + [[s[0]]], s[1..])
    else if IsClose(s[0]) && open != [] then
      var rest := open[..|open| - 1];
      if rest == [] then Scan(base + " ", [], s[1..]) else Scan(base, Extend(rest, ' '), s[1..])
    else if open == [] then Scan(base + [s[0]], [], s[1..])
    else Scan(base, Extend(open, s[0]), s[1..])
  }

  function Extend(open: seq<string>, c: char): seq<string>
    requires open != []
  {
    open[..|open| - 1] + [open[|open| - 1] + [c]]
  }

  function Flat(parts: seq<string>): string {
    if parts == [] then "" else Flat(parts[..|parts| - 1]) + parts[|parts| - 1]
  }

  /** An opening bracket somewhere before a closing one. */
  predicate HasPair(s: string) {
    exists i, j :: 0 <= i < j < |s| && IsOpen(s[i]) && IsClose(s[j])
  }

  // ----- The loop -----

  /** Removing groups until nothing changes leaves what a single scan with a stack leaves, and no opening
      bracket before a closing one. */
  method RemoveBrackets(value: string) returns (stripped: string)
    ensures stripped == Scan("", [], value)
    ensures !HasPair(stripped)
  {
    stripped := value;
    while true
      invariant Scan("", [], stripped) == Scan("", [], value)
      decreases |stripped|
    {
      var reduced := Pass(stripped);
      PassKeepsScan("", [], stripped);
      if reduced == stripped {
        break;
      }
      stripped := reduced;
    }
    StableHasNoPair(stripped);
    NoPairScan("", [], stripped);
  }

  /** The end of s from a bracket that is never closed, with the blanks before it, is dropped. */
  function DropUnclosed(s: string): (r: string)
    ensures r <= s && forall i :: 0 <= i < |r| ==> !IsOpen(r[i])
    ensures r != s ==> exists k :: |r| <= k < |s| && IsOpen(s[k]) && AllSpace(s[|r|..k])
  {
    var k := FirstOpen(s);
    if k == |s| then s
    else
      assert s[..k][|StripRight(s[..k])|..] == s[|StripRight(s[..k])|..k];
      StripRight(s[..k])
  }

  function FirstOpen(s: string): (k: nat)
    ensures k <= |s| && (forall i :: 0 <= i < k ==> !IsOpen(s[i])) && (k < |s| ==> IsOpen(s[k]))
  {
    if s == "" || IsOpen(s[0]) then 0 else 1 + FirstOpen(s[1..])
  }

  /** The normalized text outside the brackets, empty if there is none. */
  method BaseTitle(value: string, normalize: string -> string) returns (base: string)
    ensures base == (var outside := DropUnclosed(Scan("", [], value));
                     if Strip(outside) == "" then "" else normalize(outside))
  {
    if value == "" {
      return "";
    }
    var stripped := RemoveBrackets(value);
    stripped := DropUnclosed(stripped);
    if Strip(stripped) == "" {
      return "";
    }
    base := normalize(stripped);
  }

  lemma {:induction false} ScanPlain(base: string, open: seq<string>, last: string, mid: string, s: string)
    requires forall i :: 0 <= i < |mid| ==> !IsBracket(mid[i])
    ensures Scan(base, open + [last], mid + s) == Scan(base, open + [last + mid], s)
    decreases |mid|
  {
    if mid == "" {
      assert mid + s == s && last + mid == last;
    } else {
      assert (mid + s)[1..] == mid[1..] + s;
      assert Extend(open + [last], mid[0]) == open + [last + [mid[0]]];
      ScanPlain(base, open, last + [mid[0]], mid[1..], s);
      assert last + [mid[0]] + mid[1..] == last + mid;
    }
  }

  lemma ScanGroup(base: string, open: seq<string>, s: string)
    requires StartsWithGroup(s)
    ensures Scan(base, open, s) == Scan(base, open, " " + AfterGroup(s))
  {
    var n := UpToBracket(s[1..]);
    var mid := s[1..][..n];
    assert s[1..] == mid + s[n + 1..];
    ScanPlain(base, open, [s[0]], mid, s[n + 1..]);
    assert (open + [[s[0]] + mid])[..|open|] == open;
    assert s[n + 1..][1..] == AfterGroup(s) && (" " + AfterGroup(s))[1..] == AfterGroup(s);
  }

  /** A pass does not change what the scan finds. */
  lemma {:induction false} PassKeepsScan(base: string, open: seq<string>, s: string)
    ensures Scan(base, open, Pass(s)) == Scan(base, open, s)
    decreases |s|
  {
    if s == "" {
    } else {
      var rest := if StartsWithGroup(s) then AfterGroup(s) else s[1..];
      var first := if StartsWithGroup(s) then ' ' else s[0];
      if StartsWithGroup(s) {
        ScanGroup(base, open, s);
      }
      assert ([first] + rest)[1..] == rest && ([first] + Pass(rest))[1..] == Pass(rest);
      assert !StartsWithGroup(s) ==> [first] + rest == s;
      if IsOpen(first) {
        PassKeepsScan(base, open + [[first]], rest);
      } else if IsClose(first) && open != [] {
        var front := open[..|open| - 1];
        if front == [] { PassKeepsScan(base + " ", [], rest); } else { PassKeepsScan(base, Extend(front, ' '), rest); }
      } else if open == [] {
        PassKeepsScan(base + [first], [], rest);
      } else {
        PassKeepsScan(base, Extend(open, first), rest);
      }
    }
  }

  /** Where there is an opening bracket before a closing one, a pass makes the text shorter. */
  lemma {:induction false} PairShrinks(s: string, i: nat, j: nat)
    requires i < j < |s| && IsOpen(s[i]) && IsClose(s[j])
    ensures |Pass(s)| < |s|
    decreases |s|
  {
    if !StartsWithGroup(s) {
      if i > 0 {
        PairShrinks(s[1..], i - 1, j - 1);
      } else {
        var n := UpToBracket(s[1..]);
        assert s[1..][j - 1] == s[j];
        assert n <= j - 1 && s[1..][n] == s[n + 1];
        PairShrinks(s[1..], n, j - 1);
      }
    }
  }

  lemma StableHasNoPair(s: string)
    requires Pass(s) == s
    ensures !HasPair(s)
  {
  }

  predicate HasClose(s: string) {
    exists j :: 0 <= j < |s| && IsClose(s[j])
  }

  lemma NoPairInTail(s: string)
    requires s != "" && !HasPair(s)
    ensures !HasPair(s[1..]) && (IsOpen(s[0]) ==> !HasClose(s[1..]))
  {
  }

  lemma NoCloseInTail(s: string)
    requires s != "" && !HasClose(s)
    ensures !HasClose(s[1..]) && !IsClose(s[0])
  {
  }

  lemma FlatPush(open: seq<string>, c: char)
    ensures Flat(open + [[c]]) == Flat(open) + [c]
  {
  }

  lemma FlatExtend(open: seq<string>, c: char)
    requires open != []
    ensures Flat(Extend(open, c)) == Flat(open) + [c]
  {
  }

  lemma MoveOne(a: string, b: string, s: string)
    requires s != ""
    ensures a + (b + [s[0]]) + s[1..] == a + b + s
  {
  }

  /** Without such a pair the scan has nothing to drop. */
  lemma {:induction false} NoPairScan(base: string, open: seq<string>, s: string)
    requires !HasPair(s) && (open != [] ==> !HasClose(s))
    ensures Scan(base, open, s) == base + Flat(open) + s
    decreases |s|
  {
    if s == "" {
    } else {
      hide HasPair, HasClose, Flat, Extend;
      NoPairInTail(s);
      MoveOne(base, Flat(open), s);
      if open != [] {
        NoCloseInTail(s);
      }
      if IsOpen(s[0]) {
        FlatPush(open, s[0]);
        NoPairScan(base, open + [[s[0]]], s[1..]);
      } else if open == [] {
        NothingOpen(base, s);
        NoPairScan(base + [s[0]], [], s[1..]);
      } else {
        FlatExtend(open, s[0]);
        NoPairScan(base, Extend(open, s[0]), s[1..]);
      }
    }
  }

  lemma NothingOpen(base: string, s: string)
    requires s != ""
    ensures base + [s[0]] + Flat([]) + s[1..] == base + Flat([]) + s
  {
  }
}
