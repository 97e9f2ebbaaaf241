/** The splitter loses nothing, cuts exactly where it should, and is stable. */
module MigrationSplitterTheorems {
  import opened Text
  import opened MigrationSplitter

  // ----- Nothing is lost, and the cuts are exact -----

  lemma {:induction false} JoinAppend(parts: seq<string>, last: string, c: char)
    requires parts != []
    ensures Join(parts + [last], c) == Join(parts, c) + [c] + last
  {
    if |parts| > 1 {
      JoinAppend(parts[1..], last, c);
      assert (parts + [last])[1..] == parts[1..] + [last];
    } else {
      assert (parts + [last])[1..] == [last];
    }
  }

  lemma JoinExtendLast(parts: seq<string>, more: string, c: char)
    requires parts != []
    ensures Join(parts[..|parts| - 1] + [parts[|parts| - 1] + more], c) == Join(parts, c) + more
  {
    var front, last := parts[..|parts| - 1], parts[|parts| - 1];
    assert parts == front + [last];
    if front != [] {
      JoinAppend(front, last, c);
      JoinAppend(front, last + more, c);
    }
  }

  /** The segments joined with semicolons are the file. */
  lemma {:induction false} SegmentsJoin(sql: string)
    ensures Join(Segments(sql), ';') == sql
  {
    if sql == "" {
    } else {
      var n := |sql| - 1;
      SegmentsJoin(sql[..n]);
      var before := Segments(sql[..n]);
      assert sql == sql[..n] + [sql[n]];
      if IsCut(sql, n) {
        JoinAppend(before, "", ';');
      } else {
        JoinExtendLast(before, [sql[n]], ';');
      }
    }
  }

  /** How far into the file the first k segments reach, with the semicolons between them. */
  function Reach(segments: seq<string>, k: nat): nat
    requires 0 < k <= |segments|
  {
    |Join(segments[..k], ';')|
  }

  /** i is where some segment ends and a semicolon follows. */
  predicate Boundary(segments: seq<string>, i: nat) {
    exists k :: 0 < k < |segments| && Reach(segments, k) == i
  }

  lemma BoundaryOfLonger(before: seq<string>, last: string, i: nat)
    requires before != []
    ensures Boundary(before + [last], i) <==> Boundary(before, i) || |Join(before, ';')| == i
  {
    var after := before + [last];
    assert after[..|before|] == before;
    assert forall k :: 0 < k < |before| ==> before[..k] == after[..k];
    if Boundary(before, i) {
      var k :| 0 < k < |before| && Reach(before, k) == i;
      assert Reach(after, k) == i;
    }
    if |Join(before, ';')| == i {
      assert Reach(after, |before|) == i;
    }
    if Boundary(after, i) {
      var k :| 0 < k < |after| && Reach(after, k) == i;
      if k < |before| {
        assert Reach(before, k) == i;
      }
    }
  }

  lemma BoundaryOfExtended(before: seq<string>, last: string, i: nat)
    requires before != []
    ensures Boundary(before[..|before| - 1] + [last], i) <==> Boundary(before, i)
  {
    var after := before[..|before| - 1] + [last];
    assert forall k :: 0 < k < |before| ==> before[..k] == after[..k];
    if Boundary(before, i) {
      var k :| 0 < k < |before| && Reach(before, k) == i;
      assert Reach(after, k) == i;
    }
    if Boundary(after, i) {
      var k :| 0 < k < |after| && Reach(after, k) == i;
      assert Reach(before, k) == i;
    }
  }

  /** The positions between consecutive segments are exactly the cuts. */
  lemma {:induction false} CutsAreExact(sql: string, i: nat)
    requires i < |sql|
    ensures IsCut(sql, i) <==> Boundary(Segments(sql), i)
  {
    var n := |sql| - 1;
    var before := Segments(sql[..n]);
    SegmentsJoin(sql[..n]);
    if i < n {
      CutsAreExact(sql[..n], i);
      assert sql[..n][..i] == sql[..i];
    } else {
      ReachBelow(before, n);
    }
    if IsCut(sql, n) {
      BoundaryOfLonger(before, "", i);
    } else {
      BoundaryOfExtended(before, before[|before| - 1] + [sql[n]], i);
    }
  }

  lemma ReachBelow(segments: seq<string>, n: nat)
    requires segments != [] && |Join(segments, ';')| == n
    ensures forall k :: 0 < k < |segments| ==> Reach(segments, k) < n
  {
    forall k | 0 < k < |segments| ensures Reach(segments, k) < n {
      ReachGrows(segments, k, |segments|);
      assert segments[..|segments|] == segments;
    }
  }

  lemma {:induction false} ReachGrows(segments: seq<string>, k: nat, m: nat)
    requires 0 < k < m <= |segments|
    ensures Reach(segments, k) < Reach(segments, m)
    decreases m
  {
    assert segments[..m] == segments[..m - 1] + [segments[m - 1]];
    JoinAppend(segments[..m - 1], segments[m - 1], ';');
    if k < m - 1 {
      ReachGrows(segments, k, m - 1);
    }
  }

  // ----- Stability -----

  /** Read on its own, from outside any block or comment, the text has no cut. */
  predicate Uncut(text: string) { Segments(text) == [text] }

  lemma UncutStep(text: string, c: char)
    requires Uncut(text) && (c != ';' || !ModeAfter(text).InCode())
    ensures Uncut(text + [c])
  {
  }

  lemma EmptyIsUncut()
    ensures Segments("") == [""] && Uncut("") && ModeAfter("") == Code
  {
  }

  lemma ModeStep(text: string, c: char)
    ensures ModeAfter(text + [c]) == Advance(ModeAfter(text), c)
  {
    assert (text + [c])[..|text|] == text;
  }

  /** Every segment, read on its own, is uncut; and reading the last one leaves open what the file does. */
  lemma {:induction false} SegmentsAreUncut(sql: string)
    ensures forall k :: 0 <= k < |Segments(sql)| ==> Uncut(Segments(sql)[k])
    ensures ModeAfter(Segments(sql)[|Segments(sql)| - 1]) == ModeAfter(sql)
  {
    EmptyIsUncut();
    if sql == "" {
    } else {
      var n := |sql| - 1;
      SegmentsAreUncut(sql[..n]);
      SegmentsStep(sql, n);
      assert sql[..n + 1] == sql;
      hide Segments, ModeAfter, Uncut, Advance;
      var before := Segments(sql[..n]);
      var last := before[|before| - 1];
      if !IsCut(sql, n) {
        UncutStep(last, sql[n]);
        ModeStep(last, sql[n]);
      }
      forall k | 0 <= k < |Segments(sql)| ensures Uncut(Segments(sql)[k]) {
        assert k < |before| - 1 ==> Segments(sql)[k] == before[k];
      }
    }
  }

  lemma LastIsNoCut(text: string)
    requires Uncut(text) && text != ""
    ensures !IsCut(text, |text| - 1)
  {
  }

  lemma {:induction false} UncutPrefix(text: string, k: nat)
    requires Uncut(text) && k <= |text|
    ensures Uncut(text[..k])
    decreases |text|
  {
    if k < |text| {
      var n := |text| - 1;
      var before := Segments(text[..n]);
      LastIsNoCut(text);
      assert |before| == |Segments(text)| == 1 && Segments(text)[0] == before[0] + [text[n]];
      assert before[0] == (before[0] + [text[n]])[..n] == text[..n];
      UncutPrefix(text[..n], k);
      assert text[..n][..k] == text[..k];
    } else {
      assert text[..k] == text;
    }
  }

  lemma {:induction false} SpaceKeepsCode(s: string)
    requires AllSpace(s)
    ensures ModeAfter(s) == Code
  {
    if s == "" {
    } else {
      SpaceKeepsCode(s[..|s| - 1]);
    }
  }

  /** Leading blanks do not change how the rest is read. */
  lemma {:induction false} UncutAfterSpace(text: string, k: nat)
    requires Uncut(text) && k <= |text| && AllSpace(text[..k])
    ensures Uncut(text[k..]) && ModeAfter(text[k..]) == ModeAfter(text)
    decreases |text|
  {
    if |text| == k {
      assert text[..k] == text && text[k..] == "";
      SpaceKeepsCode(text);
    } else {
      var n := |text| - 1;
      UncutPrefix(text, n);
      assert text[..n][..k] == text[..k];
      UncutAfterSpace(text[..n], k);
      assert text[k..] == text[..n][k..] + [text[n]];
      assert (text[..n][k..] + [text[n]])[..n - k] == text[..n][k..];
      LastIsNoCut(text);
      UncutStep(text[..n][k..], text[n]);
    }
  }

  lemma UncutStrip(text: string)
    requires Uncut(text)
    ensures Uncut(Strip(text))
  {
    hide ModeAfter, Segments;
    var left := StripLeft(text);
    UncutAfterSpace(text, |text| - |left|);
    var both := StripRight(left);
    UncutPrefix(left, |both|);
    assert both == left[..|both|];
  }

  lemma {:induction false} KeptComeFromSegments(segments: seq<string>, stmt: string)
    requires stmt in Kept(segments)
    ensures stmt != "" && HasExecutableSql(stmt) && exists k :: 0 <= k < |segments| && stmt == Strip(segments[k])
  {
    hide Strip, HasExecutableSql;
    var n := |segments| - 1;
    if stmt in Kept(segments[..n]) {
      KeptComeFromSegments(segments[..n], stmt);
      assert forall k :: 0 <= k < n ==> segments[..n][k] == segments[k];
    }
  }

  /** Splitting any returned statement again returns just that statement. */
  lemma StatementsAreStable(sql: string, stmt: string)
    requires stmt in Statements(sql)
    ensures Statements(stmt) == [stmt]
  {
    hide Segments, Strip, HasExecutableSql;
    KeptComeFromSegments(Segments(sql), stmt);
    var k :| 0 <= k < |Segments(sql)| && stmt == Strip(Segments(sql)[k]);
    SegmentsAreUncut(sql);
    UncutStrip(Segments(sql)[k]);
    StripIsStripped(Segments(sql)[k]);
    assert Kept([stmt][..0]) == [];
  }

  /** What is dropped is blank or comment: every segment that is not returned has nothing to execute. */
  lemma {:induction false} OnlyIdleTextIsDropped(segments: seq<string>, k: nat)
    requires k < |segments|
    ensures Strip(segments[k]) in Kept(segments) <==> Strip(segments[k]) != "" && HasExecutableSql(Strip(segments[k]))
  {
    hide Strip, HasExecutableSql;
    var n := |segments| - 1;
    if k < n {
      OnlyIdleTextIsDropped(segments[..n], k);
    }
    if Strip(segments[k]) in Kept(segments) {
      KeptComeFromSegments(segments, Strip(segments[k]));
    }
  }
}
