/** Splitting a migration file into statements. */
module MigrationSplitter {
  import opened Text

  // ----- Where a semicolon ends a statement -----

  /** What the text read so far leaves open. The Seen modes have just read a character that the next one may
      complete to a block delimiter or a comment start. */
  datatype Mode = Code | CodeSeenDollar | CodeSeenDash | Block | BlockSeenDollar | Comment {
    predicate InCode() { Code? || CodeSeenDollar? || CodeSeenDash? }

    predicate InBlock() { Block? || BlockSeenDollar? }
  }

  function Advance(m: Mode, c: char): Mode {
    match m
    case Comment => if c == '\n' then Code else Comment
    case Block => if c == '$' then BlockSeenDollar else Block
    case BlockSeenDollar => if c == '$' then Code else Block
    case _ =>
      if c == '$' then (if m.CodeSeenDollar? then Block else CodeSeenDollar)
      else if c == '-' then (if m.CodeSeenDash? then Comment else CodeSeenDash)
      else Code
  }

  function ModeAfter(text: string): Mode {
    if text == "" then Code else Advance(ModeAfter(text[..|text| - 1]), text[|text| - 1])
  }

  /** A semicolon outside dollar-quoted blocks and line comments. */
  predicate IsCut(sql: string, i: nat)
    requires i < |sql|
  {
    sql[i] == ';' && ModeAfter(sql[..i]).InCode()
  }

  /** The stretches of text between the cuts. */
  function Segments(sql: string): (segments: seq<string>)
    ensures |segments| > 0
  {
    if sql == "" then [""]
    else
      var n := |sql| - 1;
      var before := Segments(sql[..n]);
      if IsCut(sql, n) then before + [""] else before[..|before| - 1] + [before[|before| - 1] + [sql[n]]]
  }

  // ----- Executable statements -----

  /** The line boundaries of str.splitlines. */
  predicate IsLineBreak(c: char) {
    '\U{0A}' <= c <= '\U{0D}' || '\U{1C}' <= c <= '\U{1E}' || c == '\U{85}' || c == '\U{2028}' || c == '\U{2029}'
  }

  function FirstLine(s: string): (line: string)
    ensures line <= s
    ensures line == s || IsLineBreak(s[|line|])
  {
    if s == "" || IsLineBreak(s[0]) then "" else [s[0]] + FirstLine(s[1..])
  }

  /** Some line is neither blank nor a comment. A carriage return with a line feed counts as two breaks here,
      with an empty line in between, which is not executable. */
  predicate HasExecutableSql(stmt: string)
    decreases |stmt|
  {
    var line := FirstLine(stmt);
    (Strip(line) != "" && !("--" <= Strip(line)))
    || (line != stmt && HasExecutableSql(stmt[|line| + 1..]))
  }

  /** The statements kept from a list of segments: stripped, and executable. */
  function Kept(segments: seq<string>): seq<string> {
    if segments == [] then []
    else
      var n := |segments| - 1;
      var stmt := Strip(segments[n]);
      Kept(segments[..n]) + if stmt != "" && HasExecutableSql(stmt) then [stmt] else []
  }

  /** What splitting a file means. */
  function Statements(sql: string): seq<string> { Kept(Segments(sql)) }

  // ----- The scanner -----

  lemma SegmentsStep(sql: string, i: nat)
    requires i < |sql|
    ensures ModeAfter(sql[..i + 1]) == Advance(ModeAfter(sql[..i]), sql[i])
    ensures var before, after := Segments(sql[..i]), Segments(sql[..i + 1]);
            after == if IsCut(sql, i) then before + [""]
                     else before[..|before| - 1] + [before[|before| - 1] + [sql[i]]]
  {
    assert sql[..i + 1][..i] == sql[..i];
  }

  /** Non-empty stripped segments. */
  function Stripped(segments: seq<string>): seq<string> {
    if segments == [] then []
    else
      var n := |segments| - 1;
      Stripped(segments[..n]) + if Strip(segments[n]) != "" then [Strip(segments[n])] else []
  }

  function Executable(stmts: seq<string>): seq<string> {
    if stmts == [] then []
    else
      Executable(stmts[..|stmts| - 1]) + if HasExecutableSql(stmts[|stmts| - 1]) then [stmts[|stmts| - 1]] else []
  }

  lemma {:induction false} KeptIsExecutableStripped(segments: seq<string>)
    ensures Kept(segments) == Executable(Stripped(segments))
  {
    hide Strip, HasExecutableSql;
    if segments == [] {
    } else {
      var n := |segments| - 1;
      KeptIsExecutableStripped(segments[..n]);
      var front, stmt := Stripped(segments[..n]), Strip(segments[n]);
      assert (front + [stmt])[..|front|] == front;
      assert Stripped(segments) == if stmt != "" then front + [stmt] else front;
    }
  }

  /** The scanner's state at position i says what the prefix read so far says; a pending delimiter character
      is never followed by the one that would complete it, because the scanner looks ahead. */
  ghost predicate ScannerAt(sql: string, i: nat, inDollar: bool, inComment: bool, current: string, stmts: seq<string>)
    requires i <= |sql|
  {
    var m, segments := ModeAfter(sql[..i]), Segments(sql[..i]);
    && (inComment <==> m.Comment?) && (inDollar <==> m.InBlock())
    && (m.CodeSeenDollar? || m.BlockSeenDollar? ==> i == |sql| || sql[i] != '$')
    && (m.CodeSeenDash? ==> i == |sql| || sql[i] != '-')
    && current == segments[|segments| - 1] && stmts == Stripped(segments[..|segments| - 1])
  }

  lemma ReadTwo(sql: string, i: nat, inDollar: bool, inComment: bool, current: string, stmts: seq<string>)
    requires i + 1 < |sql| && ScannerAt(sql, i, inDollar, inComment, current, stmts) && !inComment
    requires (sql[i] == '$' && sql[i + 1] == '$') || (!inDollar && sql[i] == '-' && sql[i + 1] == '-')
    ensures ScannerAt(sql, i + 2, if sql[i] == '$' then !inDollar else inDollar, sql[i] == '-',
                      current + [sql[i], sql[i + 1]], stmts)
  {
    hide Segments, Stripped;
    SegmentsStep(sql, i);
    SegmentsStep(sql, i + 1);
    assert current + [sql[i]] + [sql[i + 1]] == current + [sql[i], sql[i + 1]];
  }

  lemma ReadText(sql: string, i: nat, inDollar: bool, inComment: bool, current: string, stmts: seq<string>)
    requires i < |sql| && ScannerAt(sql, i, inDollar, inComment, current, stmts)
    requires inComment || !(i + 1 < |sql| && sql[i] == '$' && sql[i + 1] == '$')
    requires inComment || inDollar || !(i + 1 < |sql| && sql[i] == '-' && sql[i + 1] == '-')
    requires inComment || inDollar || sql[i] != ';'
    ensures ScannerAt(sql, i + 1, inDollar, inComment && sql[i] != '\n', current + [sql[i]], stmts)
  {
    hide Segments, Stripped;
    SegmentsStep(sql, i);
  }

  lemma ReadCut(sql: string, i: nat, current: string, stmts: seq<string>)
    requires i < |sql| && ScannerAt(sql, i, false, false, current, stmts) && sql[i] == ';'
    ensures ScannerAt(sql, i + 1, false, false, "", stmts + if Strip(current) != "" then [Strip(current)] else [])
  {
    hide Segments, Strip;
    SegmentsStep(sql, i);
    var segments := Segments(sql[..i]);
    assert (segments + [""])[..|segments|] == segments;
  }

  method SplitStatements(sql: string) returns (stmts: seq<string>)
    ensures stmts == Statements(sql)
  {
    hide Segments, Strip, ModeAfter, HasExecutableSql;
    stmts := [];
    var current := "";
    var inDollar, inComment := false, false;
    var i := 0;
    assert ScannerAt(sql, 0, false, false, "", []) by { ScannerStarts(sql); }
    while i < |sql|
      invariant i <= |sql|
      invariant ScannerAt(sql, i, inDollar, inComment, current, stmts)
    {
      hide ScannerAt;
      if !inComment && i + 1 < |sql| && sql[i] == '$' && sql[i + 1] == '$' {
        ReadTwo(sql, i, inDollar, inComment, current, stmts);
        inDollar := !inDollar;
        current := current + [sql[i], sql[i + 1]];
        i := i + 2;
        continue;
      }
      var ch := sql[i];
      if inComment {
        ReadText(sql, i, inDollar, inComment, current, stmts);
        current := current + [ch];
        if ch == '\n' {
          inComment := false;
        }
        i := i + 1;
        continue;
      }
      if !inDollar && ch == '-' && i + 1 < |sql| && sql[i + 1] == '-' {
        ReadTwo(sql, i, inDollar, inComment, current, stmts);
        inComment := true;
        current := current + [sql[i], sql[i + 1]];
        i := i + 2;
        continue;
      }
      if ch == ';' && !inDollar {
        ReadCut(sql, i, current, stmts);
        var stmt := Strip(current);
        stmts := stmts + if stmt != "" then [stmt] else [];
        current := "";
      } else {
        ReadText(sql, i, inDollar, inComment, current, stmts);
        current := current + [ch];
      }
      i := i + 1;
    }
    var tail := Strip(current);
    stmts := stmts + if tail != "" then [tail] else [];
    assert stmts == Stripped(Segments(sql)) by { assert sql[..i] == sql; }
    KeptIsExecutableStripped(Segments(sql));
    stmts := KeepExecutable(stmts);
  }

  lemma ScannerStarts(sql: string)
    ensures ScannerAt(sql, 0, false, false, "", [])
  {
  }

  method KeepExecutable(all: seq<string>) returns (stmts: seq<string>)
    ensures stmts == Executable(all)
  {
    stmts := [];
    for k := 0 to |all|
      invariant stmts == Executable(all[..k])
    {
      assert all[..k + 1][..k] == all[..k];
      if HasExecutableSql(all[k]) {
        stmts := stmts + [all[k]];
      }
    }
    assert all[..|all|] == all;
  }
}
