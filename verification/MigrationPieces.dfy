/** How a migration file reads as a whole: as plain text, dollar-quoted blocks and comments, one after the other,
    and as lines, of which some are executable. */
module MigrationPieces {
  import opened MigrationSplitter
  import opened MigrationSplitterTheorems
  import opened Text

  // ----- Pieces -----

  datatype Piece = Plain(text: string) | Quoted(body: string) | Commented(line: string)
  {
    function Text(): string {
      match this
      case Plain(text) => text
      case Quoted(body) => "$$" + body + "$$"
      case Commented(line) => "--" + line + "\n"
    }

    /** The piece ends where it seems to: no delimiter starts inside it, or where it meets the next one. */
    predicate WellFormed() {
      match this
      case Plain(text) => NoPair(text, '$') && NoPair(text, '-') && !EndsIn(text, '$') && !EndsIn(text, '-')
      case Quoted(body) => NoPair(body, '$') && !EndsIn(body, '$')
      case Commented(line) => Without(line, '\n')
    }

    /** The semicolons that end a statement. */
    predicate CutsAt(j: int) { Plain? && 0 <= j < |text| && text[j] == ';' }
  }

  predicate NoPair(s: string, c: char) { forall i :: 0 < i < |s| ==> !(s[i - 1] == c && s[i] == c) }

  predicate EndsIn(s: string, c: char) { s != "" && s[|s| - 1] == c }

  function Render(pieces: seq<Piece>): string {
    if pieces == [] then "" else Render(pieces[..|pieces| - 1]) + pieces[|pieces| - 1].Text()
  }

  /** Where plain text leaves the scanner. */
  function PlainMode(text: string): Mode {
    if EndsIn(text, '$') then CodeSeenDollar else if EndsIn(text, '-') then CodeSeenDash else Code
  }

  lemma {:induction false} ReadPlain(before: string, text: string)
    requires ModeAfter(before) == Code && NoPair(text, '$') && NoPair(text, '-')
    ensures ModeAfter(before + text) == PlainMode(text)
  {
    if text == "" {
      assert before + text == before;
    } else {
      var front, last := text[..|text| - 1], text[|text| - 1];
      ReadPlain(before, front);
      assert before + text == before + front + [last];
      ModeStep(before + front, last);
    }
  }

  lemma {:induction false} ReadQuoted(before: string, body: string)
    requires ModeAfter(before) == Code && NoPair(body, '$')
    ensures ModeAfter(before + "$$" + body) == if EndsIn(body, '$') then BlockSeenDollar else Block
  {
    if body == "" {
      assert before + "$$" + body == before + ['$'] + ['$'];
      ModeStep(before, '$');
      ModeStep(before + ['$'], '$');
    } else {
      var front, last := body[..|body| - 1], body[|body| - 1];
      ReadQuoted(before, front);
      assert before + "$$" + body == before + "$$" + front + [last];
      ModeStep(before + "$$" + front, last);
    }
  }

  lemma {:induction false} ReadCommented(before: string, line: string)
    requires ModeAfter(before) == Code && Without(line, '\n')
    ensures ModeAfter(before + "--" + line) == Comment
  {
    if line == "" {
      assert before + "--" + line == before + ['-'] + ['-'];
      ModeStep(before, '-');
      ModeStep(before + ['-'], '-');
    } else {
      var front, last := line[..|line| - 1], line[|line| - 1];
      ReadCommented(before, front);
      assert before + "--" + line == before + "--" + front + [last];
      ModeStep(before + "--" + front, last);
    }
  }

  /** A piece is left as it was entered, in plain code. */
  lemma ReadPiece(before: string, p: Piece)
    requires ModeAfter(before) == Code && p.WellFormed()
    ensures ModeAfter(before + p.Text()) == Code
  {
    hide ModeAfter;
    match p
    case Plain(text) => ReadPlain(before, text);
    case Quoted(body) =>
      ReadQuoted(before, body);
      var open := before + "$$" + body;
      assert before + p.Text() == open + ['$'] + ['$'];
      ModeStep(open, '$');
      ModeStep(open + ['$'], '$');
    case Commented(line) =>
      ReadCommented(before, line);
      assert before + p.Text() == before + "--" + line + ['\n'];
      ModeStep(before + "--" + line, '\n');
  }

  lemma {:induction false} ReadPieces(pieces: seq<Piece>)
    requires forall p :: p in pieces ==> p.WellFormed()
    ensures ModeAfter(Render(pieces)) == Code
  {
    if pieces == [] {
    } else {
      ReadPieces(pieces[..|pieces| - 1]);
      ReadPiece(Render(pieces[..|pieces| - 1]), pieces[|pieces| - 1]);
    }
  }

  lemma NoPairPrefix(s: string, c: char, k: nat)
    requires NoPair(s, c) && k <= |s|
    ensures NoPair(s[..k], c)
  {
  }

  /** Within a piece, just the semicolons of plain text are read in plain code. */
  lemma CutsInPiece(before: string, p: Piece, j: nat)
    requires ModeAfter(before) == Code && p.WellFormed() && j < |p.Text()|
    ensures p.Text()[j] == ';' && ModeAfter(before + p.Text()[..j]).InCode() <==> p.CutsAt(j)
  {
    hide ModeAfter;
    match p
    case Plain(text) =>
      NoPairPrefix(text, '$', j);
      NoPairPrefix(text, '-', j);
      ReadPlain(before, text[..j]);
    case Quoted(body) =>
      if 2 <= j < |body| + 2 {
        NoPairPrefix(body, '$', j - 2);
        ReadQuoted(before, body[..j - 2]);
        assert before + p.Text()[..j] == before + "$$" + body[..j - 2];
      }
    case Commented(line) =>
      if 2 <= j < |line| + 2 {
        ReadCommented(before, line[..j - 2]);
        assert before + p.Text()[..j] == before + "--" + line[..j - 2];
      }
  }

  lemma {:induction false} RenderStartsWith(pieces: seq<Piece>, k: nat)
    requires k < |pieces|
    ensures Render(pieces[..k]) + pieces[k].Text() <= Render(pieces)
  {
    hide Piece.Text;
    var n := |pieces| - 1;
    if k < n {
      RenderStartsWith(pieces[..n], k);
      assert pieces[..n][..k] == pieces[..k];
      assert Render(pieces) == Render(pieces[..n]) + pieces[n].Text();
    }
  }

  /** A file made of well-formed pieces is cut at the semicolons of its plain text and nowhere else. */
  lemma PiecesAreCutRightly(pieces: seq<Piece>, k: nat, j: nat)
    requires forall p :: p in pieces ==> p.WellFormed()
    requires k < |pieces| && j < |pieces[k].Text()|
    ensures var i := |Render(pieces[..k])| + j;
            i < |Render(pieces)| && (IsCut(Render(pieces), i) <==> pieces[k].CutsAt(j))
  {
    hide ModeAfter, Render, Piece.Text, Piece.WellFormed, Piece.CutsAt;
    var before, p := Render(pieces[..k]), pieces[k];
    ReadPieces(pieces[..k]);
    CutsInPiece(before, p, j);
    RenderStartsWith(pieces, k);
    PlaceInText(Render(pieces), before, p.Text(), j);
  }

  lemma PlaceInText(text: string, before: string, piece: string, j: nat)
    requires before + piece <= text && j < |piece|
    ensures |before| + j < |text| && text[|before| + j] == piece[j] && text[..|before| + j] == before + piece[..j]
  {
    assert text[..|before| + |piece|] == before + piece;
    assert text[..|before| + j] == (before + piece)[..|before| + j];
  }

  // ----- Lines -----

  /** text[i..j] is a line. */
  predicate IsLine(text: string, i: int, j: int) {
    && 0 <= i <= j <= |text|
    && (i == 0 || IsLineBreak(text[i - 1])) && (j == |text| || IsLineBreak(text[j]))
    && forall k :: i <= k < j ==> !IsLineBreak(text[k])
  }

  predicate LineExecutes(line: string) { Strip(line) != "" && !("--" <= Strip(line)) }

  /** Some line is neither blank nor a comment. */
  predicate SomeLineExecutes(text: string) {
    exists i, j :: 0 <= i <= j <= |text| && IsLine(text, i, j) && LineExecutes(text[i..j])
  }

  /** k is where the first character stands that is no blank. */
  predicate IsStart(line: string, k: int) { 0 <= k < |line| && AllSpace(line[..k]) && !IsSpace(line[k]) }

  lemma StartIsUnique(line: string, k: int, m: int)
    requires IsStart(line, k) && IsStart(line, m)
    ensures k == m
  {
    hide IsSpace;
  }

  /** What makes a line executable: a character that is no blank, and no comment that starts with the first. */
  lemma LineExecutesExactly(line: string)
    ensures LineExecutes(line) <==> exists k :: IsStart(line, k) && !("--" <= line[k..])
  {
    hide IsSpace;
    var rest := StripLeft(line);
    var start := |line| - |rest|;
    if rest == "" {
      assert line[..start] == line;
      assert forall k :: 0 <= k < |line| ==> IsSpace(line[k]);
    } else {
      assert rest == line[start..];
      assert IsStart(line, start);
      StripKeepsDashes(rest);
      hide IsStart, StripLeft, StripRight;
      forall k | IsStart(line, k) ensures k == start {
        StartIsUnique(line, k, start);
      }
    }
  }

  lemma StripKeepsDashes(rest: string)
    requires rest != "" && !IsSpace(rest[0])
    ensures StripRight(rest) != "" && ("--" <= StripRight(rest) <==> "--" <= rest)
  {
    var stripped := StripRight(rest);
    hide StripRight;
    assert |stripped| < |rest| ==> IsSpace(rest[|stripped|..][0]);
  }

  lemma FirstLineIsLine(text: string)
    ensures IsLine(text, 0, |FirstLine(text)|)
    ensures forall j :: IsLine(text, 0, j) ==> j == |FirstLine(text)|
  {
    FirstLineHasNoBreak(text);
  }

  lemma {:induction false} FirstLineHasNoBreak(text: string)
    ensures forall k :: 0 <= k < |FirstLine(text)| ==> !IsLineBreak(FirstLine(text)[k])
  {
    if text == "" || IsLineBreak(text[0]) {
    } else {
      FirstLineHasNoBreak(text[1..]);
    }
  }

  /** The lines of the rest after a line break are lines of the whole, and the other way round. */
  lemma LinesAfter(text: string, start: nat, i: int, j: int)
    requires 0 < start <= |text| && IsLineBreak(text[start - 1])
    ensures IsLine(text[start..], i, j) <==> start <= start + i && IsLine(text, start + i, start + j)
  {
    var rest := text[start..];
    if IsLine(text, start + i, start + j) && i >= 0 {
      assert i > 0 ==> rest[i - 1] == text[start + i - 1];
      assert j < |rest| ==> rest[j] == text[start + j];
    }
  }

  lemma LaterLine(text: string, start: nat, i: int, j: int)
    requires 0 < start <= |text| && IsLineBreak(text[start - 1]) && start <= i && IsLine(text, i, j)
    requires LineExecutes(text[i..j])
    ensures SomeLineExecutes(text[start..])
  {
    hide LineExecutes;
    var rest, i', j' := text[start..], i - start, j - start;
    LinesAfter(text, start, i', j');
    assert rest[i'..j'] == text[i..j];
    assert IsLine(rest, i', j') && LineExecutes(rest[i'..j']);
  }

  lemma LaterLineOfWhole(text: string, start: nat)
    requires 0 < start <= |text| && IsLineBreak(text[start - 1]) && SomeLineExecutes(text[start..])
    ensures SomeLineExecutes(text)
  {
    hide LineExecutes;
    var rest := text[start..];
    var i, j :| 0 <= i <= j <= |rest| && IsLine(rest, i, j) && LineExecutes(rest[i..j]);
    LinesAfter(text, start, i, j);
    assert text[start + i..start + j] == rest[i..j];
  }

  /** Some line executes when the first one does, or one of the rest. */
  lemma LinesSplit(text: string)
    ensures var n := |FirstLine(text)|;
            SomeLineExecutes(text) <==>
              LineExecutes(text[..n]) || (n < |text| && SomeLineExecutes(text[n + 1..]))
  {
    var n := |FirstLine(text)|;
    FirstLineIsLine(text);
    hide LineExecutes, IsLine, FirstLine;
    assert text[..n] == text[0..n];
    if n < |text| && SomeLineExecutes(text[n + 1..]) {
      LaterLineOfWhole(text, n + 1);
    }
    if i, j :| 0 <= i <= j <= |text| && IsLine(text, i, j) && LineExecutes(text[i..j]) {
      if i > 0 {
        LineStartsLater(text, i, j);
        LaterLine(text, n + 1, i, j);
      }
    }
  }

  lemma LineStartsLater(text: string, i: int, j: int)
    requires IsLine(text, i, j) && 0 < i
    ensures |FirstLine(text)| < i <= |text| && IsLineBreak(text[|FirstLine(text)|])
  {
    FirstLineIsLine(text);
    assert IsLine(text, 0, |FirstLine(text)|);
  }

  lemma FirstLineDecides(text: string)
    ensures var n := |FirstLine(text)|;
            HasExecutableSql(text) <==> LineExecutes(text[..n]) || (n < |text| && HasExecutableSql(text[n + 1..]))
  {
    hide Strip, FirstLine;
    var line := FirstLine(text);
    assert text[..|line|] == line;
    assert line == text <==> |line| == |text|;
  }

  /** A statement is executable exactly when one of its lines is. */
  lemma {:induction false} ExecutableExactly(text: string)
    ensures HasExecutableSql(text) <==> SomeLineExecutes(text)
    decreases |text|
  {
    hide *;
    LinesSplit(text);
    FirstLineDecides(text);
    var n := |FirstLine(text)|;
    if n < |text| {
      ExecutableExactly(text[n + 1..]);
    }
  }

  /** A comment or a blank line in front of a statement does not hide it. */
  lemma LineInFront(line: string, text: string)
    requires Without(line, '\n')
    ensures HasExecutableSql(text) ==> HasExecutableSql(line + "\n" + text)
  {
    var whole := line + "\n" + text;
    if HasExecutableSql(text) {
      ExecutableExactly(text);
      ExecutableExactly(whole);
      assert whole[|line| + 1..] == text;
      LaterLineOfWhole(whole, |line| + 1);
    }
  }

  /** A stretch of the file is returned exactly when one of its lines is neither blank nor a comment. */
  lemma SegmentIsReturnedExactly(sql: string, k: nat)
    requires k < |Segments(sql)|
    ensures Strip(Segments(sql)[k]) in Statements(sql) <==> SomeLineExecutes(Strip(Segments(sql)[k]))
  {
    OnlyIdleTextIsDropped(Segments(sql), k);
    ExecutableExactly(Strip(Segments(sql)[k]));
    EmptyExecutesNothing();
  }

  lemma EmptyExecutesNothing()
    ensures !SomeLineExecutes("")
  {
    assert Strip("") == "";
  }
}
