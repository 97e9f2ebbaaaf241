/** Stripping harmless bracketed endings such as "(Remastered 2011)" from a title. */
module BenignSuffix {
  import opened Text
  import opened TitleBrackets
  import opened Wrappers

  /** Where a bracketed ending starts, with the blanks before it, and where its two brackets are. */
  datatype Ending = Ending(start: nat, open: nat, close: nat)

  /** s ends in blanks, an opening bracket, at least one character none of which is a closing bracket, a
      closing bracket and blanks: what the pattern accepts from a given start. */
  predicate EndsSo(s: string, e: Ending) {
    && e.start <= e.open && e.open + 1 < e.close < |s|
    && AllSpace(s[e.start..e.open]) && IsOpen(s[e.open])
    && (forall i :: e.open < i < e.close ==> !IsClose(s[i]))
    && IsClose(s[e.close]) && AllSpace(s[e.close + 1..])
  }

  /** The position after the last closing bracket. */
  function AfterLastClose(s: string): (p: nat)
    ensures p <= |s| && (p > 0 ==> IsClose(s[p - 1])) && forall i :: p <= i < |s| ==> !IsClose(s[i])
  {
    if s == "" || IsClose(s[|s| - 1]) then |s| else AfterLastClose(s[..|s| - 1])
  }

  /** The first opening bracket at or after position i. */
  function OpenFrom(s: string, i: nat): (o: nat)
    requires i <= |s|
    ensures i <= o <= |s| && (o < |s| ==> IsOpen(s[o])) && forall k :: i <= k < o ==> !IsOpen(s[k])
    decreases |s| - i
  {
    if i == |s| || IsOpen(s[i]) then i else OpenFrom(s, i + 1)
  }

  /** The bracketed ending that the search finds. */
  function FindEnding(s: string): (r: Option<Ending>) {
    var body := StripRight(s);
    if body == "" || !IsClose(body[|body| - 1]) then None
    else
      var inside := body[..|body| - 1];
      var open := OpenFrom(inside, AfterLastClose(inside));
      if open + 1 < |inside| then Some(Ending(|StripRight(s[..open])|, open, |inside|)) else None
  }

  lemma FoundEndsSo(s: string)
    requires FindEnding(s).Some?
    ensures EndsSo(s, FindEnding(s).value)
  {
  }

  /** Nothing is left to strip before an ending. */
  lemma StartIsStripped(s: string)
    requires FindEnding(s).Some?
    ensures var e := FindEnding(s).value; e.start <= |s| && StripRight(s[..e.start]) == s[..e.start]
  {
  }

  lemma LastIs(s: string, c: nat)
    requires c < |s| && !IsSpace(s[c]) && AllSpace(s[c + 1..])
    ensures StripRight(s) == s[..c + 1]
  {
  }

  lemma StripsToStart(s: string, start: nat, open: nat)
    requires start <= open <= |s| && AllSpace(s[start..open])
    ensures |StripRight(s[..open])| <= start
    ensures forall i :: start <= i < open ==> !IsOpen(s[i])
  {
  }

  lemma FirstOpenBound(s: string, e: Ending)
    requires EndsSo(s, e)
    ensures OpenFrom(s[..e.close], AfterLastClose(s[..e.close])) <= e.open
  {
  }

  /** The search finds an ending whenever there is one, and no ending starts further left. */
  lemma FindsTheLeftmost(s: string, e: Ending)
    requires EndsSo(s, e)
    ensures FindEnding(s).Some? && FindEnding(s).value.start <= e.start
    ensures FindEnding(s).value.start == e.start ==> FindEnding(s).value == e
  {
    hide AfterLastClose, OpenFrom, StripRight;
    LastIs(s, e.close);
    FirstOpenBound(s, e);
    StripsToStart(s, e.start, e.open);
    assert StripRight(s)[..e.close] == s[..e.close];
    var open := OpenFrom(s[..e.close], AfterLastClose(s[..e.close]));
    assert IsOpen(s[open]);
  }

  // ----- The loop -----

  /** The title without its harmless endings; `benign` judges the text in the brackets. */
  function Cut(title: string, benign: string -> bool): (r: string)
    ensures r <= title
    decreases |title|
  {
    match FindEnding(title)
    case None => title
    case Some(e) =>
      FoundEndsSo(title);
      if benign(title[e.open + 1..e.close]) then Cut(title[..e.start], benign) else title
  }

  function Stripped(title: string, benign: string -> bool): string {
    if Cut(title, benign) == "" then title else Cut(title, benign)
  }

  method StripBenignSuffix(original: string, benign: string -> bool) returns (r: string)
    ensures r == Stripped(original, benign)
  {
    if original == "" {
      return "";
    }
    var title := original;
    while true
      invariant Cut(title, benign) == Cut(original, benign)
      decreases |title|
    {
      var found := FindEnding(title);
      if found.None? {
        break;
      }
      var e := found.value;
      FoundEndsSo(title);
      if !benign(title[e.open + 1..e.close]) {
        break;
      }
      StartIsStripped(title);
      title := StripRight(title[..e.start]);
    }
    r := if title == "" then original else title;
  }

  /** Stripping twice is stripping once, also for a title that is nothing but harmless endings. */
  lemma StripsOnce(title: string, benign: string -> bool)
    ensures Stripped(Stripped(title, benign), benign) == Stripped(title, benign)
  {
    CutIsStable(title, benign);
  }

  lemma {:induction false} CutIsStable(title: string, benign: string -> bool)
    ensures Cut(Cut(title, benign), benign) == Cut(title, benign)
    decreases |title|
  {
    if FindEnding(title).Some? {
      var e := FindEnding(title).value;
      FoundEndsSo(title);
      if benign(title[e.open + 1..e.close]) {
        CutIsStable(title[..e.start], benign);
      }
    }
  }

  // ----- What can be left -----

  function Inside(s: string, e: Ending): string
    requires EndsSo(s, e)
  {
    s[e.open + 1..e.close]
  }

  /** The text ends in something harmless in brackets. */
  ghost predicate EndsHarmlessly(s: string, benign: string -> bool) {
    exists e: Ending :: EndsSo(s, e) && benign(Inside(s, e))
  }

  /** The ending that the search finds in what Cut returns is not harmless. */
  lemma {:induction false} FoundIsNotBenign(title: string, benign: string -> bool)
    ensures var r := Cut(title, benign);
            FindEnding(r).Some? ==> EndsSo(r, FindEnding(r).value) && !benign(Inside(r, FindEnding(r).value))
    decreases |title|
  {
    hide FindEnding;
    if FindEnding(title).Some? {
      var f := FindEnding(title).value;
      FoundEndsSo(title);
      if benign(title[f.open + 1..f.close]) {
        FoundIsNotBenign(title[..f.start], benign);
      }
    }
  }

  /** All endings of a text close with the same bracket, so another one than the one found opens later. */
  lemma OthersOpenLater(s: string, e: Ending)
    requires EndsSo(s, e)
    ensures FindEnding(s).Some?
    ensures var f := FindEnding(s).value;
            f.close == e.close && f.open <= e.open && (f.open == e.open ==> Inside(s, e) == s[f.open + 1..f.close])
  {
    hide AfterLastClose, OpenFrom, StripRight;
    FindsTheLeftmost(s, e);
    LastIs(s, e.close);
    FirstOpenBound(s, e);
    assert StripRight(s)[..e.close] == s[..e.close];
  }

  /** A bracket that opens inside the ending found, with harmless text from there on. */
  predicate HarmlessWithin(s: string, f: Ending, open: nat, benign: string -> bool) {
    f.open < open && open + 1 < f.close < |s| && IsOpen(s[open]) && benign(s[open + 1..f.close])
  }

  /** What is left ends harmlessly exactly when its leftmost ending, which is not harmless, has a later opening
      bracket in it from which on the text is harmless: only the leftmost one is ever judged. */
  lemma NestedEndingsStay(title: string, benign: string -> bool)
    ensures var r := Cut(title, benign);
            EndsHarmlessly(r, benign) <==>
            FindEnding(r).Some? && !benign(r[FindEnding(r).value.open + 1..FindEnding(r).value.close])
            && exists open: nat :: HarmlessWithin(r, FindEnding(r).value, open, benign)
  {
    hide FindEnding, Cut;
    var r := Cut(title, benign);
    FoundIsNotBenign(title, benign);
    if EndsHarmlessly(r, benign) {
      var e: Ending :| EndsSo(r, e) && benign(Inside(r, e));
      OthersOpenLater(r, e);
      assert HarmlessWithin(r, FindEnding(r).value, e.open, benign);
    }
    if FindEnding(r).Some? {
      forall open: nat | HarmlessWithin(r, FindEnding(r).value, open, benign) ensures EndsHarmlessly(r, benign) {
        var e := Ending(open, open, FindEnding(r).value.close);
        assert EndsSo(r, e) && Inside(r, e) == r[open + 1..FindEnding(r).value.close];
      }
    }
  }

  // ----- The judgement itself -----

  const BENIGN_SUFFIX_TOKENS := {
    "remaster", "remastered", "mono", "stereo", "edit", "radio", "vocal",
    "explicit", "clean", "bonus", "deluxe", "expanded", "anniversary",
    "reissue", "version", "single", "original", "acoustic", "live",
    "session", "sessions", "mix", "album", "remix"}

  predicate IsWordChar(c: char) { 'a' <= c <= 'z' || IsDigit(c) }

  function FirstWord(s: string): (w: string)
    ensures w <= s && (forall i :: 0 <= i < |w| ==> IsWordChar(w[i])) && (|w| < |s| ==> !IsWordChar(s[|w|]))
  {
    if s == "" || !IsWordChar(s[0]) then "" else [s[0]] + FirstWord(s[1..])
  }

  /** The maximal stretches of word characters. */
  function Words(s: string): seq<string>
    decreases |s|
  {
    if s == "" then []
    else if FirstWord(s) == "" then Words(s[1..])
    else [FirstWord(s)] + Words(s[|FirstWord(s)|..])
  }

  predicate IsHarmlessWord(w: string) { w in BENIGN_SUFFIX_TOKENS || forall i :: 0 <= i < |w| ==> IsDigit(w[i]) }

  /** Some words, each of them a number or on the list. */
  predicate IsHarmless(text: string) {
    var words := Words(Lower(text));
    words != [] && forall w :: w in words ==> IsHarmlessWord(w)
  }

  lemma StartsWithWord(s: string, w: string)
    requires w != "" && w <= s && (forall i :: 0 <= i < |w| ==> IsWordChar(w[i])) && (|w| < |s| ==> !IsWordChar(s[|w|]))
    ensures FirstWord(s) == w && Words(s) == [w] + Words(s[|w|..])
  {
    var f := FirstWord(s);
    assert forall i :: 0 <= i < |w| ==> s[i] == w[i];
    assert |f| == |w|;
  }

  lemma LiveIsHarmless()
    ensures IsHarmless("live") && !IsHarmless("b (live")
  {
    assert Lower("live") == "live" && Lower("b (live") == "b (live";
    StartsWithWord("live", "live");
    assert "live"[4..] == "";
    StartsWithWord("b (live", "b");
    OneLetter("b");
  }

  lemma OneLetter(w: string)
    requires |w| == 1 && !IsDigit(w[0])
    ensures !IsHarmlessWord(w)
  {
    hide IsDigit;
    assert forall t :: t in BENIGN_SUFFIX_TOKENS ==> |t| >= 3;
  }

  // ----- A title on which a harmless ending stays -----

  const NESTED := "F (b (live)"

  lemma NestedEndings()
    ensures EndsSo(NESTED, Ending(1, 2, 10)) && Inside(NESTED, Ending(1, 2, 10)) == "b (live"
    ensures EndsSo(NESTED, Ending(4, 5, 10)) && Inside(NESTED, Ending(4, 5, 10)) == "live"
  {
    assert NESTED[3..10] == "b (live" && NESTED[6..10] == "live";
  }

  lemma NestedIsFound()
    ensures FindEnding(NESTED) == Some(Ending(1, 2, 10))
  {
    hide FindEnding;
    NestedEndings();
    FindsTheLeftmost(NESTED, Ending(1, 2, 10));
    OthersOpenLater(NESTED, Ending(1, 2, 10));
    FoundEndsSo(NESTED);
    var f := FindEnding(NESTED).value;
    assert f.start < f.open ==> NESTED[f.start..f.open][0] == NESTED[f.start];
  }

  /** Harmless endings do stay: here the inner brackets are never looked at. */
  lemma NestedEndingStays()
    ensures Cut(NESTED, IsHarmless) == NESTED && EndsHarmlessly(NESTED, IsHarmless)
  {
    hide FindEnding, EndsSo, IsHarmless;
    LiveIsHarmless();
    NestedEndings();
    NestedIsFound();
    assert NESTED[3..10] == Inside(NESTED, Ending(1, 2, 10));
  }

  /** But not where brackets are closed before others open: between any two opening brackets of the title is a
      closing one. */
  ghost predicate ClosesBeforeOpening(s: string) {
    forall i, j :: 0 <= i < j < |s| && IsOpen(s[i]) && IsOpen(s[j]) ==> exists k :: i < k < j && IsClose(s[k])
  }

  lemma NothingHarmlessStays(title: string, benign: string -> bool)
    requires ClosesBeforeOpening(title)
    ensures !EndsHarmlessly(Cut(title, benign), benign)
  {
    hide FindEnding, Cut;
    var r := Cut(title, benign);
    NestedEndingsStay(title, benign);
    FoundIsNotBenign(title, benign);
    if FindEnding(r).Some? {
      var f := FindEnding(r).value;
      assert forall k :: 0 <= k < |r| ==> r[k] == title[k];
      forall open: nat ensures !HarmlessWithin(r, f, open, benign) {
        assert f.open < open < |r| && IsOpen(r[open]) ==> IsOpen(title[f.open]) && IsOpen(title[open]);
      }
    }
  }

  /** The stripped title ends harmlessly exactly when it was nothing but harmless endings, and is returned as
      it was, or when what is left does. */
  lemma StrippedEndsHarmlesslyExactly(title: string, benign: string -> bool)
    ensures EndsHarmlessly(Stripped(title, benign), benign) <==>
            (title != "" && Cut(title, benign) == "") || EndsHarmlessly(Cut(title, benign), benign)
  {
    if title != "" && Cut(title, benign) == "" {
      FoundEndsSo(title);
      assert EndsSo(title, FindEnding(title).value) && benign(Inside(title, FindEnding(title).value));
    }
  }
}
