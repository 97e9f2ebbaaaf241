/** What the bracket scan means for a title made of text and properly closed brackets, nested as deep as you
    like. */
module TitleParts {
  import opened Text
  import opened TitleBrackets

  /** Text without brackets, or brackets of either kind, not necessarily alike, around more parts. */
  datatype Part = Plain(text: string) | Group(open: char, inside: seq<Part>, close: char)

  predicate WellFormed(parts: seq<Part>) { forall p :: p in parts ==> PartOk(p) }

  predicate PartOk(p: Part) {
    match p
    case Plain(text) => forall i :: 0 <= i < |text| ==> !IsBracket(text[i])
    case Group(open, inside, close) => IsOpen(open) && IsClose(close) && forall q :: q in inside ==> PartOk(q)
  }

  function Render(parts: seq<Part>): string {
    if parts == [] then "" else RenderPart(parts[0]) + Render(parts[1..])
  }

  function RenderPart(p: Part): string {
    match p
    case Plain(text) => text
    case Group(open, inside, close) => [open] + Render(inside) + [close]
  }

  /** The text outside all brackets, with a blank for each outermost group. */
  function Outside(parts: seq<Part>): string {
    if parts == [] then "" else (if parts[0].Plain? then parts[0].text else " ") + Outside(parts[1..])
  }

  /** The scan's state with some text added where it is. */
  function AddBase(base: string, open: seq<string>, text: string): string { if open == [] then base + text else base }

  function AddOpen(open: seq<string>, text: string): seq<string> {
    if open == [] then [] else open[..|open| - 1] + [open[|open| - 1] + text]
  }

  lemma {:induction false} ScanText(base: string, open: seq<string>, text: string, rest: string)
    requires forall i :: 0 <= i < |text| ==> !IsBracket(text[i])
    ensures Scan(base, open, text + rest) == Scan(AddBase(base, open, text), AddOpen(open, text), rest)
    decreases |text|
  {
    if text == "" {
      assert text + rest == rest;
      AddNothing(base, open);
    } else {
      var c, more := text[0], text[1..];
      assert (text + rest)[1..] == more + rest;
      ScanText(AddBase(base, open, [c]), AddOpen(open, [c]), more, rest);
      assert [c] + more == text;
      AddTwice(base, open, [c], more);
    }
  }

  lemma AddNothing(base: string, open: seq<string>)
    ensures AddBase(base, open, "") == base && AddOpen(open, "") == open
  {
    assert base + "" == base;
    if open != [] {
      var last := open[|open| - 1];
      assert last + "" == last;
      assert open == open[..|open| - 1] + [last];
    }
  }

  lemma AddTwice(base: string, open: seq<string>, a: string, b: string)
    ensures AddBase(AddBase(base, open, a), AddOpen(open, a), b) == AddBase(base, open, a + b)
    ensures AddOpen(AddOpen(open, a), b) == AddOpen(open, a + b)
  {
    assert open == [] ==> base + a + b == base + (a + b);
    if open != [] {
      var last := open[|open| - 1];
      assert last + a + b == last + (a + b);
    }
  }

  /** Closing the innermost bracket drops what was in it. */
  lemma ScanClose(base: string, open: seq<string>, last: string, close: char, rest: string)
    requires IsClose(close)
    ensures Scan(base, open + [last], [close] + rest) == Scan(AddBase(base, open, " "), AddOpen(open, " "), rest)
  {
    assert ([close] + rest)[1..] == rest;
    assert (open + [last])[..|open|] == open;
  }

  lemma {:induction false} ScanPart(base: string, open: seq<string>, p: Part, rest: string)
    requires PartOk(p)
    ensures Scan(base, open, RenderPart(p) + rest) ==
            (var text := if p.Plain? then p.text else " "; Scan(AddBase(base, open, text), AddOpen(open, text), rest))
    decreases p, 0
  {
    match p
    case Plain(text) => ScanText(base, open, text, rest);
    case Group(bracket, inside, close) =>
      var after := [close] + rest;
      assert RenderPart(p) + rest == [bracket] + (Render(inside) + after);
      assert ([bracket] + (Render(inside) + after))[1..] == Render(inside) + after;
      ScanParts(base, open + [[bracket]], inside, after);
      assert AddOpen(open + [[bracket]], Outside(inside)) == open + [[bracket] + Outside(inside)];
      ScanClose(base, open, [bracket] + Outside(inside), close, rest);
  }

  lemma {:induction false} ScanParts(base: string, open: seq<string>, parts: seq<Part>, rest: string)
    requires WellFormed(parts)
    ensures Scan(base, open, Render(parts) + rest) ==
            Scan(AddBase(base, open, Outside(parts)), AddOpen(open, Outside(parts)), rest)
    decreases parts, 1
  {
    if parts == [] {
      assert Render(parts) + rest == rest;
      AddNothing(base, open);
    } else {
      var first, more := parts[0], parts[1..];
      assert Render(parts) + rest == RenderPart(first) + (Render(more) + rest);
      ScanPart(base, open, first, Render(more) + rest);
      var text := if first.Plain? then first.text else " ";
      ScanParts(AddBase(base, open, text), AddOpen(open, text), more, rest);
      AddTwice(base, open, text, Outside(more));
    }
  }

  /** A title with all brackets closed scans to the text outside them, with a blank for each outermost group. */
  lemma ScanLeavesTheOutside(parts: seq<Part>)
    requires WellFormed(parts)
    ensures Scan("", [], Render(parts)) == Outside(parts)
  {
    ScanParts("", [], parts, "");
    assert Render(parts) + "" == Render(parts);
  }

  /** After a bracket that is never closed, the rest stays as it is for the scan, and is dropped with that bracket
      afterwards. */
  lemma UnclosedIsDropped(parts: seq<Part>, bracket: char, tail: string)
    requires WellFormed(parts) && IsOpen(bracket) && forall i :: 0 <= i < |tail| ==> !IsBracket(tail[i])
    ensures DropUnclosed(Scan("", [], Render(parts) + [bracket] + tail)) == StripRight(Outside(parts))
  {
    hide *;
    UnclosedStays(parts, bracket, tail);
    OutsideHasNoBracket(parts);
    DropFromOpen(Outside(parts), bracket, tail);
  }

  lemma DropFromOpen(text: string, bracket: char, tail: string)
    requires IsOpen(bracket) && forall i :: 0 <= i < |text| ==> !IsBracket(text[i])
    ensures DropUnclosed(text + [bracket] + tail) == StripRight(text)
  {
    hide StripRight, FirstOpen, IsOpen;
    var whole := text + [bracket] + tail;
    assert whole == text + ([bracket] + tail);
    FirstOpenIs(whole, |text|);
    assert whole[..|text|] == text;
  }

  lemma FirstOpenIs(s: string, n: nat)
    requires n < |s| && IsOpen(s[n]) && forall i :: 0 <= i < n ==> !IsOpen(s[i])
    ensures FirstOpen(s) == n
  {
    hide FirstOpen;
  }

  lemma UnclosedStays(parts: seq<Part>, bracket: char, tail: string)
    requires WellFormed(parts) && IsOpen(bracket) && forall i :: 0 <= i < |tail| ==> !IsBracket(tail[i])
    ensures Scan("", [], Render(parts) + [bracket] + tail) == Outside(parts) + [bracket] + tail
  {
    hide Scan, Render, Outside;
    var text, rest := Outside(parts), [bracket] + tail;
    assert Render(parts) + [bracket] + tail == Render(parts) + rest;
    ScanParts("", [], parts, rest);
    assert "" + text == text && AddOpen([], text) == [];
    OpenAndTail(text, bracket, tail);
  }

  lemma OpenAndTail(text: string, bracket: char, tail: string)
    requires IsOpen(bracket) && forall i :: 0 <= i < |tail| ==> !IsBracket(tail[i])
    ensures Scan(text, [], [bracket] + tail) == text + [bracket] + tail
  {
    assert ([bracket] + tail)[1..] == tail && tail + "" == tail && [] + [[bracket]] == [[bracket]];
    ScanText(text, [[bracket]], tail, "");
    assert AddOpen([[bracket]], tail) == [[bracket] + tail];
    assert Flat([[bracket] + tail]) == Flat([]) + ([bracket] + tail);
  }

  lemma {:induction false} OutsideHasNoBracket(parts: seq<Part>)
    requires WellFormed(parts)
    ensures forall i :: 0 <= i < |Outside(parts)| ==> !IsBracket(Outside(parts)[i])
  {
    if parts == [] {
    } else {
      OutsideHasNoBracket(parts[1..]);
      var first := if parts[0].Plain? then parts[0].text else " ";
      assert PartOk(parts[0]);
      assert forall i :: 0 <= i < |first| ==> !IsBracket(first[i]);
      assert Outside(parts) == first + Outside(parts[1..]);
    }
  }
}
