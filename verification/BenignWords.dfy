/** Which bracketed text is harmless, in terms of its characters. */
module BenignWords {
  import opened BenignSuffix
  import opened Text

  /** s[i..j] is a stretch of word characters that goes no further either way. */
  predicate IsStretch(s: string, i: int, j: int) {
    && 0 <= i < j <= |s| && (forall k :: i <= k < j ==> IsWordChar(s[k]))
    && (i > 0 ==> !IsWordChar(s[i - 1])) && (j < |s| ==> !IsWordChar(s[j]))
  }

  predicate HasStretch(s: string, w: string) {
    exists i, j :: 0 <= i < j <= |s| && IsStretch(s, i, j) && s[i..j] == w
  }

  /** From a place that no stretch runs across, the stretches are those of the rest. */
  lemma StretchLater(s: string, n: nat, i: nat, j: int)
    requires 0 < n <= |s| && (n == |s| || !IsWordChar(s[n - 1]) || !IsWordChar(s[n]))
    ensures IsStretch(s[n..], i, j) <==> IsStretch(s, n + i, n + j)
    ensures IsStretch(s[n..], i, j) ==> s[n..][i..j] == s[n + i..n + j]
  {
    hide IsWordChar;
    var rest := s[n..];
    assert forall k :: 0 <= k < |rest| ==> rest[k] == s[n + k];
    if IsStretch(rest, i, j) {
      forall k | n + i <= k < n + j ensures IsWordChar(s[k]) {
        assert IsWordChar(rest[k - n]);
      }
    }
  }

  /** The first stretch, if the text starts with one; no other starts before its end. */
  lemma FirstStretch(s: string, i: int, j: int)
    requires s != "" && IsWordChar(s[0])
    ensures FirstWord(s) != "" && IsStretch(s, 0, |FirstWord(s)|) && s[0..|FirstWord(s)|] == FirstWord(s)
    ensures IsStretch(s, i, j) ==> (i == 0 && j == |FirstWord(s)|) || i > |FirstWord(s)|
  {
    hide IsWordChar;
    var w := FirstWord(s);
    assert forall k :: 0 <= k < |w| ==> s[k] == w[k];
    if IsStretch(s, i, j) {
      assert i == 0 ==> j <= |w|;
    }
  }

  lemma FirstWordIsMore(s: string, w: string)
    requires s != "" && IsWordChar(s[0]) && w == FirstWord(s)
    ensures Words(s) == [w] + Words(s[|w|..])
  {
    assert FirstWord(s) != "";
  }

  /** The words are exactly the maximal stretches of word characters. */
  lemma {:induction false} WordsAreStretches(s: string, w: string)
    ensures w in Words(s) <==> HasStretch(s, w)
    decreases |s|
  {
    if s == "" {
    } else if !IsWordChar(s[0]) {
      hide IsWordChar;
      WordsAreStretches(s[1..], w);
      StretchesFrom(s, 1, w);
      assert forall i, j :: IsStretch(s, i, j) ==> i >= 1;
    } else {
      var first := FirstWord(s);
      FirstWordIsMore(s, first);
      FirstStretch(s, 0, 0);
      hide IsWordChar, Words;
      WordsAreStretches(s[|first|..], w);
      StretchesFrom(s, |first|, w);
      hide IsStretch;
      forall i, j | IsStretch(s, i, j) ensures (i == 0 && j == |first|) || i > |first| {
        FirstStretch(s, i, j);
      }
    }
  }

  lemma StretchesFrom(s: string, n: nat, w: string)
    requires 0 < n <= |s| && (n == |s| || !IsWordChar(s[n - 1]) || !IsWordChar(s[n]))
    ensures HasStretch(s[n..], w) <==> exists i, j :: n <= i < j <= |s| && IsStretch(s, i, j) && s[i..j] == w
  {
    hide IsWordChar, IsStretch;
    var rest := s[n..];
    if HasStretch(rest, w) {
      var i, j :| 0 <= i < j <= |rest| && IsStretch(rest, i, j) && rest[i..j] == w;
      StretchLater(s, n, i, j);
      assert IsStretch(s, n + i, n + j) && s[n + i..n + j] == w;
    }
    if i, j :| n <= i < j <= |s| && IsStretch(s, i, j) && s[i..j] == w {
      StretchLater(s, n, i - n, j - n);
      assert IsStretch(rest, i - n, j - n) && rest[i - n..j - n] == w;
    }
  }

  /** Text is harmless exactly when it has a word, and every word of it is harmless: on the list, or made
      of digits. */
  lemma HarmlessExactly(text: string)
    ensures IsHarmless(text) <==>
            && (exists i :: 0 <= i < |text| && IsWordChar(LowerChar(text[i])))
            && forall w :: HasStretch(Lower(text), w) ==> IsHarmlessWord(w)
  {
    var lower := Lower(text);
    forall w ensures w in Words(lower) <==> HasStretch(lower, w) {
      WordsAreStretches(lower, w);
    }
    SomeWord(lower);
    hide HasStretch, Words, Lower, IsHarmlessWord, IsWordChar;
    assert forall i :: 0 <= i < |text| ==> lower[i] == LowerChar(text[i]);
  }

  lemma {:induction false} SomeWord(s: string)
    ensures Words(s) != [] <==> exists i :: 0 <= i < |s| && IsWordChar(s[i])
    decreases |s|
  {
    if s == "" {
    } else if !IsWordChar(s[0]) {
      hide IsWordChar;
      SomeWord(s[1..]);
      assert forall i :: 0 < i < |s| ==> s[i] == s[1..][i - 1];
    } else {
      FirstWordIsMore(s, FirstWord(s));
    }
  }
}
