/** What holds of every match, whatever the metadata. */
module ScrobbleTheorems {
  import opened Wrappers
  import opened ScrobbleMatcher
  import opened ScrobbleScan

  /** The reasons name the title match and the method's grounds truthfully. */
  lemma ReasonsTell(ctx: Context, c: Candidate)
    ensures var e, reasons := ctx.Evidence(c), ctx.Scored(c).reasons;
            && (TrackName in reasons <==> e.exactTitle) && (FuzzyTitle in reasons <==> e.fuzzyTitle)
            && (TrackMbid in reasons <==> e.trackMbid)
  {
    hide Reasons, EvidenceFor;
    ReasonsApply(ctx.Evidence(c), TrackName);
    ReasonsApply(ctx.Evidence(c), FuzzyTitle);
    ReasonsApply(ctx.Evidence(c), TrackMbid);
  }

  /** A matching track identifier with the exact title is worth at least 0.85: the worst the album, album
      artist and release type can take away is 0.65, and a differing album name counts against it only
      together with a matching release identifier. */
  lemma IdentifiedTitleScore(e: Evidence)
    requires e.trackMbid && e.exactTitle && (e.albumMismatch ==> e.releaseMbid)
    ensures Score(e) >= 17
  {
  }

  /** Every primary match has an exact or a fuzzy title, scores at least 0.7, at least 0.85 if the title is
      fuzzy or the method is the track identifier, and 0.9 for a fuzzy title of a much-played artist. */
  lemma EligibleIsGood(ctx: Context, cs: seq<Candidate>, c: Candidate)
    requires Eligible(ctx, cs, c)
    ensures var e, sc := ctx.Evidence(c), ctx.Scored(c);
            && e.TitleMatch()
            && sc.score >= 14
            && (e.fuzzyTitle || Classify(sc.reasons).MbidTrack? ==> sc.score >= 17)
            && (e.fuzzyTitle && ctx.artistCount >= 50 ==> sc.score >= 18)
            && 0 <= sc.score <= 20 && (e.fuzzyTitle ==> sc.score <= 19)
  {
    hide Reasons, TitlesEqual, ArtistMatches;
    ReasonsTell(ctx, c);
    var e := ctx.Evidence(c);
    if e.trackMbid && e.exactTitle {
      IdentifiedTitleScore(e);
    }
  }

  /** As soon as some eligible candidate has the exact title and the full score, so does the match. */
  lemma PerfectTitleWins(ctx: Context, cs: seq<Candidate>, i: int, k: int)
    requires IsFirstBest(ctx, cs, i)
    requires 0 <= k < |cs| && Eligible(ctx, cs, cs[k])
    requires ctx.Evidence(cs[k]).exactTitle && ctx.Scored(cs[k]).score == 20
    ensures ctx.Evidence(cs[i]).exactTitle && ctx.Scored(cs[i]).score == 20
  {
    hide Eligible, Classify, Score, EvidenceFor, Reasons;
    assert Eligible(ctx, cs, cs[i]) && !Better(ctx.Rank(cs[k]), ctx.Rank(cs[i]));
    EligibleIsGood(ctx, cs, cs[i]);
    ReasonsTell(ctx, cs[i]);
    ReasonsTell(ctx, cs[k]);
  }

  // ----- More evidence never hurts -----

  /** The method, told from the evidence. */
  function MethodOf(e: Evidence): Method {
    if e.trackMbid then MbidTrack
    else if e.artistMbid && e.releaseMbid then MbidArtistRelease
    else if e.artistName && e.TitleMatch() && e.albumName then NameArtistAlbum
    else if e.artistName && e.TitleMatch() then NameArtistTitle
    else NamePartial
  }

  lemma ScoredTells(e: Evidence)
    requires !(e.exactTitle && e.fuzzyTitle)
    ensures var sc := ScoredFor(e);
            && Classify(sc.reasons) == MethodOf(e)
            && (TrackName in sc.reasons <==> e.exactTitle) && (FuzzyTitle in sc.reasons <==> e.fuzzyTitle)
  {
    hide Reasons, RawScore, Score;
    ReasonsApply(e, TrackMbid);
    ReasonsApply(e, ArtistMbid);
    ReasonsApply(e, AlbumReleaseMbid);
    ReasonsApply(e, ArtistName);
    ReasonsApply(e, TrackName);
    ReasonsApply(e, FuzzyTitle);
    ReasonsApply(e, AlbumName);
  }

  /** a has every identifier, name and title match that b has, and no worse an album artist or release type.
      A newly matching release identifier may bring a differing album name to light. */
  predicate AtLeast(a: Evidence, b: Evidence) {
    && (b.trackMbid ==> a.trackMbid) && (b.artistMbid ==> a.artistMbid) && (b.releaseMbid ==> a.releaseMbid)
    && (b.artistName ==> a.artistName) && (b.albumName ==> a.albumName)
    && (b.exactTitle ==> a.exactTitle) && (b.TitleMatch() ==> a.TitleMatch())
    && (a.albumMismatch ==> b.albumMismatch || (a.releaseMbid && !b.releaseMbid))
    && AlbumArtistWeight(a.albumArtist) >= AlbumArtistWeight(b.albumArtist)
    && ReleaseWeight(a.releaseType) >= ReleaseWeight(b.releaseType)
  }

  lemma ScoreIsMonotone(a: Evidence, b: Evidence)
    requires AtLeast(a, b) && b.TitleMatch()
    ensures Score(a) >= Score(b)
  {
  }

  /** A candidate whose title matches is never beaten by one it has all the evidence of, and passes the gates
      if that one does. */
  lemma MoreEvidenceNeverHurts(ctx: Context, c: Candidate, d: Candidate)
    requires AtLeast(ctx.Evidence(c), ctx.Evidence(d)) && ctx.Evidence(d).TitleMatch()
    ensures !Better(ctx.Rank(d), ctx.Rank(c))
    ensures Passes(ctx.Scored(d), ctx.artistCount) ==> Passes(ctx.Scored(c), ctx.artistCount)
  {
    hide EvidenceFor, Classify, Reasons, Score;
    ScoredTells(ctx.Evidence(c));
    ScoredTells(ctx.Evidence(d));
    ScoreIsMonotone(ctx.Evidence(c), ctx.Evidence(d));
  }

  /** The title match is needed: with a track identifier, a title that does not match at all can score more
      than one that matches fuzzily. The fuzzy one scores less exactly when the rest of its evidence takes away
      more than 0.4 of the identifier's 1.0. */
  lemma FuzzyBelowMismatch(a: Evidence, b: Evidence)
    requires a.trackMbid && a.fuzzyTitle && !a.exactTitle && b == a.(fuzzyTitle := false)
    ensures Score(a) < Score(b) <==> RawScore(a) < 12
    ensures exists x: Evidence, y: Evidence ::
              x.trackMbid && x.fuzzyTitle && !x.exactTitle && y == x.(fuzzyTitle := false) && Score(x) < Score(y)
  {
    var x := Evidence(true, false, false, false, false, false, false, VariousArtists, Deprioritized, true);
    assert Score(x) < Score(x.(fuzzyTitle := false));
  }

  lemma BetterIsTotal(a: Rank, b: Rank)
    ensures Better(a, b) || Better(b, a) || a == b
  {
  }

  /** There is at most one first best candidate. */
  lemma FirstBestIsUnique(ctx: Context, cs: seq<Candidate>, i: int, j: int)
    requires IsFirstBest(ctx, cs, i) && IsFirstBest(ctx, cs, j)
    ensures i == j
  {
    hide Eligible, Better;
  }

  lemma MostSimilarIsUnique(ctx: Context, cs: seq<Candidate>, threshold: int, i: int, j: int)
    requires IsFirstMostSimilar(ctx, cs, threshold, i) && IsFirstMostSimilar(ctx, cs, threshold, j)
    ensures i == j
  {
  }

  /** The specification leaves no choice: a scrobble has exactly one result. */
  lemma MatchIsUnique(ctx: Context, cs: seq<Candidate>, fuzzy: bool, threshold: int, a: Option<Match>, b: Option<Match>)
    requires IsMatch(ctx, cs, fuzzy, threshold, a) && IsMatch(ctx, cs, fuzzy, threshold, b)
    ensures a == b
  {
    hide Eligible, FuzzyEligible, Better, PrimaryMatch;
    forall i, j | IsFirstBest(ctx, cs, i) && IsFirstBest(ctx, cs, j) ensures i == j {
      FirstBestIsUnique(ctx, cs, i, j);
    }
    forall i, j | IsFirstMostSimilar(ctx, cs, threshold, i) && IsFirstMostSimilar(ctx, cs, threshold, j)
      ensures i == j
    {
      MostSimilarIsUnique(ctx, cs, threshold, i, j);
    }
  }

  /** The order of the candidates decides nothing but ties: for the same candidates in any other order, the
      match has the same rank, so the same score, title match, method and tie-break ranks. */
  lemma OrderOnlyBreaksTies(ctx: Context, cs: seq<Candidate>, ds: seq<Candidate>, i: int, j: int)
    requires forall c :: c in cs <==> c in ds
    requires IsFirstBest(ctx, cs, i) && IsFirstBest(ctx, ds, j)
    ensures ctx.Rank(cs[i]) == ctx.Rank(ds[j])
  {
    hide Passes, ScoredFor, EvidenceFor;
    assert cs[i] in ds && ds[j] in cs;
    assert Eligible(ctx, ds, cs[i]) && Eligible(ctx, cs, ds[j]);
    BetterIsTotal(ctx.Rank(cs[i]), ctx.Rank(ds[j]));
  }

  lemma IdsAppend(cs: seq<Candidate>, c: Candidate)
    ensures Ids(cs + [c]) == Ids(cs) + {c.id}
  {
    IdsGrow(cs + [c], |cs|);
    assert (cs + [c])[..|cs|] == cs && (cs + [c])[..|cs| + 1] == cs + [c];
  }

  /** Deduplication keeps every id, and each just once. */
  lemma {:induction false} DedupeKeepsIds(cs: seq<Candidate>)
    ensures Ids(Dedupe(cs)) == Ids(cs)
    ensures forall i, j :: 0 <= i < j < |Dedupe(cs)| ==> Dedupe(cs)[i].id != Dedupe(cs)[j].id
  {
    if cs == [] {
    } else {
      var before, last := cs[..|cs| - 1], cs[|cs| - 1];
      var kept := Dedupe(before);
      DedupeKeepsIds(before);
      IdsAppend(before, last);
      assert before + [last] == cs;
      if last.id !in Ids(before) {
        IdsAppend(kept, last);
        assert forall i :: 0 <= i < |kept| ==> kept[i].id in Ids(kept);
      }
    }
  }

  /** What it keeps for an id is the first record with that id. */
  lemma {:induction false} DedupeKeepsFirsts(cs: seq<Candidate>, c: Candidate)
    ensures c in Dedupe(cs) <==> exists k :: 0 <= k < |cs| && cs[k] == c && c.id !in Ids(cs[..k])
  {
    hide Ids;
    if cs == [] {
    } else {
      var n := |cs| - 1;
      DedupeKeepsFirsts(cs[..n], c);
      assert forall k :: 0 <= k < n ==> cs[..n][k] == cs[k] && cs[..n][..k] == cs[..k];
    }
  }
}
