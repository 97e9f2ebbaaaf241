/** What the reasons, the score and the gates of a match say about the fields of the scrobble and the track. */
module ScrobbleEvidence {
  import opened ScrobbleMatcher
  import opened ScrobbleScan
  import opened ScrobbleTheorems
  import opened Wrappers
  import Text

  // ----- Titles -----

  predicate StartsWithArticle(title: string) { "the " <= title || "a " <= title || "an " <= title }

  predicate IsWithout(title: string, article: string, rest: string) {
    article <= title && rest == Text.Strip(title[|article|..])
  }

  /** The second title is the first one, or what is left of it after one article. */
  predicate AtMostOneArticleOff(title: string, shorter: string) {
    || shorter == title
    || IsWithout(title, "the ", shorter) || IsWithout(title, "a ", shorter) || IsWithout(title, "an ", shorter)
  }

  /** Taking at most one article off each title leaves the same words. */
  ghost predicate TitlesAgree(a: string, b: string) {
    exists common :: common != "" && AtMostOneArticleOff(a, common) && AtMostOneArticleOff(b, common)
  }

  lemma OneArticleOff(title: string, shorter: string)
    ensures AtMostOneArticleOff(title, shorter) <==> shorter == title || shorter == StripArticle(title)
    ensures !StartsWithArticle(title) ==> StripArticle(title) == title
  {
    hide Text.Strip;
    assert "the "[0] == 't' && "a "[1] == ' ' && "an "[1] == 'n' && "a "[0] == 'a' && "an "[0] == 'a';
  }

  /** Titles count as equal exactly when both are there and agree but for one article each. */
  lemma TitlesEqualExactly(s: Scrobble, c: Candidate)
    ensures TitlesEqual(s, c) <==> s.title != "" && c.title != "" && TitlesAgree(s.title, c.title)
  {
    hide AtMostOneArticleOff, StripArticle;
    forall shorter
      ensures AtMostOneArticleOff(s.title, shorter) <==> shorter == s.title || shorter == StripArticle(s.title)
      ensures AtMostOneArticleOff(c.title, shorter) <==> shorter == c.title || shorter == StripArticle(c.title)
    {
      OneArticleOff(s.title, shorter);
      OneArticleOff(c.title, shorter);
    }
    if TitlesEqual(s, c) {
      var common :| common in [s.title, c.title, StripArticle(s.title)] && common != ""
                    && AtMostOneArticleOff(s.title, common) && AtMostOneArticleOff(c.title, common);
    }
  }

  /** Without articles, that is plain equality. */
  lemma PlainTitles(s: Scrobble, c: Candidate)
    requires !StartsWithArticle(s.title) && !StartsWithArticle(c.title)
    ensures TitlesEqual(s, c) <==> s.title != "" && s.title == c.title
  {
    OneArticleOff(s.title, s.title);
    OneArticleOff(c.title, c.title);
  }

  /** The titles are close as wholes, and either an identifier names the recording or the parts outside
      brackets do not name different songs. */
  predicate TitlesSimilar(ctx: Context, c: Candidate) {
    var s, sim := ctx.scrobble, ctx.sim;
    var x, y := sim.baseTitle(s.rawTitle), sim.baseTitle(c.rawTitle);
    && s.title != "" && c.title != "" && sim.tokenSet(s.title, c.title) >= 80.0
    && ((s.trackMbid != "" && s.trackMbid == c.trackMbid) || (x != "" && y != "" ==> sim.ratio(x, y) >= 85.0))
  }

  // ----- Artists -----

  /** Some name is one of the scrobble's artists and one of the track's. */
  predicate SharesArtist(s: Scrobble, c: Candidate) {
    && s.artist != ""
    && exists name :: name in [s.artist] + s.artistParts && name in [c.artist] + c.artistNames
  }

  lemma SharesArtistExactly(s: Scrobble, c: Candidate)
    ensures ArtistMatches(s, c) <==> SharesArtist(s, c)
  {
    var ours, theirs := [s.artist] + s.artistParts, [c.artist] + c.artistNames;
    assert ours[0] == s.artist && theirs[0] == c.artist;
    assert forall name :: name in ours <==> name == s.artist || name in s.artistParts;
    assert forall name :: name in theirs <==> name == c.artist || name in c.artistNames;
    if s.artist in theirs {
      assert s.artist in ours;
    } else if p :| p in s.artistParts && p in theirs {
      assert p in ours;
    }
  }

  // ----- Reasons -----

  predicate BothAndEqual(a: string, b: string) { a == b != "" }

  /** What a reason says about the two records; the penalty for a title that does not match is about the
      score. */
  ghost predicate Says(r: Reason, ctx: Context, c: Candidate) {
    var s := ctx.scrobble;
    var exact := s.title != "" && c.title != "" && TitlesAgree(s.title, c.title);
    var fuzzy := !exact && TitlesSimilar(ctx, c);
    match r
    case TrackMbid => BothAndEqual(s.trackMbid, c.trackMbid)
    case ArtistMbid => BothAndEqual(s.artistMbid, c.artistMbid)
    case AlbumReleaseMbid => BothAndEqual(s.albumMbid, c.releaseMbid)
    case ArtistName => SharesArtist(s, c)
    case TrackName => exact
    case AlbumName => BothAndEqual(s.album, c.album)
    case AlbumMbidNameMismatch =>
      BothAndEqual(s.albumMbid, c.releaseMbid) && "" !in {s.album, c.album} && s.album != c.album
    case AlbumArtistVarious => c.albumArtist in {"various artists", "various", "va"}
    case AlbumArtistMatch =>
      c.albumArtist !in {"", "various artists", "various", "va"} && c.albumArtist in {s.artist, c.artist}
    case AlbumArtistMismatch => c.albumArtist !in {"", "various artists", "various", "va", s.artist, c.artist}
    case ReleasePreferred => c.releaseType in {"album", "single", "ep"}
    case ReleaseDeprioritized => c.releaseType in {"compilation", "live", "remix", "soundtrack", "dj-mix", "mix"}
    case FuzzyTitle => fuzzy
    case TitleMismatchPenalty => !exact && !fuzzy && Total(ctx.Scored(c).reasons) > 60
    case MbidTitleMismatch => !exact && !fuzzy && BothAndEqual(s.trackMbid, c.trackMbid)
  }

  /** What a reason is worth, in hundredths. */
  function Worth(r: Reason): int {
    match r
    case TrackMbid => 100
    case ArtistMbid => 50
    case AlbumReleaseMbid => 40
    case ArtistName => 50
    case TrackName => 50
    case AlbumName => 50
    case AlbumMbidNameMismatch => -25
    case AlbumArtistVarious => -40
    case AlbumArtistMatch => 30
    case AlbumArtistMismatch => -10
    case ReleasePreferred => 15
    case ReleaseDeprioritized => -25
    case _ => 0
  }

  function Total(reasons: seq<Reason>): int { if reasons == [] then 0 else Worth(reasons[0]) + Total(reasons[1..]) }

  lemma {:induction false} TotalAppend(a: seq<Reason>, b: seq<Reason>)
    ensures Total(a + b) == Total(a) + Total(b)
  {
    if a == [] {
      assert a + b == b;
    } else {
      assert (a + b)[1..] == a[1..] + b;
      TotalAppend(a[1..], b);
    }
  }

  lemma TotalOpt(holds: bool, r: Reason)
    ensures Total(Opt(holds, r)) == if holds then Worth(r) else 0
  {
    assert [r][1..] == [];
  }

  lemma IdentifiersTotal(e: Evidence)
    ensures Total(IdentifierReasons(e)) ==
            5 * (Weight(e.trackMbid, 20) + Weight(e.artistMbid, 10) + Weight(e.releaseMbid, 8))
  {
    TotalOpt(e.trackMbid, TrackMbid);
    TotalOpt(e.artistMbid, ArtistMbid);
    TotalOpt(e.releaseMbid, AlbumReleaseMbid);
    hide Opt, Total;
    var first, second := Opt(e.trackMbid, TrackMbid), Opt(e.artistMbid, ArtistMbid);
    TotalAppend(first, second);
    TotalAppend(first + second, Opt(e.releaseMbid, AlbumReleaseMbid));
  }

  lemma NamesTotal(e: Evidence)
    ensures Total(NameReasons(e)) ==
            5 * (Weight(e.artistName, 10) + Weight(e.exactTitle, 10) + Weight(e.albumName, 10)
                 + Weight(e.albumMismatch, -5))
  {
    TotalOpt(e.artistName, ArtistName);
    TotalOpt(e.exactTitle, TrackName);
    TotalOpt(e.albumName, AlbumName);
    TotalOpt(e.albumMismatch, AlbumMbidNameMismatch);
    hide Opt, Total;
    var artist, title := Opt(e.artistName, ArtistName), Opt(e.exactTitle, TrackName);
    var album := Opt(e.albumName, AlbumName);
    TotalAppend(artist, title);
    TotalAppend(artist + title, album);
    TotalAppend(artist + title + album, Opt(e.albumMismatch, AlbumMbidNameMismatch));
  }

  lemma RelationsTotal(e: Evidence)
    ensures Total(AlbumArtistReason(e.albumArtist) + ReleaseReason(e.releaseType)) ==
            5 * (AlbumArtistWeight(e.albumArtist) + ReleaseWeight(e.releaseType))
  {
    TotalAppend(AlbumArtistReason(e.albumArtist), ReleaseReason(e.releaseType));
    forall r: Reason ensures Total([r]) == Worth(r) { TotalOpt(true, r); }
  }

  /** The additive part of the score is what the reasons are worth together. */
  lemma RawIsTotal(e: Evidence)
    ensures Total(Reasons(e)) == 5 * RawScore(e)
  {
    IdentifiersTotal(e);
    NamesTotal(e);
    RelationsTotal(e);
    var fuzzy := Opt(e.fuzzyTitle && !e.exactTitle, FuzzyTitle);
    var capped := Opt(!e.TitleMatch() && RawScore(e) > 12, TitleMismatchPenalty);
    var refuted := Opt(!e.TitleMatch() && e.trackMbid, MbidTitleMismatch);
    TotalOpt(e.fuzzyTitle && !e.exactTitle, FuzzyTitle);
    TotalOpt(!e.TitleMatch() && RawScore(e) > 12, TitleMismatchPenalty);
    TotalOpt(!e.TitleMatch() && e.trackMbid, MbidTitleMismatch);
    hide Opt, Total, IdentifierReasons, NameReasons, AlbumArtistReason, ReleaseReason;
    var ids, names := IdentifierReasons(e), NameReasons(e);
    var relations := AlbumArtistReason(e.albumArtist) + ReleaseReason(e.releaseType);
    TotalAppend(ids, names);
    TotalAppend(ids + names, relations);
    TotalAppend(MetadataReasons(e), fuzzy);
    TotalAppend(MetadataReasons(e) + fuzzy, capped);
    TotalAppend(MetadataReasons(e) + fuzzy + capped, refuted);
  }

  lemma IdentifierFields(ctx: Context, c: Candidate)
    ensures var s, e := ctx.scrobble, ctx.Evidence(c);
            && (e.trackMbid <==> BothAndEqual(s.trackMbid, c.trackMbid))
            && (e.artistMbid <==> BothAndEqual(s.artistMbid, c.artistMbid))
            && (e.releaseMbid <==> BothAndEqual(s.albumMbid, c.releaseMbid))
            && (e.albumMismatch <==>
                  BothAndEqual(s.albumMbid, c.releaseMbid) && "" !in {s.album, c.album} && s.album != c.album)
  {
    hide TitlesEqual, ArtistMatches, BaseTitlesCompatible;
  }

  lemma RelationFields(ctx: Context, c: Candidate)
    ensures var s, e := ctx.scrobble, ctx.Evidence(c);
            && e.albumArtist == AlbumArtistRelation(s, c) && e.releaseType == ReleaseTypeOf(c.releaseType)
  {
    hide TitlesEqual, ArtistMatches, BaseTitlesCompatible;
  }

  /** The evidence, field by field. */
  lemma EvidenceFields(ctx: Context, c: Candidate)
    ensures var s, e := ctx.scrobble, ctx.Evidence(c);
            && (e.exactTitle <==> s.title != "" && c.title != "" && TitlesAgree(s.title, c.title))
            && (e.fuzzyTitle <==> !e.exactTitle && TitlesSimilar(ctx, c))
            && (e.artistName <==> SharesArtist(s, c)) && (e.albumName <==> BothAndEqual(s.album, c.album))
  {
    TitlesEqualExactly(ctx.scrobble, c);
    SharesArtistExactly(ctx.scrobble, c);
    hide TitlesEqual, TitlesAgree, ArtistMatches, SharesArtist;
  }

  /** The listed reasons are exactly the ones that are true of the two records. */
  lemma ReasonsAreTrue(ctx: Context, c: Candidate, r: Reason)
    ensures r in ctx.Scored(c).reasons <==> Says(r, ctx, c)
  {
    var e := ctx.Evidence(c);
    RawIsTotal(e);
    EvidenceFields(ctx, c);
    IdentifierFields(ctx, c);
    RelationFields(ctx, c);
    ReasonsApply(e, r);
    hide Reasons, RawScore, EvidenceFor, TitlesAgree, TitlesSimilar, SharesArtist, Total, BothAndEqual;
  }

  /** The score can be told from the reasons alone: their sum within bounds, 0.95 at most for a fuzzy title,
      and 0.6 for a title that does not match and would score more or contradicts the identifier. */
  lemma ReasonsAccountForTheScore(ctx: Context, c: Candidate)
    ensures var sc := ctx.Scored(c);
            var total := Total(sc.reasons);
            var bounded := if total < 0 then 0 else if total > 100 then 100 else total;
            5 * sc.score ==
            if MbidTitleMismatch in sc.reasons || TitleMismatchPenalty in sc.reasons then 60
            else if FuzzyTitle in sc.reasons && bounded > 95 then 95
            else bounded
  {
    var e := ctx.Evidence(c);
    RawIsTotal(e);
    ReasonsApply(e, MbidTitleMismatch);
    ReasonsApply(e, TitleMismatchPenalty);
    ReasonsApply(e, FuzzyTitle);
    hide Reasons, RawScore, Total, EvidenceFor;
  }

  // ----- Gates -----

  /** A candidate gets past the gates exactly when the titles agree, or are similar and score 0.85 (0.9 from
      50 scrobbles of the artist on), and one of four grounds is there: the recording's identifier; the
      artist's and release's identifiers at 0.7; artist and album names at 0.7; or the artist's name at 0.8. */
  lemma AcceptedExactly(ctx: Context, c: Candidate)
    ensures var s, score := ctx.scrobble, ctx.Scored(c).score;
            var exact := s.title != "" && c.title != "" && TitlesAgree(s.title, c.title);
            Passes(ctx.Scored(c), ctx.artistCount) <==>
              && (exact || (TitlesSimilar(ctx, c) && score >= if ctx.artistCount >= 50 then 18 else 17))
              && (|| BothAndEqual(s.trackMbid, c.trackMbid)
                  || (BothAndEqual(s.artistMbid, c.artistMbid) && BothAndEqual(s.albumMbid, c.releaseMbid)
                      && score >= 14)
                  || (SharesArtist(s, c) && BothAndEqual(s.album, c.album) && score >= 14)
                  || (SharesArtist(s, c) && score >= 16))
  {
    EvidenceFields(ctx, c);
    ScoredTells(ctx.Evidence(c));
    hide Reasons, Score, Classify, TitlesAgree, TitlesSimilar, SharesArtist, ArtistMatches, TitlesEqual;
  }

  /** Compilations by various artists drop out exactly when some candidate has the scrobble's very title and
      its artist, as the track's or the album's, and is not on one itself. */
  lemma EligibleExactly(ctx: Context, cs: seq<Candidate>, c: Candidate)
    ensures var s, various := ctx.scrobble, {"various artists", "various", "va"};
            Eligible(ctx, cs, c) <==>
              && Passes(ctx.Scored(c), ctx.artistCount)
              && (c.albumArtistName in various ==>
                    forall d :: d in cs && d.albumArtist !in various ==>
                      s.title == "" || s.title != d.title || s.artist == "" || s.artist !in {d.artist, d.albumArtist})
  {
    hide Passes;
  }

  /** What a result says of the track it names. */
  ghost predicate Justified(ctx: Context, threshold: int, c: Candidate, m: Match) {
    var s := ctx.scrobble;
    && m.id == c.id
    && s.title != "" && c.title != ""
    && match m
       case Primary(_, _, _, _) =>
         if StartsWithArticle(s.title) || StartsWithArticle(c.title) then
           TitlesAgree(s.title, c.title) || TitlesSimilar(ctx, c)
         else s.title == c.title || TitlesSimilar(ctx, c)
       case FuzzyOnly(_, similarity) =>
         && threshold <= similarity && similarity as real <= ctx.sim.ratio(s.title, c.title)
         && BaseTitlesCompatible(ctx.sim, s.rawTitle, c.rawTitle)
  }

  lemma PrimaryIsJustified(ctx: Context, threshold: int, c: Candidate)
    requires Passes(ctx.Scored(c), ctx.artistCount)
    ensures Justified(ctx, threshold, c, PrimaryMatch(ctx, c))
  {
    hide Passes, ScoredFor, EvidenceFor, TitlesAgree, BaseTitlesCompatible, StripArticle, TitlesEqual;
    AcceptedExactly(ctx, c);
    TitlesEqualExactly(ctx.scrobble, c);
    if !StartsWithArticle(ctx.scrobble.title) && !StartsWithArticle(c.title) {
      PlainTitles(ctx.scrobble, c);
    }
  }

  lemma SimilarIsJustified(ctx: Context, threshold: int, c: Candidate)
    requires FuzzyEligible(ctx, threshold, c) && ctx.scrobble.title != ""
    ensures Justified(ctx, threshold, c, FuzzyOnly(c.id, Similarity100(ctx, c)))
  {
    hide BaseTitlesCompatible;
  }

  /** Whatever the matcher returns is one of the tracks, and its title is the scrobble's or like it. */
  lemma MatchIsJustified(ctx: Context, cs: seq<Candidate>, fuzzy: bool, threshold: int, result: Option<Match>)
    requires IsMatch(ctx, cs, fuzzy, threshold, result) && result.Some?
    ensures exists c :: c in cs && Justified(ctx, threshold, c, result.value)
  {
    hide Eligible, FuzzyEligible, Better, PrimaryMatch, Similarity100, Justified, Passes;
    if i :| IsFirstBest(ctx, cs, i) && result == Some(PrimaryMatch(ctx, cs[i])) {
      PrimaryPasses(ctx, cs, cs[i]);
      PrimaryIsJustified(ctx, threshold, cs[i]);
      assert cs[i] in cs;
    } else {
      var i :| IsFirstMostSimilar(ctx, cs, threshold, i)
               && result == Some(FuzzyOnly(cs[i].id, Similarity100(ctx, cs[i])));
      SimilarIsJustified(ctx, threshold, cs[i]);
      assert cs[i] in cs;
    }
  }

  lemma PrimaryPasses(ctx: Context, cs: seq<Candidate>, c: Candidate)
    requires Eligible(ctx, cs, c)
    ensures Passes(ctx.Scored(c), ctx.artistCount)
  {
    hide Passes;
  }

  // ----- The winner -----

  /** The first difference decides. */
  predicate LexGreater(a: seq<int>, b: seq<int>) {
    exists p :: 0 <= p < |a| && p < |b| && a[..p] == b[..p] && a[p] > b[p]
  }

  /** How a candidate stands, told from its score and reasons: score, exact title, strongest ground, album
      artist, release type. */
  function Standing(sc: Scored): seq<int> {
    [sc.score, if TrackName in sc.reasons then 1 else 0,
     Ground(sc.reasons), AlbumArtistStanding(sc.reasons), ReleaseStanding(sc.reasons)]
  }

  function Ground(reasons: seq<Reason>): int {
    if TrackMbid in reasons then 3
    else if ArtistMbid in reasons && AlbumReleaseMbid in reasons then 2
    else if AlbumName in reasons then 1
    else 0
  }

  function AlbumArtistStanding(reasons: seq<Reason>): int {
    if AlbumArtistMatch in reasons then 1
    else if AlbumArtistVarious in reasons || AlbumArtistMismatch in reasons then -1
    else 0
  }

  function ReleaseStanding(reasons: seq<Reason>): int {
    if ReleasePreferred in reasons then 1 else if ReleaseDeprioritized in reasons then -1 else 0
  }

  lemma LexOfFive(x: seq<int>, y: seq<int>)
    requires |x| == |y| == 5
    ensures LexGreater(x, y) <==>
            || x[0] > y[0]
            || (x[0] == y[0] && (x[1] > y[1]
                || (x[1] == y[1] && (x[2] > y[2]
                    || (x[2] == y[2] && (x[3] > y[3] || (x[3] == y[3] && x[4] > y[4])))))))
  {
    forall p | 0 <= p < 5 ensures x[..p] == y[..p] <==> forall q :: 0 <= q < p ==> x[q] == y[q] {
      assert x[..p] == y[..p] ==> forall q :: 0 <= q < p ==> x[q] == x[..p][q] == y[..p][q] == y[q];
    }
    assert LexGreater(x, y) <==> exists p :: 0 <= p < 5 && x[p] > y[p] && forall q :: 0 <= q < p ==> x[q] == y[q];
  }

  lemma BetterIsLexicographic(a: Rank, b: Rank)
    ensures Better(a, b) <==>
            LexGreater([a.score, if a.exact then 1 else 0, a.methodRank, a.aa, a.rt],
                       [b.score, if b.exact then 1 else 0, b.methodRank, b.aa, b.rt])
  {
    LexOfFive([a.score, if a.exact then 1 else 0, a.methodRank, a.aa, a.rt],
              [b.score, if b.exact then 1 else 0, b.methodRank, b.aa, b.rt]);
    hide LexGreater;
  }

  lemma AlbumArtistShows(e: Evidence)
    requires !(e.exactTitle && e.fuzzyTitle)
    ensures AlbumArtistStanding(Reasons(e)) == AlbumArtistRank(e.albumArtist)
  {
    ReasonsApply(e, AlbumArtistMatch);
    ReasonsApply(e, AlbumArtistVarious);
    ReasonsApply(e, AlbumArtistMismatch);
    hide Reasons, RawScore;
  }

  lemma ReleaseShows(e: Evidence)
    requires !(e.exactTitle && e.fuzzyTitle)
    ensures ReleaseStanding(Reasons(e)) == ReleaseRank(e.releaseType)
  {
    ReasonsApply(e, ReleasePreferred);
    ReasonsApply(e, ReleaseDeprioritized);
    hide Reasons, RawScore;
  }

  lemma GroundShows(e: Evidence)
    requires !(e.exactTitle && e.fuzzyTitle) && !MethodOf(e).NamePartial?
    ensures Ground(Reasons(e)) == MethodRank(MethodOf(e))
  {
    ReasonsApply(e, TrackMbid);
    ReasonsApply(e, ArtistMbid);
    ReasonsApply(e, AlbumReleaseMbid);
    ReasonsApply(e, AlbumName);
    hide Reasons, RawScore;
  }

  lemma StandingIsRank(ctx: Context, c: Candidate)
    requires Passes(ctx.Scored(c), ctx.artistCount)
    ensures var r := ctx.Rank(c);
            Standing(ctx.Scored(c)) == [r.score, if r.exact then 1 else 0, r.methodRank, r.aa, r.rt]
  {
    var e := ctx.Evidence(c);
    ScoredTells(e);
    AlbumArtistShows(e);
    ReleaseShows(e);
    hide Reasons, EvidenceFor, Score, RawScore, MethodOf, Classify, AlbumArtistStanding, ReleaseStanding, Ground;
    GroundShows(e);
  }

  /** The match stands above every eligible candidate before it, and no lower than any after it. */
  lemma WinnerStandsHighest(ctx: Context, cs: seq<Candidate>, i: int, k: int)
    requires IsFirstBest(ctx, cs, i) && 0 <= k < |cs| && Eligible(ctx, cs, cs[k])
    ensures k < i ==> LexGreater(Standing(ctx.Scored(cs[i])), Standing(ctx.Scored(cs[k])))
    ensures !LexGreater(Standing(ctx.Scored(cs[k])), Standing(ctx.Scored(cs[i])))
  {
    StandingIsRank(ctx, cs[i]);
    StandingIsRank(ctx, cs[k]);
    BetterIsLexicographic(ctx.Rank(cs[i]), ctx.Rank(cs[k]));
    BetterIsLexicographic(ctx.Rank(cs[k]), ctx.Rank(cs[i]));
    hide Standing, LexGreater, Better, EvidenceFor, ScoredFor, RankOf;
  }
}
