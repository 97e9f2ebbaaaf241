/** The scan over a scrobble's candidates, and what a match guarantees. */
module ScrobbleScan {
  import opened Wrappers
  import opened ScrobbleMatcher

  datatype Context = Context(sim: Similarity, scrobble: Scrobble, artistCount: nat)
  {
    function Evidence(c: Candidate): (e: Evidence)
      ensures !(e.exactTitle && e.fuzzyTitle)
    {
      EvidenceFor(sim, scrobble, c)
    }

    function Scored(c: Candidate): Scored { ScoredFor(Evidence(c)) }

    function Rank(c: Candidate): Rank { RankOf(Scored(c)) }
  }

  datatype Match =
    | Primary(id: int, score: int, foundBy: Method, reasons: seq<Reason>)
    | FuzzyOnly(id: int, similarity: int)

  // ----- Specification -----

  function Ids(cs: seq<Candidate>): set<int> { set k | 0 <= k < |cs| :: cs[k].id }

  /** The candidates with later repetitions of an id left out. */
  function Dedupe(cs: seq<Candidate>): seq<Candidate> {
    if cs == [] then []
    else
      var before, last := cs[..|cs| - 1], cs[|cs| - 1];
      if last.id in Ids(before) then Dedupe(before) else Dedupe(before) + [last]
  }

  /** A candidate with the scrobble's title and artist whose album is not a various-artists one. */
  predicate TitleRival(s: Scrobble, d: Candidate) {
    && s.title != "" && s.artist != "" && s.title == d.title
    && !IsVarious(d.albumArtist) && (s.artist == d.artist || s.artist == d.albumArtist)
  }

  predicate AlbumRival(s: Scrobble, d: Candidate) {
    && s.title != "" && s.album != "" && s.title == d.title && s.album == d.album
    && !IsVarious(d.albumArtist) && s.artist != "" && (s.artist == d.artist || s.artist == d.albumArtist)
  }

  predicate HasRival(s: Scrobble, cs: seq<Candidate>) { exists d :: d in cs && TitleRival(s, d) }

  /** Various-artists tracks drop out as soon as any rival is among the candidates. */
  predicate Eligible(ctx: Context, cs: seq<Candidate>, c: Candidate) {
    && !(IsVarious(c.albumArtistName) && HasRival(ctx.scrobble, cs))
    && Passes(ctx.Scored(c), ctx.artistCount)
  }

  /** The first of the eligible candidates that no eligible candidate betters. */
  ghost predicate IsFirstBest(ctx: Context, cs: seq<Candidate>, i: int) {
    && 0 <= i < |cs| && Eligible(ctx, cs, cs[i])
    && forall j :: 0 <= j < |cs| && Eligible(ctx, cs, cs[j]) ==>
         !Better(ctx.Rank(cs[j]), ctx.Rank(cs[i])) && (j < i ==> Better(ctx.Rank(cs[i]), ctx.Rank(cs[j])))
  }

  function Similarity100(ctx: Context, c: Candidate): int { ctx.sim.ratio(ctx.scrobble.title, c.title).Floor }

  predicate FuzzyEligible(ctx: Context, threshold: int, c: Candidate) {
    && c.title != "" && Similarity100(ctx, c) >= threshold
    && BaseTitlesCompatible(ctx.sim, ctx.scrobble.rawTitle, c.rawTitle)
  }

  /** The first of the candidates with the greatest whole-title similarity. */
  ghost predicate IsFirstMostSimilar(ctx: Context, cs: seq<Candidate>, threshold: int, i: int) {
    && 0 <= i < |cs| && FuzzyEligible(ctx, threshold, cs[i])
    && forall j :: 0 <= j < |cs| && FuzzyEligible(ctx, threshold, cs[j]) ==>
         Similarity100(ctx, cs[j]) <= Similarity100(ctx, cs[i])
         && (j < i ==> Similarity100(ctx, cs[j]) < Similarity100(ctx, cs[i]))
  }

  // ----- The loops -----

  method DedupeCandidates(cs: seq<Candidate>) returns (uniq: seq<Candidate>)
    ensures uniq == Dedupe(cs)
  {
    var seen: set<int> := {};
    uniq := [];
    for k := 0 to |cs|
      invariant uniq == Dedupe(cs[..k])
      invariant seen == Ids(cs[..k])
    {
      IdsGrow(cs, k);
      assert cs[..k + 1][..k] == cs[..k];
      if cs[k].id in seen {
        continue;
      }
      seen := seen + {cs[k].id};
      uniq := uniq + [cs[k]];
    }
    assert cs[..|cs|] == cs;
  }

  lemma IdsGrow(cs: seq<Candidate>, k: nat)
    requires k < |cs|
    ensures Ids(cs[..k + 1]) == Ids(cs[..k]) + {cs[k].id}
  {
  }

  /** The two flags of the source; the first one ends the loop early. */
  method FindRivals(s: Scrobble, cs: seq<Candidate>) returns (albumMatch: bool, titleMatch: bool)
    ensures albumMatch || titleMatch <==> HasRival(s, cs)
  {
    albumMatch, titleMatch := false, false;
    for k := 0 to |cs|
      invariant !albumMatch
      invariant titleMatch <==> exists j :: 0 <= j < k && TitleRival(s, cs[j])
    {
      if AlbumRival(s, cs[k]) {
        albumMatch := true;
        assert TitleRival(s, cs[k]);
        break;
      }
      if TitleRival(s, cs[k]) {
        titleMatch := true;
      }
    }
  }

  /** With scores on a grid of 0.05, a near tie within 0.01 is an exact tie. One twentieth is five hundredths. */
  lemma NearTieIsTie(a: int, b: int)
    ensures 5 * (if a >= b then a - b else b - a) <= 1 <==> a == b
  {
  }

  /** Comparing by score alone, and what a better candidate inherits from the one it replaces. */
  lemma BetterFacts()
    ensures forall a: Rank, b: Rank :: a.score > b.score ==> Better(a, b)
    ensures forall a: Rank, b: Rank :: a.score < b.score ==> !Better(a, b)
    ensures forall a: Rank :: !Better(a, a)
    ensures forall x: Rank, b: Rank, n: Rank :: !Better(x, b) && Better(n, b) ==> Better(n, x)
    ensures forall a: Rank, b: Rank :: Better(a, b) ==> !Better(b, a)
  {
  }

  /** Skips, scoring and gates for one candidate. */
  method Consider(ctx: Context, cs: seq<Candidate>, c: Candidate, albumMatch: bool, titleMatch: bool)
    returns (scored: Scored, eligible: bool)
    requires albumMatch || titleMatch <==> HasRival(ctx.scrobble, cs)
    ensures eligible <==> Eligible(ctx, cs, c)
    ensures scored == ctx.Scored(c)
  {
    hide HasRival, Passes, ScoredFor, EvidenceFor;
    scored := ScoreCandidate(ctx.Evidence(c));
    if albumMatch && IsVarious(c.albumArtistName) {
      return scored, false;
    }
    if titleMatch && IsVarious(c.albumArtistName) {
      return scored, false;
    }
    eligible := Passes(scored, ctx.artistCount);
  }

  /** The scan with its near-tie rule and its cascade of tie-breaks. */
  method FindBest(ctx: Context, cs: seq<Candidate>) returns (best: Option<nat>)
    ensures best.None? ==> forall j :: 0 <= j < |cs| ==> !Eligible(ctx, cs, cs[j])
    ensures best.Some? ==> IsFirstBest(ctx, cs, best.value)
  {
    hide HasRival, Eligible, ScoredFor, EvidenceFor, Better, Classify;
    var albumMatch, titleMatch := FindRivals(ctx.scrobble, cs);
    BetterFacts();
    best := None;
    var bestScored := ScoredFor(NoEvidence());
    for k := 0 to |cs|
      invariant best.None? ==> forall j :: 0 <= j < k ==> !Eligible(ctx, cs, cs[j])
      invariant best.Some? ==>
        best.value < k && Eligible(ctx, cs, cs[best.value]) && bestScored == ctx.Scored(cs[best.value])
      invariant best.Some? ==> forall j :: 0 <= j < k && Eligible(ctx, cs, cs[j]) ==>
        !Better(ctx.Rank(cs[j]), RankOf(bestScored)) && (j < best.value ==> Better(RankOf(bestScored), ctx.Rank(cs[j])))
    {
      var scored, eligible := Consider(ctx, cs, cs[k], albumMatch, titleMatch);
      if !eligible {
        continue;
      }
      if best.None? || scored.score > bestScored.score {
        best, bestScored := Some(k), scored;
        continue;
      }
      var difference := scored.score - bestScored.score;
      var gap := if difference >= 0 then difference else -difference;
      NearTieIsTie(scored.score, bestScored.score);
      if 5 * gap <= 1 {
        var takes := BreaksTie(scored, bestScored);
        if takes {
          best, bestScored := Some(k), scored;
        }
      }
    }
  }

  function NoEvidence(): Evidence {
    Evidence(false, false, false, false, false, false, false, NoAlbumArtist, Neutral, false)
  }

  /** Exact title first, then method, then album artist, then release type. */
  method BreaksTie(current: Scored, best: Scored) returns (takes: bool)
    requires current.score == best.score
    ensures takes <==> Better(RankOf(current), RankOf(best))
  {
    var currentExact, bestExact := TrackName in current.reasons, TrackName in best.reasons;
    if currentExact != bestExact {
      return currentExact;
    }
    var currentRank, bestRank := MethodRank(Classify(current.reasons)), MethodRank(Classify(best.reasons));
    if currentRank > bestRank {
      return true;
    }
    if currentRank == bestRank {
      if current.aaRank > best.aaRank {
        return true;
      }
      if current.aaRank == best.aaRank && current.rtRank > best.rtRank {
        return true;
      }
    }
    return false;
  }

  method FindMostSimilar(ctx: Context, cs: seq<Candidate>, threshold: int) returns (best: Option<nat>)
    ensures best.None? ==> forall j :: 0 <= j < |cs| ==> !FuzzyEligible(ctx, threshold, cs[j])
    ensures best.Some? ==> IsFirstMostSimilar(ctx, cs, threshold, best.value)
  {
    best := None;
    var bestSimilarity := 0;
    for k := 0 to |cs|
      invariant best.None? ==> forall j :: 0 <= j < k ==> !FuzzyEligible(ctx, threshold, cs[j])
      invariant best.Some? ==>
        best.value < k && FuzzyEligible(ctx, threshold, cs[best.value])
        && bestSimilarity == Similarity100(ctx, cs[best.value])
      invariant best.Some? ==> forall j :: 0 <= j < k && FuzzyEligible(ctx, threshold, cs[j]) ==>
        Similarity100(ctx, cs[j]) <= bestSimilarity && (j < best.value ==> Similarity100(ctx, cs[j]) < bestSimilarity)
    {
      var c := cs[k];
      if c.title == "" {
        continue;
      }
      var similarity := Similarity100(ctx, c);
      if similarity < threshold {
        continue;
      }
      if !BaseTitlesCompatible(ctx.sim, ctx.scrobble.rawTitle, c.rawTitle) {
        continue;
      }
      if best.None? || similarity > bestSimilarity {
        best, bestSimilarity := Some(k), similarity;
      }
    }
  }

  function PrimaryMatch(ctx: Context, c: Candidate): Match {
    Primary(c.id, ctx.Scored(c).score, Classify(ctx.Scored(c).reasons), ctx.Scored(c).reasons)
  }

  /** What the matcher returns: the first best eligible candidate; without one, the most similar title if
      that is allowed; otherwise nothing. */
  ghost predicate IsMatch(ctx: Context, cs: seq<Candidate>, fuzzy: bool, threshold: int, result: Option<Match>) {
    || (exists i :: IsFirstBest(ctx, cs, i) && result == Some(PrimaryMatch(ctx, cs[i])))
    || (&& (forall j :: 0 <= j < |cs| ==> !Eligible(ctx, cs, cs[j]))
        && fuzzy && ctx.scrobble.title != ""
        && exists i :: IsFirstMostSimilar(ctx, cs, threshold, i)
             && result == Some(FuzzyOnly(cs[i].id, Similarity100(ctx, cs[i]))))
    || (&& (forall j :: 0 <= j < |cs| ==> !Eligible(ctx, cs, cs[j]))
        && (fuzzy && ctx.scrobble.title != "" ==> forall j :: 0 <= j < |cs| ==> !FuzzyEligible(ctx, threshold, cs[j]))
        && result == None)
  }

  method MatchScrobble(ctx: Context, candidates: seq<Candidate>, skipped: set<string>, fuzzy: bool, threshold: int)
    returns (result: Option<Match>)
    ensures ctx.scrobble.artist in skipped ==> result == None
    ensures ctx.scrobble.artist !in skipped ==> IsMatch(ctx, Dedupe(candidates), fuzzy, threshold, result)
  {
    hide Eligible, FuzzyEligible, IsFirstBest, IsFirstMostSimilar, Classify, ScoredFor, EvidenceFor;
    if ctx.scrobble.artist in skipped {
      return None;
    }
    if candidates == [] {
      return None;
    }
    var cs := DedupeCandidates(candidates);
    var best := FindBest(ctx, cs);
    if best.None? {
      if fuzzy && ctx.scrobble.title != "" {
        var similar := FindMostSimilar(ctx, cs, threshold);
        if similar.Some? {
          return FuzzyResult(ctx, cs, threshold, similar.value);
        }
      }
      return None;
    }
    BestIsInRange(ctx, cs, best.value);
    var scored := ScoreCandidate(ctx.Evidence(cs[best.value]));
    result := Some(Primary(cs[best.value].id, scored.score, Classify(scored.reasons), scored.reasons));
    assert result == Some(PrimaryMatch(ctx, cs[best.value]));
  }

  lemma BestIsInRange(ctx: Context, cs: seq<Candidate>, i: int)
    requires IsFirstBest(ctx, cs, i)
    ensures 0 <= i < |cs|
  {
  }

  function FuzzyResult(ctx: Context, cs: seq<Candidate>, ghost threshold: int, i: int): Option<Match>
    requires IsFirstMostSimilar(ctx, cs, threshold, i)
  {
    Some(FuzzyOnly(cs[i].id, Similarity100(ctx, cs[i])))
  }
}
