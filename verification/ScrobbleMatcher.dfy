/** Matching one scrobble to a library track: scoring, the acceptance gates, and the scan for the best.

    Scores are counted in twentieths: every weight and threshold is a multiple of 0.05. Names and titles
    come normalized; the string similarities are whatever the fuzzy-matching library makes them. */
module ScrobbleMatcher {
  import Text

  /** Normalized fields of a scrobble; an absent value is the empty string. */
  datatype Scrobble = Scrobble(
    trackMbid: string, artistMbid: string, albumMbid: string,
    artist: string, title: string, album: string,
    artistParts: seq<string>, rawTitle: string)

  /** Normalized fields of a library track. The album artist is normalized both as an artist, for scoring,
      and as a plain name, for leaving compilations out. */
  datatype Candidate = Candidate(
    id: int,
    trackMbid: string, artistMbid: string, releaseMbid: string,
    artist: string, title: string, album: string,
    albumArtist: string, albumArtistName: string,
    artistNames: seq<string>, releaseType: string, rawTitle: string)

  /** The library's similarity ratios, from 0 to 100, and the normalized title outside brackets. */
  datatype Similarity = Similarity(
    tokenSet: (string, string) -> real,
    ratio: (string, string) -> real,
    baseTitle: string -> string)

  function StripArticle(value: string): string {
    if "the " <= value then Text.Strip(value[4..])
    else if "a " <= value then Text.Strip(value[2..])
    else if "an " <= value then Text.Strip(value[3..])
    else value
  }

  predicate IsVarious(name: string) { name in {"various artists", "various", "va"} }

  predicate BaseTitlesCompatible(sim: Similarity, a: string, b: string) {
    var x, y := sim.baseTitle(a), sim.baseTitle(b);
    x == "" || y == "" || sim.ratio(x, y) >= 85.0
  }

  // ----- Evidence -----

  datatype AlbumArtist = NoAlbumArtist | VariousArtists | Matching | Mismatching

  datatype ReleaseType = Neutral | Preferred | Deprioritized

  /** Everything about a pair that the score depends on. */
  datatype Evidence = Evidence(
    trackMbid: bool, artistMbid: bool, releaseMbid: bool,
    artistName: bool, exactTitle: bool, albumName: bool, albumMismatch: bool,
    albumArtist: AlbumArtist, releaseType: ReleaseType,
    fuzzyTitle: bool)
  {
    predicate TitleMatch() { exactTitle || fuzzyTitle }
  }

  predicate SameMbid(a: string, b: string) { a != "" && b != "" && a == b }

  predicate ArtistMatches(s: Scrobble, c: Candidate) {
    && s.artist != ""
    && (|| (c.artist != "" && s.artist == c.artist)
        || s.artist in c.artistNames
        || exists p :: p in s.artistParts && (p in c.artistNames || p == c.artist))
  }

  predicate TitlesEqual(s: Scrobble, c: Candidate) {
    && s.title != "" && c.title != ""
    && (|| s.title == c.title
        || StripArticle(s.title) == c.title
        || s.title == StripArticle(c.title)
        || (StripArticle(s.title) != "" && StripArticle(s.title) == StripArticle(c.title)))
  }

  function AlbumArtistRelation(s: Scrobble, c: Candidate): AlbumArtist {
    if c.albumArtist == "" then NoAlbumArtist
    else if IsVarious(c.albumArtist) then VariousArtists
    else if c.albumArtist == s.artist || c.albumArtist == c.artist then Matching
    else Mismatching
  }

  function ReleaseTypeOf(name: string): ReleaseType {
    if name in {"album", "single", "ep"} then Preferred
    else if name in {"compilation", "live", "remix", "soundtrack", "dj-mix", "mix"} then Deprioritized
    else Neutral
  }

  function EvidenceFor(sim: Similarity, s: Scrobble, c: Candidate): Evidence {
    var trackMbid := SameMbid(s.trackMbid, c.trackMbid);
    var releaseMbid := SameMbid(s.albumMbid, c.releaseMbid);
    var exact := TitlesEqual(s, c);
    Evidence(
      trackMbid, SameMbid(s.artistMbid, c.artistMbid), releaseMbid,
      ArtistMatches(s, c), exact,
      s.album != "" && c.album != "" && s.album == c.album,
      s.album != "" && c.album != "" && s.album != c.album && releaseMbid,
      AlbumArtistRelation(s, c), ReleaseTypeOf(c.releaseType),
      !exact && s.title != "" && c.title != "" && sim.tokenSet(s.title, c.title) >= 80.0
      && (trackMbid || BaseTitlesCompatible(sim, s.rawTitle, c.rawTitle)))
  }

  // ----- Score -----

  function Weight(holds: bool, twentieths: int): int { if holds then twentieths else 0 }

  function AlbumArtistWeight(aa: AlbumArtist): int {
    match aa case NoAlbumArtist => 0 case VariousArtists => -8 case Matching => 6 case Mismatching => -2
  }

  function AlbumArtistRank(aa: AlbumArtist): int {
    match aa case NoAlbumArtist => 0 case Matching => 1 case _ => -1
  }

  function ReleaseWeight(rt: ReleaseType): int {
    match rt case Neutral => 0 case Preferred => 3 case Deprioritized => -5
  }

  function ReleaseRank(rt: ReleaseType): int {
    match rt case Neutral => 0 case Preferred => 1 case Deprioritized => -1
  }

  function RawScore(e: Evidence): int {
    Weight(e.trackMbid, 20) + Weight(e.artistMbid, 10) + Weight(e.releaseMbid, 8)
    + Weight(e.artistName, 10) + Weight(e.exactTitle, 10) + Weight(e.albumName, 10) + Weight(e.albumMismatch, -5)
    + AlbumArtistWeight(e.albumArtist) + ReleaseWeight(e.releaseType)
  }

  /** Clamped to 0..20, then capped at 19 for a fuzzy title and at 12 for a title that does not match; a
      track identifier whose title does not match scores 12 whatever else there is. */
  function Score(e: Evidence): int {
    var clamped := if RawScore(e) < 0 then 0 else if RawScore(e) > 20 then 20 else RawScore(e);
    if e.exactTitle then clamped
    else if e.fuzzyTitle then (if clamped > 19 then 19 else clamped)
    else if e.trackMbid then 12
    else if clamped > 12 then 12
    else clamped
  }

  datatype Reason =
    | TrackMbid | ArtistMbid | AlbumReleaseMbid | ArtistName | TrackName | AlbumName | AlbumMbidNameMismatch
    | AlbumArtistVarious | AlbumArtistMatch | AlbumArtistMismatch | ReleasePreferred | ReleaseDeprioritized
    | FuzzyTitle | TitleMismatchPenalty | MbidTitleMismatch

  /** When a reason is part of the reported list. */
  predicate Applies(r: Reason, e: Evidence) {
    match r
    case TrackMbid => e.trackMbid
    case ArtistMbid => e.artistMbid
    case AlbumReleaseMbid => e.releaseMbid
    case ArtistName => e.artistName
    case TrackName => e.exactTitle
    case AlbumName => e.albumName
    case AlbumMbidNameMismatch => e.albumMismatch
    case AlbumArtistVarious => e.albumArtist.VariousArtists?
    case AlbumArtistMatch => e.albumArtist.Matching?
    case AlbumArtistMismatch => e.albumArtist.Mismatching?
    case ReleasePreferred => e.releaseType.Preferred?
    case ReleaseDeprioritized => e.releaseType.Deprioritized?
    case FuzzyTitle => e.fuzzyTitle
    case TitleMismatchPenalty => !e.TitleMatch() && RawScore(e) > 12
    case MbidTitleMismatch => !e.TitleMatch() && e.trackMbid
  }

  function Opt(holds: bool, r: Reason): seq<Reason> { if holds then [r] else [] }

  function AlbumArtistReason(aa: AlbumArtist): seq<Reason> {
    match aa
    case NoAlbumArtist => []
    case VariousArtists => [AlbumArtistVarious]
    case Matching => [AlbumArtistMatch]
    case Mismatching => [AlbumArtistMismatch]
  }

  function ReleaseReason(rt: ReleaseType): seq<Reason> {
    match rt case Neutral => [] case Preferred => [ReleasePreferred] case Deprioritized => [ReleaseDeprioritized]
  }

  function IdentifierReasons(e: Evidence): seq<Reason> {
    Opt(e.trackMbid, TrackMbid) + Opt(e.artistMbid, ArtistMbid) + Opt(e.releaseMbid, AlbumReleaseMbid)
  }

  function NameReasons(e: Evidence): seq<Reason> {
    Opt(e.artistName, ArtistName) + Opt(e.exactTitle, TrackName) + Opt(e.albumName, AlbumName)
    + Opt(e.albumMismatch, AlbumMbidNameMismatch)
  }

  /** The reasons that go with the additive part of the score, in order. */
  function MetadataReasons(e: Evidence): seq<Reason> {
    IdentifierReasons(e) + NameReasons(e) + (AlbumArtistReason(e.albumArtist) + ReleaseReason(e.releaseType))
  }

  function Reasons(e: Evidence): seq<Reason> {
    MetadataReasons(e)
    + Opt(e.fuzzyTitle && !e.exactTitle, FuzzyTitle)
    + Opt(!e.TitleMatch() && RawScore(e) > 12, TitleMismatchPenalty)
    + Opt(!e.TitleMatch() && e.trackMbid, MbidTitleMismatch)
  }

  lemma IdentifierReasonsApply(e: Evidence, r: Reason)
    ensures r in IdentifierReasons(e) <==> Applies(r, e) && (r.TrackMbid? || r.ArtistMbid? || r.AlbumReleaseMbid?)
  {
  }

  lemma NameReasonsApply(e: Evidence, r: Reason)
    ensures r in NameReasons(e) <==>
            Applies(r, e) && (r.ArtistName? || r.TrackName? || r.AlbumName? || r.AlbumMbidNameMismatch?)
  {
  }

  lemma ReasonsApply(e: Evidence, r: Reason)
    ensures r in MetadataReasons(e) <==>
            Applies(r, e) && !r.FuzzyTitle? && !r.TitleMismatchPenalty? && !r.MbidTitleMismatch?
    ensures !(e.exactTitle && e.fuzzyTitle) ==> (r in Reasons(e) <==> Applies(r, e))
  {
    hide IdentifierReasons, NameReasons, RawScore;
    IdentifierReasonsApply(e, r);
    NameReasonsApply(e, r);
  }

  datatype Scored = Scored(score: int, reasons: seq<Reason>, aaRank: int, rtRank: int)

  function ScoredFor(e: Evidence): Scored {
    Scored(Score(e), Reasons(e), AlbumArtistRank(e.albumArtist), ReleaseRank(e.releaseType))
  }

  method Count(score: int, reasons: seq<Reason>, holds: bool, weight: int, r: Reason)
    returns (score': int, reasons': seq<Reason>)
    ensures score' == score + Weight(holds, weight) && reasons' == reasons + Opt(holds, r)
  {
    score', reasons' := score, reasons;
    if holds {
      score', reasons' := score' + weight, reasons' + [r];
    }
  }

  /** The additive part: identifiers, names, album artist and release type. */
  method ScoreMetadata(e: Evidence) returns (score: int, reasons: seq<Reason>)
    ensures score == RawScore(e) && reasons == MetadataReasons(e)
  {
    var ids, idReasons := ScoreIdentifiers(e);
    var names, nameReasons := ScoreNames(e);
    score := ids + names + AlbumArtistWeight(e.albumArtist) + ReleaseWeight(e.releaseType);
    reasons := idReasons + nameReasons + (AlbumArtistReason(e.albumArtist) + ReleaseReason(e.releaseType));
  }

  method ScoreIdentifiers(e: Evidence) returns (score: int, reasons: seq<Reason>)
    ensures score == Weight(e.trackMbid, 20) + Weight(e.artistMbid, 10) + Weight(e.releaseMbid, 8)
    ensures reasons == IdentifierReasons(e)
  {
    hide Opt, Weight;
    score, reasons := Count(0, [], e.trackMbid, 20, TrackMbid);
    score, reasons := Count(score, reasons, e.artistMbid, 10, ArtistMbid);
    score, reasons := Count(score, reasons, e.releaseMbid, 8, AlbumReleaseMbid);
  }

  method ScoreNames(e: Evidence) returns (score: int, reasons: seq<Reason>)
    ensures score == Weight(e.artistName, 10) + Weight(e.exactTitle, 10) + Weight(e.albumName, 10)
                     + Weight(e.albumMismatch, -5)
    ensures reasons == NameReasons(e)
  {
    hide Opt, Weight;
    score, reasons := Count(0, [], e.artistName, 10, ArtistName);
    score, reasons := Count(score, reasons, e.exactTitle, 10, TrackName);
    score, reasons := Count(score, reasons, e.albumName, 10, AlbumName);
    score, reasons := Count(score, reasons, e.albumMismatch, -5, AlbumMbidNameMismatch);
  }

  method ScoreCandidate(e: Evidence) returns (result: Scored)
    requires !(e.exactTitle && e.fuzzyTitle)
    ensures result == ScoredFor(e)
  {
    hide RawScore, MetadataReasons;
    var raw, reasons := ScoreMetadata(e);
    var score := if raw < 0 then 0 else if raw > 20 then 20 else raw;
    ReasonsApply(e, TrackMbid);
    var titleMatch := e.exactTitle;
    if !titleMatch && e.fuzzyTitle {
      titleMatch := true;
      reasons := reasons + [FuzzyTitle];
      score := if score < 19 then score else 19;
    }
    var hasTrackMbid := TrackMbid in reasons;
    if !titleMatch && score > 12 {
      score := 12;
      reasons := reasons + [TitleMismatchPenalty];
    }
    if hasTrackMbid && !titleMatch {
      score := 12;
      reasons := reasons + [MbidTitleMismatch];
    }
    return Scored(score, reasons, AlbumArtistRank(e.albumArtist), ReleaseRank(e.releaseType));
  }

  // ----- Method and acceptance -----

  datatype Method = MbidTrack | MbidArtistRelease | NameArtistAlbum | NameArtistTitle | NamePartial

  function Classify(reasons: seq<Reason>): Method {
    var hasTitle := TrackName in reasons || FuzzyTitle in reasons;
    if TrackMbid in reasons then MbidTrack
    else if ArtistMbid in reasons && AlbumReleaseMbid in reasons then MbidArtistRelease
    else if ArtistName in reasons && hasTitle && AlbumName in reasons then NameArtistAlbum
    else if ArtistName in reasons && hasTitle then NameArtistTitle
    else NamePartial
  }

  predicate Accepts(m: Method, score: int) {
    match m
    case MbidTrack => true
    case MbidArtistRelease => score >= 14
    case NameArtistAlbum => score >= 14
    case NameArtistTitle => score >= 16
    case NamePartial => false
  }

  function MethodRank(m: Method): int {
    match m
    case MbidTrack => 3
    case MbidArtistRelease => 2
    case NameArtistAlbum => 1
    case NameArtistTitle => 0
    case NamePartial => -1
  }

  /** Past acceptance, the title match and the threshold for fuzzy titles, which rises with the number of
      scrobbles of the artist. */
  predicate Passes(sc: Scored, artistCount: nat) {
    && Accepts(Classify(sc.reasons), sc.score)
    && (TrackName in sc.reasons || FuzzyTitle in sc.reasons)
    && (FuzzyTitle in sc.reasons ==> sc.score >= if artistCount >= 50 then 18 else 17)
  }

  // ----- The order that decides -----

  datatype Rank = Rank(score: int, exact: bool, methodRank: int, aa: int, rt: int)

  function RankOf(sc: Scored): Rank {
    Rank(sc.score, TrackName in sc.reasons, MethodRank(Classify(sc.reasons)), sc.aaRank, sc.rtRank)
  }

  /** Lexicographically greater: score, exact title, method, album artist, release type. */
  predicate Better(a: Rank, b: Rank) {
    a.score > b.score
    || (a.score == b.score
        && ((a.exact && !b.exact)
            || (a.exact == b.exact
                && (a.methodRank > b.methodRank
                    || (a.methodRank == b.methodRank && (a.aa > b.aa || (a.aa == b.aa && a.rt > b.rt)))))))
  }
}
