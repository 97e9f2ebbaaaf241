/** The planner's results in the terms of what a caller hands in: the renderer's limits, the quality asked for,
    the source. */
module PlannedLimits {
  import opened Extremes
  import opened OutputSpecs
  import opened PlannedOutputs
  import opened PlaybackPlan
  import opened PlaybackPlanTheorems
  import opened Text
  import opened Wrappers

  // ----- Which limits apply -----

  /** The upper limits on the rate: the renderer's, 48 kHz of a lossless quality, 176.4 kHz for DSD. */
  function RateLimits(source: Source, c: Constraints, q: Quality): set<nat> {
    (if c.maxRate > 0 then {c.maxRate} else {})
    + (if q == Flac2448 || q == Flac1648 then {48000} else {})
    + (if source.codec == Some("dsd") then {176400} else {})
  }

  /** The upper limits on the depth: the renderer's, and a lossless quality's 24 or 16 bits. */
  function DepthLimits(c: Constraints, q: Quality): set<nat> {
    (if c.maxDepth > 0 then {c.maxDepth} else {})
    + (if q == Flac2448 then {24} else if q == Flac1648 then {16} else {})
  }

  predicate Within(value: nat, limits: set<nat>) { forall l :: l in limits ==> value <= l }

  predicate IsLeast(n: nat, limits: set<nat>) { n in limits && forall l :: l in limits ==> n <= l }

  /** The ceilings are the least of the limits, and none where there is no limit. */
  lemma CeilingsAreLeast(source: Source, c: Constraints, q: Quality)
    ensures var ceilings := EffectiveCeilings(source, c, q);
            var rates := RateLimits(source, c, q);
            && (if rates == {} then ceilings.rate == 0 else IsLeast(ceilings.rate, rates))
            && (if DepthLimits(c, q) == {} then ceilings.depth == 0 else IsLeast(ceilings.depth, DepthLimits(c, q)))
            && ceilings.channels == c.maxChannels
  {
    RateCeilingIsLeast(source, c, q);
    var limits := DepthLimits(c, q);
    assert c.maxDepth > 0 ==> c.maxDepth in limits;
    assert q == Flac2448 ==> 24 in limits;
    assert q == Flac1648 ==> 16 in limits;
  }

  lemma RateCeilingIsLeast(source: Source, c: Constraints, q: Quality)
    ensures var rate, limits := EffectiveCeilings(source, c, q).rate, RateLimits(source, c, q);
            if limits == {} then rate == 0 else IsLeast(rate, limits)
  {
    var limits := RateLimits(source, c, q);
    assert c.maxRate > 0 ==> c.maxRate in limits;
    assert q == Flac2448 || q == Flac1648 ==> 48000 in limits;
    assert source.codec == Some("dsd") ==> 176400 in limits;
  }

  lemma WithinLeast(value: nat, ceiling: nat, limits: set<nat>)
    requires if limits == {} then ceiling == 0 else IsLeast(ceiling, limits)
    requires 0 !in limits
    ensures Within(value, limits) <==> !Exceeds(value, ceiling)
  {
  }

  /** The source's bytes will do exactly when no gain applies, every limit is met by what is known of them, the
      codec is decoded, a block limit is met, and the container is accepted or the FLAC in it can be moved. */
  lemma ServableExactly(source: Source, c: Constraints, gain: bool, q: Quality)
    ensures Servable(source, c, gain, q) <==>
            && !gain
            && Within(source.rate, RateLimits(source, c, q))
            && (source.Lossless() ==> Within(source.depth, DepthLimits(c, q)))
            && (c.maxChannels == 0 || source.channels <= c.maxChannels)
            && (c.codecs.None? || source.codec.None? || source.codec.value in c.codecs.value)
            && (c.blockLimit > 0 && source.codec == Some("flac") ==>
                  0 < source.minBlock == source.maxBlock <= c.blockLimit)
            && (c.AcceptsMime(source.mime) || (source.codec == Some("flac") && c.AcceptsFamily(FLAC)))
  {
    hide Family, EffectiveCeilings;
    CeilingsAreLeast(source, c, q);
    var ceilings := EffectiveCeilings(source, c, q);
    WithinLeast(source.rate, ceilings.rate, RateLimits(source, c, q));
    WithinLeast(source.depth, ceilings.depth, DepthLimits(c, q));
  }

  // ----- Rate -----

  /** The samples are encoded as L16, and every rate the renderer lists for it is above some limit or above the
      source's own. */
  predicate OnlyListsHigher(source: Source, c: Constraints, gain: bool, q: Quality) {
    && !Servable(source, c, gain, q) && Chosen(c) == Some(L16Pcm) && c.l16Rates != {}
    && forall r :: r in c.l16Rates ==> r > source.rate || !Within(r, RateLimits(source, c, q))
  }

  /** The rate is within every limit, the source's own included, exactly unless an L16 list makes it otherwise;
      and where the source is within them all, it keeps its rate. */
  lemma RateIsWithinLimits(source: Source, c: Constraints, gain: bool, q: Quality)
    requires source.rate > 0 && Faithful(source, c, gain, q)
    ensures var rate := OutputRate(PlanFor(source, c, gain, q), source);
            && (rate <= source.rate && Within(rate, RateLimits(source, c, q)) <==> !OnlyListsHigher(source, c, gain, q))
            && (&& Within(source.rate, RateLimits(source, c, q))
                && (|| Servable(source, c, gain, q) || Chosen(c) != Some(L16Pcm)
                    || c.l16Rates == {} || source.rate in c.l16Rates)
                ==> rate == source.rate)
  {
    hide Family, PlanFor, Servable, FirstAccepted, EffectiveCeilings;
    CeilingsAreLeast(source, c, q);
    RateCeiling(source, c, gain, q);
    FaithfulShape(source, c, gain, q);
    var bound := Tighter(EffectiveCeilings(source, c, q).rate, source.rate);
    BoundIsWithin(source, c, q);
  }

  /** Within the tightest of the limits and the source's rate is within them all. */
  lemma BoundIsWithin(source: Source, c: Constraints, q: Quality)
    requires source.rate > 0
    ensures var bound := Tighter(EffectiveCeilings(source, c, q).rate, source.rate);
            forall r: nat :: r <= bound <==> r <= source.rate && Within(r, RateLimits(source, c, q))
  {
    CeilingsAreLeast(source, c, q);
    assert 0 !in RateLimits(source, c, q);
    hide EffectiveCeilings, RateLimits;
    var ceiling, limits := EffectiveCeilings(source, c, q).rate, RateLimits(source, c, q);
    forall r: nat ensures r <= Tighter(ceiling, source.rate) <==> r <= source.rate && Within(r, limits) {
      WithinLeast(r, ceiling, limits);
    }
  }

  // ----- Depth -----

  /** A lossless quality's depth is never exceeded, and a renderer's limit of 24 bits or more, or of 16, is not
      either; a lossless source keeps its depth up to 24 bits where no limit is set, and 16 or 24 bits are not padded
      to more. */
  lemma DepthIsWithinLimits(source: Source, c: Constraints, gain: bool, q: Quality)
    requires source.Lossless() && source.depth > 0 && Faithful(source, c, gain, q)
    ensures var depth := OutputDepth(PlanFor(source, c, gain, q), source);
            && (q == Flac1648 ==> depth <= 16)
            && (q == Flac2448 ==> depth <= 24)
            && (c.maxDepth == 16 || c.maxDepth >= 24 ==> depth <= c.maxDepth)
            && (DepthLimits(c, q) == {} && Chosen(c) != Some(L16Pcm) ==> depth >= Min(source.depth, 24))
            && (Servable(source, c, gain, q) ==> depth == source.depth)
            && (source.depth <= 16 ==> depth <= 16) && (source.depth <= 24 ==> depth <= 24)
            && (!Servable(source, c, gain, q) && Chosen(c) == Some(L16Pcm) ==> depth == 16)
  {
    hide Family, PlanFor, Servable, FirstAccepted;
    FaithfulShape(source, c, gain, q);
    if Servable(source, c, gain, q) {
      ServableDepth(source, c, gain, q);
    }
  }

  lemma ServableDepth(source: Source, c: Constraints, gain: bool, q: Quality)
    requires Servable(source, c, gain, q) && source.Lossless()
    ensures Within(source.depth, DepthLimits(c, q))
  {
    ServableExactly(source, c, gain, q);
  }

  // ----- Formats -----

  /** Which lossless format samples are encoded in: FLAC before WAV, or after it if the renderer prefers WAV, and
      L16 only where neither is accepted. */
  lemma ChosenExactly(c: Constraints)
    ensures var flac, wav, l16 := c.AcceptsFamily(FLAC), c.AcceptsFamily(WAV), c.AcceptsFamily(L16);
            && (Chosen(c) == Some(Flac) <==> flac && !(c.preferWav && wav))
            && (Chosen(c) == Some(Wav) <==> wav && !(!c.preferWav && flac))
            && (Chosen(c) == Some(L16Pcm) <==> l16 && !flac && !wav)
            && (Chosen(c) == None <==> !flac && !wav && !l16)
  {
    hide Constraints.AcceptsFamily;
    var order := DecodeOrder(c);
    FirstAcceptedSteps(order, c);
    FirstAcceptedSteps(order[1..], c);
    FirstAcceptedSteps(order[1..][1..], c);
    FirstAcceptedSteps(order[1..][1..][1..], c);
    hide FirstAccepted;
  }

  lemma FirstAcceptedSteps(order: seq<Format>, c: Constraints)
    requires forall i :: 0 <= i < |order| ==> !order[i].OriginalFormat?
    ensures FirstAccepted(order, c) ==
            if order == [] then None
            else if c.AcceptsFamily(FormatFamily(order[0])) then Some(order[0])
            else FirstAccepted(order[1..], c)
  {
  }

  // ----- Lossy outputs -----

  /** A lossy output is 48 kHz and mono or stereo; its format is the one chosen and accepted, or else MP3 if that
      is accepted, or else Opus. */
  lemma LossyOutput(source: Source, c: Constraints, gain: bool, q: Quality)
    requires PlanFor(source, c, gain, q).action.Lossy?
    ensures var spec := PlanFor(source, c, gain, q).output;
            && spec.rate == 48000 && spec.channels == (if source.channels == 1 then 1 else 2)
            && spec.format == (if HonoursLossyChoice(c, q) then (if q == Mp3320 then Mp3 else Opus)
                               else if c.AcceptsFamily(MP3) then Mp3 else Opus)
            && (spec.format == Mp3 ==> spec.mime == "audio/mpeg" && spec.profile == Some("mp3_320"))
            && (spec.format == Opus ==> spec.mime == "audio/ogg" && spec.profile == Some("opus_128"))
  {
    hide Family, DecodePlan, EffectiveCeilings;
    FirstAcceptedIsNone(c);
    WhichPlan(source, c, gain, q);
  }

  // ----- Quality names -----

  predicate NameChar(c: char) { 'a' <= c <= 'z' || IsDigit(c) || c == '_' }

  lemma PlainName(name: string)
    requires name != "" && forall i :: 0 <= i < |name| ==> NameChar(name[i])
    ensures Lower(Strip(name)) == name
  {
    assert StripLeft(name) == name && StripRight(name) == name;
  }

  lemma HighNames()
    ensures NormalizeQuality("flac_24_48") == Flac2448 && NormalizeQuality("high") == Flac2448
  {
    PlainName("flac_24_48");
    PlainName("high");
    hide Lower, Strip;
  }

  lemma NormalNames()
    ensures NormalizeQuality("flac_16_48") == Flac1648 && NormalizeQuality("normal") == Flac1648
  {
    PlainName("flac_16_48");
    PlainName("normal");
    hide Lower, Strip;
    assert |"high"| == 4 && |"normal"| == 6 && "flac_24_48"[5] == '2' && "flac_16_48"[5] == '1';
    assert |"flac_24_48"| == 10 == |"flac_16_48"|;
  }

  lemma LossyNames()
    ensures NormalizeQuality("mp3_320") == Mp3320
    ensures NormalizeQuality("opus_128") == Opus128 && NormalizeQuality("mobile") == Opus128
  {
    hide *;
    assert |"mp3_320"| == 7 && |"opus_128"| == 8 && |"mobile"| == 6;
    LossyName("mp3_320");
    LossyName("opus_128");
    LossyName("mobile");
  }

  lemma LossyName(name: string)
    requires |name| in {6, 7, 8} && (|name| == 6 ==> name[0] == 'm') && name in {"mp3_320", "opus_128", "mobile"}
    ensures NormalizeQuality(name) == if name == "mp3_320" then Mp3320 else Opus128
  {
    PlainName(name);
    OtherNames(name);
    hide Lower, Strip;
  }

  /** Six letters that start with m, seven and eight letters are no lossless name. */
  lemma OtherNames(name: string)
    requires |name| in {6, 7, 8} && (|name| == 6 ==> name[0] == 'm')
    ensures name !in {"flac_24_48", "high", "flac_16_48", "normal"}
  {
    assert |"high"| == 4 && |"normal"| == 6 && |"flac_24_48"| == 10 == |"flac_16_48"| && "normal"[0] == 'n';
  }

  lemma OriginalNames()
    ensures NormalizeQuality("original") == Original && NormalizeQuality("") == Original
  {
    PlainName("original");
    assert Lower(Strip("")) == "";
    hide Lower, Strip;
    assert |"high"| == 4 && |"normal"| == 6 && |"flac_24_48"| == 10 == |"flac_16_48"|;
    assert |"mp3_320"| == 7 && |"opus_128"| == 8 && |"mobile"| == 6 && |"original"| == 8;
    assert "original"[1] == 'r' && "opus_128"[1] == 'p';
  }

  /** Blanks around a name and its case do not count. */
  lemma SpellingDoesNotCount(a: string, b: string)
    requires Lower(Strip(a)) == Lower(Strip(b))
    ensures NormalizeQuality(a) == NormalizeQuality(b)
  {
    hide Lower, Strip;
  }

  /** What the request asks for goes before the renderer's setting, a request for the original included; without a
      request the setting holds, and without either the original. */
  lemma RequestGoesFirst(c: Constraints, requested: string)
    ensures requested != "" ==> ChosenQuality(c, requested) == NormalizeQuality(requested)
    ensures requested == "" && c.quality != "" ==> ChosenQuality(c, requested) == NormalizeQuality(c.quality)
    ensures requested == "" && c.quality == "" ==> ChosenQuality(c, requested) == Original
  {
    OriginalNames();
    hide NormalizeQuality;
  }
}
