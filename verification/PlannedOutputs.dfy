/** Ceilings, and the life of a planned output from planner to cache file. */
module PlannedOutputs {
  import opened EncoderOptions
  import opened Text
  import opened Wrappers
  import opened PlaybackPlan
  import opened PlaybackPlanTheorems
  import opened OutputSpecs
  import opened RenderCache
  import opened RenderCacheTheorems

  // ----- Ceilings -----

  function BaseMultiples(base: nat): set<nat> { {base, 2 * base, 4 * base, 8 * base} }

  /** The chosen rate is the greatest of the base rate times 1, 2, 4 or 8 within the limit, and the limit
      itself when even the base rate is above it. */
  lemma TargetRateIsGreatest(sourceRate: nat, maxRate: nat)
    ensures var base, rate := RateFamily(sourceRate), TargetRate(sourceRate, maxRate);
            && rate <= maxRate
            && (base > maxRate ==> rate == maxRate)
            && (base <= maxRate ==>
                  rate in BaseMultiples(base) && forall r :: r in BaseMultiples(base) && r <= maxRate ==> r <= rate)
  {
  }

  /** What reaches the renderer: the source's own value when its bytes are sent. */
  function OutputRate(plan: Plan, source: Source): nat {
    if plan.action.Decode? then plan.output.rate else source.rate
  }

  function OutputChannels(plan: Plan, source: Source): nat {
    if plan.action.Decode? then plan.output.channels else source.channels
  }

  function OutputDepth(plan: Plan, source: Source): nat {
    if plan.action.Decode? then EncodedDepth(plan.output.format, plan.output.depth) else source.depth
  }

  function Chosen(c: Constraints): Option<Format> { FirstAccepted(DecodeOrder(c), c) }

  predicate Servable(source: Source, c: Constraints, gain: bool, q: Quality) {
    BytesServable(source, c, EffectiveCeilings(source, c, q), gain)
  }

  /** No lossy choice is honoured, and the source's bytes or some lossless format will do. */
  predicate Faithful(source: Source, c: Constraints, gain: bool, q: Quality) {
    !HonoursLossyChoice(c, q) && (Servable(source, c, gain, q) || !NoLosslessFamily(c))
  }

  /** No lossy choice is honoured, the bytes will not do, and some lossless format will. */
  predicate Encodes(source: Source, c: Constraints, gain: bool, q: Quality) {
    Faithful(source, c, gain, q) && !Servable(source, c, gain, q)
  }

  /** A decode goes to the first accepted format; otherwise the samples needed no change. */
  predicate HasShape(plan: Plan, source: Source, c: Constraints, limits: Ceilings, gain: bool) {
    match plan.action
    case Decode =>
      && var f := plan.output.format;
         f.Lossless() && Chosen(c) == Some(f) && plan.output == DecodeSpec(f, source, c, limits)
    case Remux => !MustTransform(source, limits, gain) && plan.output == RemuxSpec(source)
    case SendOriginal => !MustTransform(source, limits, gain) && plan.output == OriginalSpec(source)
    case Lossy => false
  }

  lemma FaithfulShape(source: Source, c: Constraints, gain: bool, q: Quality)
    requires Faithful(source, c, gain, q)
    ensures HasShape(PlanFor(source, c, gain, q), source, c, EffectiveCeilings(source, c, q), gain)
    ensures PlanFor(source, c, gain, q).action.Decode? <==> Encodes(source, c, gain, q)
  {
    hide Family, EffectiveCeilings, OriginalSpec, RemuxSpec, DecodeSpec, LossySpec, LastResort;
    hide TransformOperations, TransformReasons, DecodeReasons;
    WhichPlan(source, c, gain, q);
    FirstAcceptedIsNone(c);
    DecodeOrderIsLossless(c);
    if Chosen(c).Some? {
      SpecFormat(Chosen(c).value, source, c, EffectiveCeilings(source, c, q));
    }
  }

  lemma SpecFormat(f: Format, source: Source, c: Constraints, limits: Ceilings)
    requires f.Lossless()
    ensures DecodeSpec(f, source, c, limits).format == f
  {
  }

  /** These are all the plans whose output is lossless and known to be compatible. */
  lemma FaithfulExactly(source: Source, c: Constraints, gain: bool, q: Quality)
    ensures Faithful(source, c, gain, q) <==>
            !PlanFor(source, c, gain, q).action.Lossy? && !IsFallback(PlanFor(source, c, gain, q))
  {
    hide Family, PlanFor;
    WhichPlan(source, c, gain, q);
  }

  lemma DecodeOrderIsLossless(c: Constraints)
    ensures forall f :: f in DecodeOrder(c) ==> f.Lossless()
  {
  }

  /** The rate stays within the ceiling and the source's own rate, except exactly when the samples are encoded
      as L16 and the renderer lists no L16 rate that low. */
  lemma RateCeiling(source: Source, c: Constraints, gain: bool, q: Quality)
    requires source.rate > 0 && Faithful(source, c, gain, q)
    ensures var bound := Tighter(EffectiveCeilings(source, c, q).rate, source.rate);
            OutputRate(PlanFor(source, c, gain, q), source) <= bound <==>
            || Servable(source, c, gain, q) || Chosen(c) != Some(L16Pcm) || c.l16Rates == {}
            || exists r :: r in c.l16Rates && r <= bound
  {
    hide Family, PlanFor, Servable, FirstAccepted;
    FaithfulShape(source, c, gain, q);
    var limits := EffectiveCeilings(source, c, q);
    TargetRateIsGreatest(source.rate, limits.rate);
    TargetOnlyZeroIfBaseZero(source, limits);
  }

  /** Which happens: a renderer limited to 48 kHz whose only format is L16, listed at 96 kHz. */
  lemma RateCeilingFails()
    ensures var c := Constraints(Some({"audio/l16"}), None, 48000, 0, 0, 0, false, true, "", {96000});
            var source := Source(Some("flac"), "audio/flac", 192000, 24, 2, 0, 0);
            Faithful(source, c, false, Original) && OutputRate(PlanFor(source, c, false, Original), source) > c.maxRate
  {
    var c := Constraints(Some({"audio/l16"}), None, 48000, 0, 0, 0, false, true, "", {96000});
    var source := Source(Some("flac"), "audio/flac", 192000, 24, 2, 0, 0);
    hide *;
    OnlyL16(c);
    RateTooHigh(source, c);
  }

  lemma OnlyL16(c: Constraints)
    requires c.mimes == Some({"audio/l16"})
    ensures !NoLosslessFamily(c) && Chosen(c) == Some(L16Pcm)
  {
    hide Family;
    PlainL16Family();
    assert |"audio/l16"| == 9 && |"*/*"| == 3 && |"audio/*"| == 7 && |"*"| == 1;
    assert "audio/l16" in c.mimes.value;
    FirstAcceptedIsNone(c);
    DecodeOrderIsLossless(c);
    var chosen := Chosen(c).value;
    assert c.AcceptsFamily(FormatFamily(chosen));
  }

  lemma RateTooHigh(source: Source, c: Constraints)
    requires !NoLosslessFamily(c) && Chosen(c) == Some(L16Pcm) && c.maxRate == 48000 && c.l16Rates == {96000}
    requires source.codec == Some("flac") && source.rate == 192000
    ensures Faithful(source, c, false, Original) && OutputRate(PlanFor(source, c, false, Original), source) > c.maxRate
  {
    hide PlanFor, Family, NoLosslessFamily, Chosen;
    RateCeiling(source, c, false, Original);
  }

  lemma TargetOnlyZeroIfBaseZero(source: Source, limits: Ceilings)
    requires source.rate > 0
    ensures TargetOf(source, limits).rate > 0
  {
  }

  lemma ChannelCeiling(source: Source, c: Constraints, gain: bool, q: Quality)
    requires source.channels > 0 && Faithful(source, c, gain, q)
    ensures OutputChannels(PlanFor(source, c, gain, q), source) == Tighter(c.maxChannels, source.channels)
  {
    hide Family, PlanFor;
    FaithfulShape(source, c, gain, q);
  }

  /** The depth that a lossless source goes out with stays within the ceiling exactly when its bytes will do,
      or the ceiling is 16 or at least 24 bits, or it is between them and 16 bits are enough, be it for the
      source or because only L16 is left. */
  lemma DepthCeiling(source: Source, c: Constraints, gain: bool, q: Quality)
    requires source.Lossless() && source.depth > 0 && Faithful(source, c, gain, q)
    requires EffectiveCeilings(source, c, q).depth > 0
    ensures var max := EffectiveCeilings(source, c, q).depth;
            OutputDepth(PlanFor(source, c, gain, q), source) <= max <==>
            || Servable(source, c, gain, q) || max == 16 || max >= 24
            || (max > 16 && (source.depth <= 16 || Chosen(c) == Some(L16Pcm)))
  {
    hide Family, PlanFor, FirstAccepted;
    FaithfulShape(source, c, gain, q);
  }

  /** Which happens: 24-bit FLAC to a renderer limited to 20 bits goes out with 24. */
  lemma DepthCeilingFails()
    ensures var c := Constraints(None, None, 0, 20, 0, 0, false, true, "", {});
            var source := Source(Some("flac"), "audio/flac", 44100, 24, 2, 0, 0);
            Faithful(source, c, false, Original) && OutputDepth(PlanFor(source, c, false, Original), source) == 24
  {
    var c := Constraints(None, None, 0, 20, 0, 0, false, true, "", {});
    var source := Source(Some("flac"), "audio/flac", 44100, 24, 2, 0, 0);
    hide Family, PlanFor;
    FaithfulShape(source, c, false, Original);
  }

  /** Under a FLAC block limit, FLAC that is encoded goes out in blocks of the greatest standard size within it,
      and in the smallest standard size, above the limit, exactly when the limit is below that. The source's
      own bytes go out only if the renderer decodes them and their blocks are fixed and no larger. */
  lemma BlockCeiling(source: Source, c: Constraints, gain: bool, q: Quality)
    requires c.blockLimit > 0 && Faithful(source, c, gain, q)
    ensures Encodes(source, c, gain, q) && Chosen(c) == Some(Flac) ==>
              var block := PlanFor(source, c, gain, q).output.block;
              && block in FLAC_BLOCK_SIZES && (block <= c.blockLimit <==> c.blockLimit >= 192)
              && (forall b :: b in FLAC_BLOCK_SIZES && b <= c.blockLimit ==> b <= block)
              && (c.blockLimit < 192 ==> block == 192)
    ensures Servable(source, c, gain, q) ==>
              && c.AcceptsCodec(source.codec)
              && (source.codec == Some("flac") ==> 0 < source.minBlock == source.maxBlock <= c.blockLimit)
  {
    hide Family, EffectiveCeilings, OriginalSpec, RemuxSpec;
    FaithfulShape(source, c, gain, q);
    hide PlanFor;
  }

  /** Which happens: a source whose block sizes are not known is encoded for a limit of 100, in blocks of 192. */
  lemma BlockCeilingFails()
    ensures var c := Constraints(None, None, 0, 0, 0, 100, false, true, "", {});
            var source := Source(Some("flac"), "audio/flac", 44100, 24, 2, 0, 0);
            Encodes(source, c, false, Original) && PlanFor(source, c, false, Original).output.block == 192
  {
    var c := Constraints(None, None, 0, 0, 0, 100, false, true, "", {});
    var source := Source(Some("flac"), "audio/flac", 44100, 24, 2, 0, 0);
    hide Family, PlanFor;
    BlockCeiling(source, c, false, Original);
  }

  /** Nothing is changed without need: samples are resampled, mixed down or narrowed only when a ceiling or
      the output format asks for it. */
  lemma NoNeedlessChange(source: Source, c: Constraints, gain: bool, q: Quality)
    requires Encodes(source, c, gain, q)
    ensures var plan, limits := PlanFor(source, c, gain, q), EffectiveCeilings(source, c, q);
            && (plan.output.resample <==>
                  Exceeds(source.rate, limits.rate)
                  || (plan.output.format.L16Pcm? && L16Limited(TargetOf(source, limits).rate, c.l16Rates)))
            && (!plan.output.resample ==> plan.output.rate == source.rate)
            && (plan.output.downmix <==> Exceeds(source.channels, limits.channels))
            && (!plan.output.downmix ==> plan.output.channels == source.channels)
            && (source.Lossless() && !Exceeds(source.depth, limits.depth) && !plan.output.format.L16Pcm? ==>
                  OutputDepth(plan, source) >= Min(source.depth, 24))
  {
    hide Family, PlanFor;
    WhichPlan(source, c, gain, q);
    FaithfulShape(source, c, gain, q);
    TargetRateIsGreatest(source.rate, EffectiveCeilings(source, c, q).rate);
  }

  // ----- What the listed operations say -----

  lemma TransformOperationsTell(source: Source, limits: Ceilings, gain: bool)
    ensures var ops := TransformOperations(source, limits, gain);
            && (Resample in ops <==> Exceeds(source.rate, limits.rate))
            && (Downmix in ops <==> Exceeds(source.channels, limits.channels))
            && (Normalize in ops <==> gain)
            && LossyEncode !in ops && MoveContainer !in ops && DecodeSamples !in ops
            && (ops == [] <==> !MustTransform(source, limits, gain))
  {
  }

  /** The operations a plan lists are true of it: no other kind of plan encodes lossily or moves the
      container, the samples are normalised exactly when a gain applies, and a decode resamples or mixes
      down exactly when it says so. */
  predicate OperationsTell(plan: Plan, gain: bool) {
    && (LossyEncode in plan.operations <==> plan.action.Lossy?)
    && (MoveContainer in plan.operations <==> plan.action.Remux?)
    && (Normalize in plan.operations <==> gain)
    && (plan.action.Decode? ==>
          && (Resample in plan.operations <==> plan.output.resample)
          && (Downmix in plan.operations <==> plan.output.downmix))
  }

  /** The operations that a plan which cannot use the source's bytes starts with. */
  function FirstOperations(source: Source, limits: Ceilings, gain: bool): seq<Operation> {
    if MustTransform(source, limits, gain) then TransformOperations(source, limits, gain) else [DecodeSamples]
  }

  lemma DecodeOperationsTell(f: Format, source: Source, c: Constraints, limits: Ceilings, gain: bool,
                             operations: seq<Operation>, reasons: seq<Reason>)
    requires f.Lossless()
    requires operations == FirstOperations(source, limits, gain)
    ensures OperationsTell(DecodePlan(f, source, c, limits, operations, reasons), gain)
  {
    hide TransformOperations, SpecDepth, WorkingDepth, L16Rate, RateFamily;
    TransformOperationsTell(source, limits, gain);
    TargetRateIsGreatest(source.rate, limits.rate);
  }

  lemma LastOperationsTell(source: Source, c: Constraints, limits: Ceilings, gain: bool,
                           operations: seq<Operation>, reasons: seq<Reason>)
    requires operations == FirstOperations(source, limits, gain)
    ensures OperationsTell(LastResort(source, c, gain, operations, reasons), gain)
    ensures LastResort(source, c, gain, operations, reasons).operations != []
  {
    hide TransformOperations, Family;
    TransformOperationsTell(source, limits, gain);
  }

  /** Only the compatible original has nothing done to it. */
  lemma PlansTellTheirOperations(source: Source, c: Constraints, gain: bool, q: Quality)
    ensures var plan := PlanFor(source, c, gain, q);
            && OperationsTell(plan, gain)
            && (plan.operations == [] <==> plan.action.SendOriginal? && !IsFallback(plan))
  {
    hide Family, OperationsTell, DecodePlan, LastResort, EffectiveCeilings, TransformReasons, DecodeReasons;
    var limits := EffectiveCeilings(source, c, q);
    var first := if IsExplicitLossy(q) then [SelectedNotAccepted(q)] else [];
    DirectOperationsTell(source, c, limits, gain, q, first);
    TransformOperationsTell(source, limits, gain);
    WhichPlan(source, c, gain, q);
    var operations := FirstOperations(source, limits, gain);
    var reasons := first + FirstReasons(source, c, limits, gain);
    LastOperationsTell(source, c, limits, gain, operations, reasons);
    var chosen := FirstAccepted(DecodeOrder(c), c);
    if chosen.Some? {
      DecodeOrderIsLossless(c);
      DecodeOperationsTell(chosen.value, source, c, limits, gain, operations, reasons);
      DecodeNeverIdle(chosen.value, source, c, limits, operations, reasons);
    }
  }

  lemma DecodeNeverIdle(f: Format, source: Source, c: Constraints, limits: Ceilings,
                        operations: seq<Operation>, reasons: seq<Reason>)
    requires f.Lossless() && operations != []
    ensures DecodePlan(f, source, c, limits, operations, reasons).operations != []
  {
  }

  lemma DirectOperationsTell(source: Source, c: Constraints, limits: Ceilings, gain: bool, q: Quality,
                             first: seq<Reason>)
    ensures HonoursLossyChoice(c, q) ==> OperationsTell(LossyPlan(q, source, gain, [], [Selected(q)]), gain)
    ensures BytesServable(source, c, limits, gain) ==> OperationsTell(PlanWithin(source, c, limits, gain, first), gain)
  {
  }

  // ----- What the encoder is told -----

  function Heard(told: Option<string>, otherwise: nat): string {
    if told.Some? then told.value else Dec(otherwise)
  }

  /** The encoder arguments of a decode, read back, ask for the planned rate, channels, depth and block size;
      what they leave out, the source already has. */
  lemma EncoderIsToldThePlan(source: Source, c: Constraints, gain: bool, q: Quality)
    requires Encodes(source, c, gain, q)
    ensures var plan := PlanFor(source, c, gain, q);
            FfmpegArgs(plan.output).Some?
            && var args := FfmpegArgs(plan.output).value;
               && (plan.output.rate != 0 ==> Heard(Value(args, "-ar"), source.rate) == Dec(plan.output.rate))
               && Heard(Value(args, "-ac"), source.channels) == Dec(plan.output.channels)
               && SampleDepth(args) == OutputDepth(plan, source)
               && Value(args, "-frame_size")
                  == if plan.output.format.Flac? && c.blockLimit != 0 then
                       Some(Dec(BlockSizeUnder(c.blockLimit)))
                     else None
  {
    hide PlanFor, Family, FfmpegArgs, Value, Dec, SampleDepth;
    WhichPlan(source, c, gain, q);
    FaithfulShape(source, c, gain, q);
    NoNeedlessChange(source, c, gain, q);
    var spec := PlanFor(source, c, gain, q).output;
    ArgsParts(spec);
    RateIsTold(spec);
    ChannelsAreTold(spec);
    DepthAndBlocksAreTold(spec);
  }

  // ----- From planner to cache -----

  lemma LossySpecsAreKeyed(q: Quality, source: Source)
    requires IsExplicitLossy(q)
    ensures Keyed(LossySpec(q, source)) && LossySpec(q, source).mime != ""
    ensures FfmpegArgs(LossySpec(q, source)).Some?
  {
  }

  lemma LossyPlansAreKeyed(source: Source, c: Constraints, gain: bool, q: Quality)
    requires PlanFor(source, c, gain, q).action.Lossy?
    ensures exists k :: IsExplicitLossy(k) && PlanFor(source, c, gain, q).output == LossySpec(k, source)
  {
    hide Family, DecodePlan, EffectiveCeilings;
    FirstAcceptedIsNone(c);
    WhichPlan(source, c, gain, q);
    assert IsExplicitLossy(Mp3320) && IsExplicitLossy(Opus128);
  }

  /** Every output the planner makes is served, after its trip through the token, exactly as planned; and
      it is either the original bytes or a rendering with a proper cache key and encoder arguments. */
  lemma ServedAsPlanned(source: Source, c: Constraints, gain: bool, q: Quality)
    ensures var spec := PlanFor(source, c, gain, q).output;
            && ServedAs(ReadBack(spec)) == ServedAs(spec)
            && (spec.format.OriginalFormat? || (Keyed(spec) && Keyed(ReadBack(spec)) && FfmpegArgs(spec).Some?))
  {
    var plan := PlanFor(source, c, gain, q);
    ServedSurvivesExactly(plan.output);
    hide PlanFor, Family, ServedAs, EffectiveCeilings, ProfileArgs, Faithful, Encodes, Chosen, MustTransform;
    hide L16Rate, BlockSizeUnder, L16Mime, TargetOf, WorkingDepth;
    FormatNameRoundTrip(plan.output.format);
    FaithfulExactly(source, c, gain, q);
    if plan.action.Lossy? {
      LossyPlansAreKeyed(source, c, gain, q);
      var k :| IsExplicitLossy(k) && plan.output == LossySpec(k, source);
      LossySpecsAreKeyed(k, source);
    } else if IsFallback(plan) {
      FallbackSpec(source, c, gain, q);
    } else {
      FaithfulShape(source, c, gain, q);
    }
  }

  lemma FallbackSpec(source: Source, c: Constraints, gain: bool, q: Quality)
    requires IsFallback(PlanFor(source, c, gain, q))
    ensures PlanFor(source, c, gain, q).output == OriginalSpec(source)
  {
    hide Family, DecodePlan, EffectiveCeilings, OriginalSpec;
    FirstAcceptedIsNone(c);
    WhichPlan(source, c, gain, q);
  }

  /** Two planned renderings of one track that meet in one cache file, each read from its own token, are
      the rendering that each was planned to be. */
  lemma SharedFileIsRight(source: Source, c: Constraints, gain: bool, q: Quality, applied: Option<(GainMode, Gain)>,
                          c': Constraints, gain': bool, q': Quality, applied': Option<(GainMode, Gain)>)
    requires var spec, spec' := PlanFor(source, c, gain, q).output, PlanFor(source, c', gain', q').output;
             && !spec.format.OriginalFormat? && !spec'.format.OriginalFormat?
             && FileName(Planned(ReadBack(spec), applied)) == FileName(Planned(ReadBack(spec'), applied'))
    ensures var spec, spec' := PlanFor(source, c, gain, q).output, PlanFor(source, c', gain', q').output;
            Arguments(Planned(spec, applied)) == Arguments(Planned(spec', applied'))
            && Arguments(Planned(spec, applied)).Some? && Extension(spec.format) == Extension(spec'.format)
  {
    hide PlanFor, FileName, Keyed, FfmpegArgs, VolumeFilter;
    ServedAsPlanned(source, c, gain, q);
    ServedAsPlanned(source, c', gain', q');
    var spec, spec' := PlanFor(source, c, gain, q).output, PlanFor(source, c', gain', q').output;
    SameFileSameRendering(Planned(ReadBack(spec), applied), Planned(ReadBack(spec'), applied'));
  }
}
