/** What every playback plan guarantees. */
module PlaybackPlanTheorems {
  import opened Wrappers
  import opened Text
  import opened PlaybackPlan

  // ----- The MIME types the planner writes -----

  lemma FlacBase() ensures FamilyOfBase("audio/flac") == Some(FLAC) {}

  lemma WavBase() ensures FamilyOfBase("audio/wav") == Some(WAV) {}

  lemma L16Base() ensures FamilyOfBase("audio/l16") == Some(L16) {}

  lemma Mp3Base() ensures FamilyOfBase("audio/mpeg") == Some(MP3) {}

  lemma OggBase() ensures FamilyOfBase("audio/ogg") == Some(OGG) {}

  predicate PlainChar(c: char) { 'a' <= c <= 'z' || '0' <= c <= '9' || c == '/' }

  /** A name in lower case, with no blank and no parameter, is its own base. */
  lemma PlainMime(mime: string)
    requires mime != "" && forall i :: 0 <= i < |mime| ==> PlainChar(mime[i])
    ensures Family(mime) == FamilyOfBase(mime)
  {
    hide FamilyOfBase, Strip, Before, IsSpace;
    BeforeWhole(mime, ';');
    StripNothing(mime);
    LowerNothing(mime);
  }

  lemma BeforeWhole(s: string, c: char)
    requires Without(s, c)
    ensures Before(s, c) == s
  {
  }

  lemma LowerNothing(s: string)
    requires forall i :: 0 <= i < |s| ==> PlainChar(s[i])
    ensures Lower(s) == s
  {
  }

  lemma StripNothing(s: string)
    requires s != "" && PlainChar(s[0]) && PlainChar(s[|s| - 1])
    ensures Strip(s) == s
  {
  }

  lemma PlainMimeFamilies()
    ensures Family("audio/flac") == Some(FLAC)
    ensures Family("audio/wav") == Some(WAV)
    ensures Family("audio/mpeg") == Some(MP3)
    ensures Family("audio/ogg") == Some(OGG)
  {
    hide FamilyOfBase, Family;
    PlainMime("audio/flac");
    PlainMime("audio/wav");
    PlainMime("audio/mpeg");
    PlainMime("audio/ogg");
    FlacBase();
    WavBase();
    Mp3Base();
    OggBase();
  }

  /** The type as it is kept when a renderer advertises L16 with parameters. */
  lemma PlainL16Family()
    ensures Family("audio/l16") == Some(L16)
  {
    hide FamilyOfBase, Family;
    PlainMime("audio/l16");
    L16Base();
  }

  lemma L16Head()
    ensures Lower(Strip("audio/L16")) == "audio/l16"
  {
    var name := "audio/L16";
    assert StripLeft(name) == name && StripRight(name) == name;
    assert Lower(name) == "audio/l16";
  }

  /** The rate and channel parameters do not hide the L16 family. */
  lemma L16MimeFamily(rate: nat, channels: nat)
    ensures Family(L16Mime(rate, channels)) == Some(L16)
  {
    var parameters := L16Parameters(if rate == 0 then 44100 else rate, if channels == 0 then 2 else channels);
    BeforeCut("audio/L16", parameters, ';');
    L16Head();
    L16Base();
  }

  lemma EncodedMimeFamily(f: Format, source: Source, c: Constraints, limits: Ceilings)
    requires f.Lossless()
    ensures Family(DecodeSpec(f, source, c, limits).mime) == Some(FormatFamily(f))
  {
    PlainMimeFamilies();
    L16MimeFamily(DecodeSpec(f, source, c, limits).rate, TargetOf(source, limits).channels);
  }

  // ----- Which plan, and that the renderer takes it -----

  predicate IsFallback(plan: Plan) {
    plan.reasons != [] && plan.reasons[|plan.reasons| - 1] == NothingCompatible
  }

  predicate NoLosslessFamily(c: Constraints) {
    !c.AcceptsFamily(FLAC) && !c.AcceptsFamily(WAV) && !c.AcceptsFamily(L16)
  }

  /** The source's bytes can be served, in their own container or moved to a native one. */
  predicate BytesServable(source: Source, c: Constraints, limits: Ceilings, gain: bool) {
    BytesUsable(source, c, limits, gain) && (c.AcceptsMime(source.mime) || RemuxPossible(source, c))
  }

  lemma FirstAcceptedIsNone(c: Constraints)
    ensures FirstAccepted(DecodeOrder(c), c).None? <==> NoLosslessFamily(c)
  {
    hide Family;
    var order := DecodeOrder(c);
    assert order[0] in order && order[1] in order && order[2] in order;
    assert FormatFamily(Flac) == FLAC && FormatFamily(Wav) == WAV && FormatFamily(L16Pcm) == L16;
    if FirstAccepted(order, c).Some? {
      assert FirstAccepted(order, c).value in {Flac, Wav, L16Pcm};
    } else {
      assert !c.AcceptsFamily(FormatFamily(order[0])) && !c.AcceptsFamily(FormatFamily(order[1]))
             && !c.AcceptsFamily(FormatFamily(order[2]));
    }
  }

  predicate LossyFamilyAllowed(c: Constraints) {
    c.allowLossy && (c.AcceptsFamily(MP3) || c.AcceptsFamily(OGG))
  }

  /** The reasons that a plan which cannot use the source's bytes starts with. */
  function FirstReasons(source: Source, c: Constraints, limits: Ceilings, gain: bool): seq<Reason> {
    if MustTransform(source, limits, gain) then TransformReasons(source, limits, gain) else DecodeReasons(source, c)
  }

  lemma FirstReasonsAreOthers(source: Source, c: Constraints, limits: Ceilings, gain: bool)
    ensures NothingCompatible !in FirstReasons(source, c, limits, gain)
  {
  }

  lemma ReencodeOutcome(source: Source, c: Constraints, limits: Ceilings, gain: bool, first: seq<Reason>)
    requires NothingCompatible !in first
    ensures var plan := ReencodePlan(source, c, limits, gain, first);
            && !plan.action.Remux?
            && (plan.action.Decode? <==> !NoLosslessFamily(c))
            && (plan.action.Lossy? <==> NoLosslessFamily(c) && LossyFamilyAllowed(c))
            && (plan.action.SendOriginal? <==> IsFallback(plan))
            && (IsFallback(plan) <==> NoLosslessFamily(c) && !LossyFamilyAllowed(c))
  {
    FirstReasonsAreOthers(source, c, limits, gain);
    hide Family, LossySpec, OriginalSpec, TransformOperations, TransformReasons, DecodeReasons, DecodePlan;
    FirstAcceptedIsNone(c);
    var reasons := first + FirstReasons(source, c, limits, gain);
    assert NothingCompatible !in reasons;
    var chosen := FirstAccepted(DecodeOrder(c), c);
    if chosen.Some? {
      DecodeIsNoFallback(chosen.value, source, c, limits, TransformOperations(source, limits, gain), reasons);
      DecodeIsNoFallback(chosen.value, source, c, limits, [DecodeSamples], reasons);
    }
  }

  lemma DecodeIsNoFallback(f: Format, source: Source, c: Constraints, limits: Ceilings,
                           operations: seq<Operation>, reasons: seq<Reason>)
    requires f.Lossless() && NothingCompatible !in reasons
    ensures !IsFallback(DecodePlan(f, source, c, limits, operations, reasons))
    ensures DecodePlan(f, source, c, limits, operations, reasons).action.Decode?
  {
  }

  /** Exactly when each kind of plan arises. */
  lemma WhichPlan(source: Source, c: Constraints, gain: bool, q: Quality)
    ensures var plan, limits := PlanFor(source, c, gain, q), EffectiveCeilings(source, c, q);
            var honoured, servable := HonoursLossyChoice(c, q), BytesServable(source, c, limits, gain);
            && (plan.action.Lossy? <==> honoured || (!servable && NoLosslessFamily(c) && LossyFamilyAllowed(c)))
            && (IsFallback(plan) <==> !honoured && !servable && NoLosslessFamily(c) && !LossyFamilyAllowed(c))
            && (plan.action.SendOriginal? <==>
                  IsFallback(plan) || (!honoured && servable && c.AcceptsMime(source.mime)))
            && (plan.action.Remux? <==> !honoured && servable && !c.AcceptsMime(source.mime))
            && (plan.action.Decode? <==> !honoured && !servable && !NoLosslessFamily(c))
  {
    hide Family;
    var limits := EffectiveCeilings(source, c, q);
    var first := if IsExplicitLossy(q) then [SelectedNotAccepted(q)] else [];
    ReencodeOutcome(source, c, limits, gain, first);
  }

  /** Every plan except the fallback serves a MIME type whose family the renderer accepts. */
  lemma OutputIsAccepted(source: Source, c: Constraints, gain: bool, q: Quality)
    ensures var plan := PlanFor(source, c, gain, q);
            IsFallback(plan) || c.AcceptsMime(plan.output.mime)
  {
    hide Family, ReencodePlan, EffectiveCeilings, BytesUsable;
    PlainMimeFamilies();
    var limits := EffectiveCeilings(source, c, q);
    var first := if IsExplicitLossy(q) then [SelectedNotAccepted(q)] else [];
    ReencodedIsAccepted(source, c, limits, gain, first);
  }

  lemma ReencodedIsAccepted(source: Source, c: Constraints, limits: Ceilings, gain: bool, first: seq<Reason>)
    ensures var plan := ReencodePlan(source, c, limits, gain, first);
            IsFallback(plan) || c.AcceptsMime(plan.output.mime)
  {
    hide Family;
    PlainMimeFamilies();
    var chosen := FirstAccepted(DecodeOrder(c), c);
    if chosen.Some? {
      EncodedMimeFamily(chosen.value, source, c, limits);
    }
  }
}
