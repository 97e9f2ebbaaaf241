/** The reasons a plan gives are true of it. */
module PlannedReasons {
  import opened PlannedOutputs
  import opened PlaybackPlan
  import opened PlaybackPlanTheorems
  import opened Wrappers

  /** What the reasons say about the source, the renderer and the request. */
  predicate InputsTold(reasons: seq<Reason>, source: Source, c: Constraints, limits: Ceilings, gain: bool, q: Quality) {
    && (SelectedNotAccepted(q) in reasons <==> IsExplicitLossy(q))
    && (Loudness in reasons <==> gain)
    && (RateExceeds(source.rate, limits.rate) in reasons <==> Exceeds(source.rate, limits.rate))
    && (DepthExceeds(source.depth, limits.depth) in reasons <==>
          source.Lossless() && Exceeds(source.depth, limits.depth))
    && (ChannelsExceed(source.channels, limits.channels) in reasons <==> Exceeds(source.channels, limits.channels))
  }

  /** Why the bytes are not sent although nothing in them has to change. */
  predicate BytesTold(reasons: seq<Reason>, source: Source, c: Constraints, limits: Ceilings, gain: bool) {
    var kept := !MustTransform(source, limits, gain);
    && (CodecNotDecoded in reasons <==> kept && !c.AcceptsCodec(source.codec))
    && (ContainerNotAccepted in reasons <==> kept && c.AcceptsCodec(source.codec) && !c.AcceptsMime(source.mime)
                                             && !(BytesUsable(source, c, limits, gain) && RemuxPossible(source, c)))
    && (BlockSizeUnknown(c.blockLimit) in reasons <==>
          kept && c.AcceptsCodec(source.codec) && c.AcceptsMime(source.mime)
          && BlocksFit(source, c.blockLimit).Unknown?)
  }

  /** What the reasons say about the outcome. */
  predicate OutcomeTold(plan: Plan, c: Constraints, q: Quality) {
    && (NativeContainer in plan.reasons <==> plan.action.Remux?)
    && (NoLosslessAccepted in plan.reasons <==> plan.action.Lossy?)
    && (NothingCompatible in plan.reasons <==> IsFallback(plan))
    && (PrefersWav in plan.reasons <==> plan.action.Decode? && plan.output.format.Wav? && c.preferWav)
    && (Compatible in plan.reasons <==> plan.action.SendOriginal? && !IsFallback(plan) && !IsExplicitLossy(q))
  }

  /** Reasons that only come from what the samples need, or what keeps their bytes from being sent. */
  predicate IsInputReason(r: Reason) {
    r.RateExceeds? || r.DepthExceeds? || r.ChannelsExceed? || r.Loudness? || r.SelectedNotAccepted?
    || r.CodecNotDecoded? || r.ContainerNotAccepted? || r.BlockSizeUnknown? || r.BlocksExceed?
  }

  function First(q: Quality): seq<Reason> { if IsExplicitLossy(q) then [SelectedNotAccepted(q)] else [] }

  lemma TransformReasonsTell(source: Source, limits: Ceilings, gain: bool)
    ensures var reasons := TransformReasons(source, limits, gain);
            && (Loudness in reasons <==> gain)
            && (RateExceeds(source.rate, limits.rate) in reasons <==> Exceeds(source.rate, limits.rate))
            && (DepthExceeds(source.depth, limits.depth) in reasons <==>
                  source.Lossless() && Exceeds(source.depth, limits.depth))
            && (ChannelsExceed(source.channels, limits.channels) in reasons <==>
                  Exceeds(source.channels, limits.channels))
            && forall r :: r in reasons ==> r.RateExceeds? || r.DepthExceeds? || r.ChannelsExceed? || r.Loudness?
  {
    hide Exceeds;
  }

  lemma SamplesTell(source: Source, c: Constraints, limits: Ceilings, gain: bool)
    requires MustTransform(source, limits, gain)
    ensures var reasons := TransformReasons(source, limits, gain);
            && InputsTold(reasons, source, c, limits, gain, Original) && BytesTold(reasons, source, c, limits, gain)
            && forall r :: r in reasons ==> IsInputReason(r) && !r.SelectedNotAccepted?
  {
    TransformReasonsTell(source, limits, gain);
    hide TransformReasons, MustTransform, Exceeds, BytesUsable, BlocksFit, RemuxPossible;
  }

  lemma DecodeReasonsMembers(source: Source, c: Constraints)
    ensures var reasons := DecodeReasons(source, c);
            && (CodecNotDecoded in reasons <==> !c.AcceptsCodec(source.codec))
            && (ContainerNotAccepted in reasons <==> c.AcceptsCodec(source.codec) && !c.AcceptsMime(source.mime))
            && (BlockSizeUnknown(c.blockLimit) in reasons <==>
                  c.AcceptsCodec(source.codec) && c.AcceptsMime(source.mime)
                  && BlocksFit(source, c.blockLimit).Unknown?)
            && forall r :: r in reasons ==>
                 r.CodecNotDecoded? || r.ContainerNotAccepted? || r.BlockSizeUnknown? || r.BlocksExceed?
  {
    hide BlocksFit, Constraints.AcceptsCodec, Constraints.AcceptsMime;
  }

  lemma BytesTell(source: Source, c: Constraints, limits: Ceilings, gain: bool)
    requires !MustTransform(source, limits, gain) && !(BytesUsable(source, c, limits, gain) && RemuxPossible(source, c))
    ensures var reasons := DecodeReasons(source, c);
            && InputsTold(reasons, source, c, limits, gain, Original) && BytesTold(reasons, source, c, limits, gain)
            && forall r :: r in reasons ==> IsInputReason(r) && !r.SelectedNotAccepted?
  {
    DecodeReasonsMembers(source, c);
    hide Exceeds, BlocksFit, BytesUsable, RemuxPossible, DecodeReasons;
    hide Constraints.AcceptsCodec, Constraints.AcceptsMime;
  }

  /** A choice that is not honoured is named first, and hides nothing. */
  lemma ChoiceIsNamed(more: seq<Reason>, source: Source, c: Constraints, limits: Ceilings, gain: bool, q: Quality)
    requires InputsTold(more, source, c, limits, gain, Original) && BytesTold(more, source, c, limits, gain)
    requires forall r :: r in more ==> IsInputReason(r) && !r.SelectedNotAccepted?
    ensures InputsTold(First(q) + more, source, c, limits, gain, q)
    ensures BytesTold(First(q) + more, source, c, limits, gain)
    ensures forall r :: r in First(q) + more ==> IsInputReason(r)
  {
    var first := First(q);
    assert forall r :: r in first <==> IsExplicitLossy(q) && r == SelectedNotAccepted(q);
    hide First, IsExplicitLossy, MustTransform, Exceeds, BytesUsable, BlocksFit, RemuxPossible;
    assert !IsExplicitLossy(Original);
    forall r ensures r in first + more <==> r in first || r in more {
    }
  }

  lemma FirstReasonsTell(source: Source, c: Constraints, limits: Ceilings, gain: bool, q: Quality)
    requires !(BytesUsable(source, c, limits, gain) && RemuxPossible(source, c))
    ensures var reasons := First(q) + FirstReasons(source, c, limits, gain);
            && InputsTold(reasons, source, c, limits, gain, q) && BytesTold(reasons, source, c, limits, gain)
            && forall r :: r in reasons ==> IsInputReason(r)
  {
    if MustTransform(source, limits, gain) {
      SamplesTell(source, c, limits, gain);
    } else {
      BytesTell(source, c, limits, gain);
    }
    ChoiceIsNamed(FirstReasons(source, c, limits, gain), source, c, limits, gain, q);
    hide InputsTold, BytesTold, IsInputReason, TransformReasons, DecodeReasons, First, BytesUsable;
  }

  /** Reasons of the outcome come after those of the inputs, and do not hide them. */
  lemma OutcomeKeepsInputs(first: seq<Reason>, more: seq<Reason>, source: Source, c: Constraints, limits: Ceilings,
                           gain: bool, q: Quality)
    requires InputsTold(first, source, c, limits, gain, q) && BytesTold(first, source, c, limits, gain)
    requires forall r :: r in more ==> !IsInputReason(r)
    ensures InputsTold(first + more, source, c, limits, gain, q) && BytesTold(first + more, source, c, limits, gain)
  {
    hide MustTransform, BytesUsable, BlocksFit;
  }

  /** What a decode adds to the reasons. */
  function DecodeMore(f: Format, source: Source, c: Constraints, limits: Ceilings): seq<Reason> {
    var target := TargetOf(source, limits);
    (if f.L16Pcm? && WorkingDepth(target, limits) > 16 then [L16IsSixteenBit] else [])
    + (if f.L16Pcm? && L16Limited(target.rate, c.l16Rates) then [L16RateLimited(L16Rate(target.rate, c.l16Rates))]
       else [])
    + (if f.Wav? && c.preferWav then [PrefersWav] else [])
  }

  lemma DecodeReasonsAre(f: Format, source: Source, c: Constraints, limits: Ceilings, operations: seq<Operation>,
                         reasons: seq<Reason>)
    requires f.Lossless()
    ensures DecodePlan(f, source, c, limits, operations, reasons).reasons == reasons + DecodeMore(f, source, c, limits)
  {
    hide DecodeSpec, WorkingDepth, L16Rate, TargetOf;
  }

  lemma DecodeMoreMembers(f: Format, source: Source, c: Constraints, limits: Ceilings)
    ensures var more := DecodeMore(f, source, c, limits);
            && (PrefersWav in more <==> f.Wav? && c.preferWav)
            && forall r :: r in more ==> r.PrefersWav? || r.L16IsSixteenBit? || r.L16RateLimited?
  {
    hide WorkingDepth, L16Rate, TargetOf;
  }

  /** Of the reasons that say something of the outcome, just the later ones count. */
  lemma LaterReasons(reasons: seq<Reason>, more: seq<Reason>, r: Reason)
    requires (forall i :: i in reasons ==> IsInputReason(i)) && !IsInputReason(r)
    ensures r in reasons + more <==> r in more
  {
    hide IsInputReason;
  }

  lemma OutcomeFrom(plan: Plan, reasons: seq<Reason>, more: seq<Reason>, c: Constraints, q: Quality)
    requires plan.reasons == reasons + more && forall r :: r in reasons ==> IsInputReason(r)
    requires NativeContainer in more <==> plan.action.Remux?
    requires NoLosslessAccepted in more <==> plan.action.Lossy?
    requires NothingCompatible in more <==> IsFallback(plan)
    requires PrefersWav in more <==> plan.action.Decode? && plan.output.format.Wav? && c.preferWav
    requires Compatible in more <==> plan.action.SendOriginal? && !IsFallback(plan) && !IsExplicitLossy(q)
    ensures OutcomeTold(plan, c, q)
  {
    LaterReasons(reasons, more, NativeContainer);
    LaterReasons(reasons, more, NoLosslessAccepted);
    LaterReasons(reasons, more, NothingCompatible);
    LaterReasons(reasons, more, PrefersWav);
    LaterReasons(reasons, more, Compatible);
    hide IsInputReason, IsFallback;
  }

  lemma DecodeReasonsTell(f: Format, source: Source, c: Constraints, limits: Ceilings, q: Quality,
                          operations: seq<Operation>, reasons: seq<Reason>) returns (more: seq<Reason>)
    requires f.Lossless() && forall r :: r in reasons ==> IsInputReason(r)
    ensures var plan := DecodePlan(f, source, c, limits, operations, reasons);
            plan.reasons == reasons + more && OutcomeTold(plan, c, q) && forall r :: r in more ==> !IsInputReason(r)
  {
    DecodeReasonsAre(f, source, c, limits, operations, reasons);
    DecodeMoreMembers(f, source, c, limits);
    DecodeIsNoFallback(f, source, c, limits, operations, reasons);
    SpecFormat(f, source, c, limits);
    assert DecodePlan(f, source, c, limits, operations, reasons).output == DecodeSpec(f, source, c, limits);
    more := DecodeMore(f, source, c, limits);
    assert forall r :: r in more ==> !IsInputReason(r);
    hide DecodeMore, DecodePlan, DecodeSpec, IsFallback, OutcomeTold, IsInputReason;
    OutcomeFrom(DecodePlan(f, source, c, limits, operations, reasons), reasons, more, c, q);
  }

  lemma LastResortIs(source: Source, c: Constraints, gain: bool, operations: seq<Operation>, reasons: seq<Reason>)
    ensures var plan := LastResort(source, c, gain, operations, reasons);
            && plan.reasons == reasons + [if LossyFamilyAllowed(c) then NoLosslessAccepted else NothingCompatible]
            && plan.action == (if LossyFamilyAllowed(c) then Lossy else SendOriginal)
            && (IsFallback(plan) <==> !LossyFamilyAllowed(c))
  {
    hide Family, LossySpec;
  }

  lemma LastReasonsTell(source: Source, c: Constraints, gain: bool, q: Quality, operations: seq<Operation>,
                        reasons: seq<Reason>) returns (more: seq<Reason>)
    requires forall r :: r in reasons ==> IsInputReason(r)
    ensures var plan := LastResort(source, c, gain, operations, reasons);
            plan.reasons == reasons + more && OutcomeTold(plan, c, q) && forall r :: r in more ==> !IsInputReason(r)
  {
    LastResortIs(source, c, gain, operations, reasons);
    more := [if LossyFamilyAllowed(c) then NoLosslessAccepted else NothingCompatible];
    hide LastResort, LossyFamilyAllowed, OutcomeTold, IsFallback;
    OutcomeFrom(LastResort(source, c, gain, operations, reasons), reasons, more, c, q);
  }

  /** A plan that re-encodes says why. */
  lemma ReencodedTells(source: Source, c: Constraints, limits: Ceilings, gain: bool, q: Quality)
    requires !(BytesUsable(source, c, limits, gain) && (c.AcceptsMime(source.mime) || RemuxPossible(source, c)))
    ensures var plan := ReencodePlan(source, c, limits, gain, First(q));
            && InputsTold(plan.reasons, source, c, limits, gain, q) && BytesTold(plan.reasons, source, c, limits, gain)
            && OutcomeTold(plan, c, q)
  {
    FirstReasonsTell(source, c, limits, gain, q);
    hide Family, DecodePlan, LastResort, InputsTold, BytesTold, OutcomeTold, TransformOperations, IsInputReason;
    hide TransformReasons, DecodeReasons, BytesUsable, First;
    var reasons, operations := First(q) + FirstReasons(source, c, limits, gain), FirstOperations(source, limits, gain);
    var more: seq<Reason>;
    if Chosen(c).Some? {
      DecodeOrderIsLossless(c);
      more := DecodeReasonsTell(Chosen(c).value, source, c, limits, q, operations, reasons);
    } else {
      more := LastReasonsTell(source, c, gain, q, operations, reasons);
    }
    OutcomeKeepsInputs(reasons, more, source, c, limits, gain, q);
  }

  /** Every plan says truly why it is what it is: an honoured lossy choice names itself, and any other plan names
      exactly the limits that the source exceeds, a gain, a choice not honoured, what the renderer does not take,
      and the last resort if it came to that. */
  lemma PlansTellTheirReasons(source: Source, c: Constraints, gain: bool, q: Quality)
    ensures var plan, limits := PlanFor(source, c, gain, q), EffectiveCeilings(source, c, q);
            if HonoursLossyChoice(c, q) then plan.reasons == [Selected(q)]
            else
              && InputsTold(plan.reasons, source, c, limits, gain, q)
              && BytesTold(plan.reasons, source, c, limits, gain) && OutcomeTold(plan, c, q)
  {
    var limits := EffectiveCeilings(source, c, q);
    if !HonoursLossyChoice(c, q) {
      if BytesServable(source, c, limits, gain) {
        ServedTells(source, c, limits, gain, q);
      } else {
        ReencodedTells(source, c, limits, gain, q);
      }
    }
    hide Family, EffectiveCeilings, InputsTold, BytesTold, OutcomeTold, BytesUsable, ReencodePlan;
  }

  lemma ServedTells(source: Source, c: Constraints, limits: Ceilings, gain: bool, q: Quality)
    requires BytesServable(source, c, limits, gain)
    ensures var plan := PlanWithin(source, c, limits, gain, First(q));
            && InputsTold(plan.reasons, source, c, limits, gain, q) && BytesTold(plan.reasons, source, c, limits, gain)
            && OutcomeTold(plan, c, q)
  {
    hide Family;
  }
}
