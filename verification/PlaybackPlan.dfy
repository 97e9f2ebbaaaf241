/** The playback planner: one track, one renderer, one output.

    Numbers that Python holds as `int | None` are naturals with 0 for None: every one of them comes
    through _positive_int, and the code only ever asks whether it is truthy. */
module PlaybackPlan {
  import opened Extremes
  import opened Text
  import opened Wrappers

  // ----- MIME families -----

  datatype MimeFamily = FLAC | WAV | L16 | MP3 | MP4 | OGG | AIFF | MKA | WEBM | WMA

  function FamilyOfBase(base: string): Option<MimeFamily> {
    if base in {"audio/flac", "audio/x-flac", "application/flac", "application/x-flac"} then Some(FLAC)
    else if base in {"audio/wav", "audio/x-wav", "audio/wave", "audio/vnd.wave", "audio/x-pn-wav"} then Some(WAV)
    else if base == "audio/l16" then Some(L16)
    else if base in {"audio/mpeg", "audio/mp3", "audio/mpeg3", "audio/x-mpeg", "audio/x-mp3"} then Some(MP3)
    else if base in {"audio/mp4", "audio/m4a", "audio/x-m4a", "audio/aac", "audio/x-aac"} then Some(MP4)
    else if base in {"audio/ogg", "audio/x-ogg", "application/ogg", "audio/opus", "audio/vorbis"} then Some(OGG)
    else if base in {"audio/aiff", "audio/x-aiff"} then Some(AIFF)
    else if base in {"audio/matroska", "audio/x-matroska"} then Some(MKA)
    else if base == "audio/webm" then Some(WEBM)
    else if base == "audio/x-ms-wma" then Some(WMA)
    else None
  }

  /** The family of a MIME type: parameters, surrounding blanks and case do not matter. */
  function Family(mime: string): Option<MimeFamily> {
    FamilyOfBase(Lower(Strip(Before(mime, ';'))))
  }

  // ----- Source and constraints -----

  const LOSSLESS_CODECS := {"flac", "alac", "pcm", "wavpack", "ape", "tta", "ofr", "dsd"}

  datatype Source = Source(
    codec: Option<string>,
    mime: string,
    rate: nat,
    depth: nat,
    channels: nat,
    minBlock: nat,
    maxBlock: nat)
  {
    predicate Lossless() { codec.Some? && codec.value in LOSSLESS_CODECS }
  }

  datatype Quality = Original | Flac2448 | Flac1648 | Mp3320 | Opus128

  datatype Constraints = Constraints(
    mimes: Option<set<string>>,
    codecs: Option<set<string>>,
    maxRate: nat,
    maxDepth: nat,
    maxChannels: nat,
    blockLimit: nat,
    preferWav: bool,
    allowLossy: bool,
    quality: string,
    l16Rates: set<nat>)
  {
    /** Nothing advertised, or a wildcard among what is: every family counts as accepted. */
    predicate Open() {
      mimes.None? || exists m :: m in mimes.value && m in {"*", "*/*", "audio/*"}
    }

    predicate AcceptsFamily(f: MimeFamily) {
      Open() || exists m :: m in mimes.value && Family(m) == Some(f)
    }

    predicate AcceptsCodec(codec: Option<string>) {
      codecs.None? || codec.None? || codec.value in codecs.value
    }

    predicate AcceptsMime(mime: string) {
      Family(mime).Some? && AcceptsFamily(Family(mime).value)
    }
  }

  function NormalizeQuality(value: string): Quality {
    var key := Lower(Strip(value));
    if key in {"flac_24_48", "high"} then Flac2448
    else if key in {"flac_16_48", "normal"} then Flac1648
    else if key == "mp3_320" then Mp3320
    else if key in {"opus_128", "mobile"} then Opus128
    else Original
  }

  /** The chosen quality: the request's, else the renderer's. */
  function ChosenQuality(c: Constraints, requested: string): Quality {
    NormalizeQuality(if requested != "" then requested else c.quality)
  }

  // ----- Outputs -----

  datatype Format = OriginalFormat | Flac | Wav | L16Pcm | Mp3 | Opus {
    predicate Lossless() { Flac? || Wav? || L16Pcm? }
  }

  datatype OutputSpec = OutputSpec(
    format: Format,
    mime: string,
    rate: nat,
    depth: nat,
    channels: nat,
    resample: bool,
    downmix: bool,
    block: nat,
    remux: bool,
    profile: Option<string>)

  datatype Action = SendOriginal | Remux | Decode | Lossy

  datatype Operation = Resample | ReduceDepth | Downmix | Normalize | MoveContainer | DecodeSamples | LossyEncode

  datatype Reason =
    | RateExceeds(rate: nat, max: nat)
    | DepthExceeds(depth: nat, max: nat)
    | ChannelsExceed(channels: nat, max: nat)
    | Loudness
    | Selected(quality: Quality)
    | SelectedNotAccepted(quality: Quality)
    | NativeContainer
    | CodecNotDecoded
    | ContainerNotAccepted
    | BlockSizeUnknown(limit: nat)
    | BlocksExceed(min: nat, max: nat, limit: nat)
    | L16IsSixteenBit
    | L16RateLimited(rate: nat)
    | PrefersWav
    | NoLosslessAccepted
    | NothingCompatible
    | Compatible

  datatype Plan = Plan(
    output: OutputSpec,
    action: Action,
    operations: seq<Operation>,
    reasons: seq<Reason>,
    lossless: bool)

  function FormatFamily(f: Format): MimeFamily
    requires !f.OriginalFormat?
  {
    match f
    case Flac => FLAC
    case Wav => WAV
    case L16Pcm => L16
    case Mp3 => MP3
    case Opus => OGG
  }

  function LossyFormat(q: Quality): Format
    requires q.Mp3320? || q.Opus128?
  {
    if q.Mp3320? then Mp3 else Opus
  }

  function LossySpec(q: Quality, source: Source): OutputSpec
    requires q.Mp3320? || q.Opus128?
  {
    var channels := if source.channels == 0 then 2 else Min(source.channels, 2);
    if q.Mp3320? then OutputSpec(Mp3, "audio/mpeg", 48000, 0, channels, false, false, 0, false, Some("mp3_320"))
    else OutputSpec(Opus, "audio/ogg", 48000, 0, channels, false, false, 0, false, Some("opus_128"))
  }

  function OriginalSpec(source: Source): OutputSpec {
    OutputSpec(OriginalFormat, source.mime, 0, 0, 0, false, false, 0, false, None)
  }

  function Min(a: nat, b: nat): nat { if a <= b then a else b }

  function Max(a: nat, b: nat): nat { if a >= b then a else b }

  // ----- Ceilings -----

  /** Upper limits on the output, 0 for none. */
  datatype Ceilings = Ceilings(rate: nat, depth: nat, channels: nat)

  const DSD_PCM_RATE := 176400

  /** The lower of two limits, 0 standing for no limit. */
  function Tighter(a: nat, b: nat): nat {
    if a == 0 then b else if b == 0 then a else Min(a, b)
  }

  /** The renderer's limits, a lossless quality profile and the DSD cap taken together. */
  function EffectiveCeilings(source: Source, c: Constraints, quality: Quality): Ceilings {
    Ceilings(
      Tighter(Tighter(c.maxRate, if quality.Flac2448? || quality.Flac1648? then 48000 else 0),
              if source.codec == Some("dsd") then DSD_PCM_RATE else 0),
      Tighter(c.maxDepth, if quality.Flac2448? then 24 else if quality.Flac1648? then 16 else 0),
      c.maxChannels)
  }

  predicate Exceeds(value: nat, limit: nat) { value != 0 && limit != 0 && value > limit }

  function RateFamily(sourceRate: nat): nat { if sourceRate % 44100 == 0 then 44100 else 48000 }

  /** The first multiple of the source's base rate, of 8, 4, 2 and 1, within the limit; else the limit. */
  function TargetRate(sourceRate: nat, maxRate: nat): nat {
    var base := RateFamily(sourceRate);
    if 8 * base <= maxRate then 8 * base
    else if 4 * base <= maxRate then 4 * base
    else if 2 * base <= maxRate then 2 * base
    else if base <= maxRate then base
    else maxRate
  }

  datatype Tri = Yes | No | Unknown

  /** Whether the source's FLAC blocks are fixed and small enough. */
  function BlocksFit(source: Source, limit: nat): Tri {
    if limit == 0 || source.codec != Some("flac") then Yes
    else if source.minBlock == 0 || source.maxBlock == 0 then Unknown
    else if source.minBlock == source.maxBlock && source.maxBlock <= limit then Yes
    else No
  }

  const FLAC_BLOCK_SIZES: seq<nat> := [4608, 4096, 2304, 2048, 1152, 1024, 576, 512, 256, 192]

  /** The largest standard block size within the limit, or the smallest one there is. */
  function BlockSizeUnder(limit: nat): (size: nat)
    ensures size in FLAC_BLOCK_SIZES
    ensures limit >= 192 ==> size <= limit && forall b :: b in FLAC_BLOCK_SIZES && b <= limit ==> b <= size
    ensures limit < 192 ==> size == 192
  {
    if limit >= 4608 then 4608 else if limit >= 4096 then 4096 else if limit >= 2304 then 2304
    else if limit >= 2048 then 2048 else if limit >= 1152 then 1152 else if limit >= 1024 then 1024
    else if limit >= 576 then 576 else if limit >= 512 then 512 else if limit >= 256 then 256 else 192
  }

  // ----- What a plan is, case by case -----

  /** The samples that would reach the renderer: every limit applied to the source. */
  datatype Target = Target(rate: nat, depth: nat, channels: nat)

  function TargetOf(source: Source, limits: Ceilings): Target {
    Target(
      if Exceeds(source.rate, limits.rate) then TargetRate(source.rate, limits.rate) else source.rate,
      if !source.Lossless() then 0 else if Exceeds(source.depth, limits.depth) then limits.depth else source.depth,
      if Exceeds(source.channels, limits.channels) then limits.channels else source.channels)
  }

  /** Whether the samples themselves have to change. */
  predicate MustTransform(source: Source, limits: Ceilings, gain: bool) {
    || Exceeds(source.rate, limits.rate)
    || (source.Lossless() && Exceeds(source.depth, limits.depth))
    || Exceeds(source.channels, limits.channels)
    || gain
  }

  function TransformOperations(source: Source, limits: Ceilings, gain: bool): seq<Operation> {
    (if Exceeds(source.rate, limits.rate) then [Resample] else [])
    + (if source.Lossless() && Exceeds(source.depth, limits.depth) then [ReduceDepth] else [])
    + (if Exceeds(source.channels, limits.channels) then [Downmix] else [])
    + (if gain then [Normalize] else [])
  }

  function TransformReasons(source: Source, limits: Ceilings, gain: bool): seq<Reason> {
    (if Exceeds(source.rate, limits.rate) then [RateExceeds(source.rate, limits.rate)] else [])
    + (if source.Lossless() && Exceeds(source.depth, limits.depth) then
         [DepthExceeds(source.depth, limits.depth)]
       else [])
    + (if Exceeds(source.channels, limits.channels) then [ChannelsExceed(source.channels, limits.channels)] else [])
    + (if gain then [Loudness] else [])
  }

  /** The codec bytes can go out unchanged: in the same container, or moved to a native FLAC one. */
  predicate BytesUsable(source: Source, c: Constraints, limits: Ceilings, gain: bool) {
    && !MustTransform(source, limits, gain)
    && c.AcceptsCodec(source.codec)
    && BlocksFit(source, c.blockLimit).Yes?
  }

  predicate RemuxPossible(source: Source, c: Constraints) {
    source.codec == Some("flac") && c.AcceptsFamily(FLAC)
  }

  function DecodeOrder(c: Constraints): seq<Format> {
    if c.preferWav then [Wav, Flac, L16Pcm] else [Flac, Wav, L16Pcm]
  }

  /** The first lossless format, in order of preference, that the renderer accepts. */
  function FirstAccepted(order: seq<Format>, c: Constraints): (f: Option<Format>)
    requires forall i :: 0 <= i < |order| ==> !order[i].OriginalFormat?
    ensures f.Some? ==> f.value in order && c.AcceptsFamily(FormatFamily(f.value))
    ensures f.None? ==> forall i :: 0 <= i < |order| ==> !c.AcceptsFamily(FormatFamily(order[i]))
  {
    if order == [] then None
    else if c.AcceptsFamily(FormatFamily(order[0])) then Some(order[0])
    else FirstAccepted(order[1..], c)
  }

  /** Why bytes that need no transformation are decoded all the same. */
  function DecodeReasons(source: Source, c: Constraints): seq<Reason> {
    if !c.AcceptsCodec(source.codec) then [CodecNotDecoded]
    else if !c.AcceptsMime(source.mime) then [ContainerNotAccepted]
    else match BlocksFit(source, c.blockLimit)
      case Unknown => [BlockSizeUnknown(c.blockLimit)]
      case No => [BlocksExceed(source.minBlock, source.maxBlock, c.blockLimit)]
      case Yes => []
  }

  function WorkingDepth(target: Target, limits: Ceilings): nat {
    var depth := Max(if target.depth != 0 then target.depth else 16, 16);
    if limits.depth != 0 then Min(depth, limits.depth) else depth
  }

  /** The rate an L16 renderer gets: the nearest listed one not above the target, else the lowest listed. */
  function L16Rate(target: nat, rates: set<nat>): (rate: nat)
    ensures rates != {} && target != 0 ==> rate in rates
    ensures rate <= target <==> rates == {} || target == 0 || exists r :: r in rates && r <= target
    ensures rates != {} && target != 0 ==> forall r :: r in rates && r <= target ==> r <= rate
    ensures rates != {} && rate > target != 0 ==> forall r :: r in rates ==> rate <= r
    ensures rates == {} || target == 0 ==> rate == target
  {
    if rates == {} || target == 0 || target in rates then target
    else
      var below := set r | r in rates && r <= target;
      if below != {} then
        assert forall r :: r in rates && r <= target ==> r in below;
        MaxOf(below)
      else
        assert forall r :: r in rates && r <= target ==> r in below;
        MinOf(rates)
  }

  predicate L16Limited(target: nat, rates: set<nat>) { rates != {} && target != 0 && target !in rates }

  /** The bit depth a decode to `f` writes in its spec. */
  function SpecDepth(f: Format, depth: nat): nat {
    match f
    case L16Pcm => Min(depth, 16)
    case Wav => if depth in {16, 24, 32} then depth else if depth < 16 then 16 else 24
    case _ => Min(depth, 24)
  }

  function L16Parameters(rate: nat, channels: nat): string { "rate=" + Dec(rate) + ";channels=" + Dec(channels) }

  function L16Mime(rate: nat, channels: nat): string {
    "audio/L16" + [';'] + L16Parameters(if rate == 0 then 44100 else rate, if channels == 0 then 2 else channels)
  }

  function DecodeSpec(f: Format, source: Source, c: Constraints, limits: Ceilings): OutputSpec
    requires f.Lossless()
  {
    var target := TargetOf(source, limits);
    var rate := if f.L16Pcm? then L16Rate(target.rate, c.l16Rates) else target.rate;
    OutputSpec(
      f,
      if f.Flac? then "audio/flac" else if f.Wav? then "audio/wav" else L16Mime(rate, target.channels),
      rate,
      SpecDepth(f, WorkingDepth(target, limits)),
      target.channels,
      target.rate != source.rate || (f.L16Pcm? && L16Limited(target.rate, c.l16Rates)),
      target.channels != source.channels,
      if f.Flac? && c.blockLimit != 0 then BlockSizeUnder(c.blockLimit) else 0,
      false,
      None)
  }

  function RemuxSpec(source: Source): OutputSpec {
    OutputSpec(Flac, "audio/flac", source.rate, source.depth, source.channels, false, false, 0, true, None)
  }

  function DecodePlan(f: Format, source: Source, c: Constraints, limits: Ceilings,
                      operations: seq<Operation>, reasons: seq<Reason>): Plan
    requires f.Lossless()
  {
    var target := TargetOf(source, limits);
    var deep := f.L16Pcm? && WorkingDepth(target, limits) > 16;
    var limited := f.L16Pcm? && L16Limited(target.rate, c.l16Rates);
    Plan(
      DecodeSpec(f, source, c, limits),
      Decode,
      operations + (if deep then [ReduceDepth] else []) + (if limited then [Resample] else []),
      reasons + (if deep then [L16IsSixteenBit] else [])
      + (if limited then [L16RateLimited(L16Rate(target.rate, c.l16Rates))] else [])
      + (if f.Wav? && c.preferWav then [PrefersWav] else []),
      source.Lossless())
  }

  function LossyPlan(q: Quality, source: Source, gain: bool, operations: seq<Operation>, reasons: seq<Reason>): Plan
    requires q.Mp3320? || q.Opus128?
  {
    Plan(LossySpec(q, source), Lossy, operations + [LossyEncode] + (if gain then [Normalize] else []), reasons, false)
  }

  predicate IsExplicitLossy(q: Quality) { q.Mp3320? || q.Opus128? }

  /** An explicit lossy choice that the renderer accepts. */
  predicate HonoursLossyChoice(c: Constraints, q: Quality) {
    IsExplicitLossy(q) && c.AcceptsFamily(FormatFamily(LossyFormat(q)))
  }

  /** The plan, as a choice between six outcomes. */
  function PlanFor(source: Source, c: Constraints, gain: bool, q: Quality): Plan {
    if HonoursLossyChoice(c, q) then LossyPlan(q, source, gain, [], [Selected(q)])
    else
      PlanWithin(source, c, EffectiveCeilings(source, c, q), gain,
        if IsExplicitLossy(q) then [SelectedNotAccepted(q)] else [])
  }

  /** The plan under given ceilings; `first` says what has been rejected already. */
  function PlanWithin(source: Source, c: Constraints, limits: Ceilings, gain: bool, first: seq<Reason>): Plan {
    if BytesUsable(source, c, limits, gain) && c.AcceptsMime(source.mime) then
      Plan(OriginalSpec(source), SendOriginal, [], if first == [] then [Compatible] else first, source.Lossless())
    else if BytesUsable(source, c, limits, gain) && RemuxPossible(source, c) then
      Plan(RemuxSpec(source), Remux, [MoveContainer], first + [NativeContainer], true)
    else
      ReencodePlan(source, c, limits, gain, first)
  }

  /** The plan once the source's own bytes are ruled out. */
  function ReencodePlan(source: Source, c: Constraints, limits: Ceilings, gain: bool, first: seq<Reason>): Plan {
    if MustTransform(source, limits, gain) then
      Reencoded(source, c, limits, gain, TransformOperations(source, limits, gain),
        first + TransformReasons(source, limits, gain))
    else
      Reencoded(source, c, limits, gain, [DecodeSamples], first + DecodeReasons(source, c))
  }

  function Reencoded(source: Source, c: Constraints, limits: Ceilings, gain: bool,
                     operations: seq<Operation>, reasons: seq<Reason>): Plan
  {
    match FirstAccepted(DecodeOrder(c), c)
    case Some(f) => DecodePlan(f, source, c, limits, operations, reasons)
    case None => LastResort(source, c, gain, operations, reasons)
  }

  /** No lossless format is accepted: a lossy one if allowed, else the original and hope. */
  function LastResort(source: Source, c: Constraints, gain: bool, operations: seq<Operation>, reasons: seq<Reason>)
    : Plan
  {
    if c.allowLossy && c.AcceptsFamily(MP3) then
      LossyPlan(Mp3320, source, gain, operations, reasons + [NoLosslessAccepted])
    else if c.allowLossy && c.AcceptsFamily(OGG) then
      LossyPlan(Opus128, source, gain, operations, reasons + [NoLosslessAccepted])
    else
      Plan(OriginalSpec(source), SendOriginal, operations, reasons + [NothingCompatible], source.Lossless())
  }

  /** The planner's limits: the renderer's, narrowed by a lossless profile and by the DSD cap. */
  method FindLimits(source: Source, c: Constraints, quality: Quality) returns (maxRate: nat, maxDepth: nat)
    ensures Ceilings(maxRate, maxDepth, c.maxChannels) == EffectiveCeilings(source, c, quality)
  {
    maxRate, maxDepth := c.maxRate, c.maxDepth;
    if quality.Flac2448? || quality.Flac1648? {
      maxRate := Min(if maxRate != 0 then maxRate else 48000, 48000);
      var profileDepth := if quality.Flac2448? then 24 else 16;
      maxDepth := Min(if maxDepth != 0 then maxDepth else profileDepth, profileDepth);
    }
    if source.codec == Some("dsd") {
      maxRate := Min(if maxRate != 0 then maxRate else DSD_PCM_RATE, DSD_PCM_RATE);
    }
  }

  /** What has to change whatever the container, collected in order. */
  method FindChanges(source: Source, limits: Ceilings, gain: bool, first: seq<Reason>)
    returns (target: Target, operations: seq<Operation>, reasons: seq<Reason>)
    ensures target == TargetOf(source, limits)
    ensures operations == TransformOperations(source, limits, gain)
    ensures reasons == first + TransformReasons(source, limits, gain)
    ensures operations != [] <==> MustTransform(source, limits, gain)
    ensures operations == [] ==> reasons == first
  {
    operations, reasons := [], first;
    var targetRate := source.rate;
    if source.rate != 0 && limits.rate != 0 && source.rate > limits.rate {
      targetRate := TargetRate(source.rate, limits.rate);
      reasons := reasons + [RateExceeds(source.rate, limits.rate)];
      operations := operations + [Resample];
    }
    var targetDepth := if source.Lossless() then source.depth else 0;
    if targetDepth != 0 && limits.depth != 0 && targetDepth > limits.depth {
      reasons := reasons + [DepthExceeds(targetDepth, limits.depth)];
      targetDepth := limits.depth;
      operations := operations + [ReduceDepth];
    }
    var targetChannels := source.channels;
    if source.channels != 0 && limits.channels != 0 && source.channels > limits.channels {
      reasons := reasons + [ChannelsExceed(source.channels, limits.channels)];
      targetChannels := limits.channels;
      operations := operations + [Downmix];
    }
    if gain {
      reasons := reasons + [Loudness];
      operations := operations + [Normalize];
    }
    target := Target(targetRate, targetDepth, targetChannels);
  }

  /** The planner as the source writes it: limits, operations and reasons accumulate along the way. */
  method PlanPlayback(source: Source, c: Constraints, gain: bool, requested: string) returns (plan: Plan)
    ensures plan == PlanFor(source, c, gain, ChosenQuality(c, requested))
  {
    var quality := ChosenQuality(c, requested);
    plan := PlanWithQuality(source, c, gain, quality);
  }

  method PlanWithQuality(source: Source, c: Constraints, gain: bool, quality: Quality) returns (plan: Plan)
    ensures plan == PlanFor(source, c, gain, quality)
  {
    var first: seq<Reason> := [];
    if IsExplicitLossy(quality) {
      if c.AcceptsFamily(FormatFamily(LossyFormat(quality))) {
        assert HonoursLossyChoice(c, quality);
        return LossyPlan(quality, source, gain, [], [Selected(quality)]);
      }
      first := [SelectedNotAccepted(quality)];
    }
    assert !HonoursLossyChoice(c, quality);
    var maxRate, maxDepth := FindLimits(source, c, quality);
    plan := PlanUnder(source, c, Ceilings(maxRate, maxDepth, c.maxChannels), gain, first);
  }

  method PlanUnder(source: Source, c: Constraints, limits: Ceilings, gain: bool, first: seq<Reason>)
    returns (plan: Plan)
    ensures plan == PlanWithin(source, c, limits, gain, first)
  {
    var target, operations, reasons := FindChanges(source, limits, gain, first);
    var containerOk := c.AcceptsMime(source.mime);
    var codecOk := c.AcceptsCodec(source.codec);
    var blockOk := BlocksFit(source, c.blockLimit);
    if operations == [] {
      if codecOk && blockOk.Yes? {
        if containerOk {
          return Plan(OriginalSpec(source), SendOriginal, operations,
                      if reasons == [] then [Compatible] else reasons, source.Lossless());
        }
        if source.codec == Some("flac") && c.AcceptsFamily(FLAC) {
          return Plan(RemuxSpec(source), Remux, [MoveContainer], reasons + [NativeContainer], true);
        }
      }
      reasons := ExplainDecode(source, c, containerOk, codecOk, blockOk, reasons);
      operations := [DecodeSamples];
    }
    plan := Reencode(source, c, limits, gain, target, operations, reasons);
  }

  /** Why the bytes are decoded although nothing in them has to change. */
  method ExplainDecode(source: Source, c: Constraints, containerOk: bool, codecOk: bool, blockOk: Tri,
                       reasons: seq<Reason>)
    returns (why: seq<Reason>)
    requires containerOk == c.AcceptsMime(source.mime)
    requires codecOk == c.AcceptsCodec(source.codec) && blockOk == BlocksFit(source, c.blockLimit)
    ensures why == reasons + DecodeReasons(source, c)
  {
    hide Family, BlocksFit;
    why := reasons;
    if !codecOk {
      why := why + [CodecNotDecoded];
    } else if !containerOk {
      why := why + [ContainerNotAccepted];
    } else if blockOk.Unknown? {
      why := why + [BlockSizeUnknown(c.blockLimit)];
    } else if blockOk.No? {
      why := why + [BlocksExceed(source.minBlock, source.maxBlock, c.blockLimit)];
    }
  }

  method Reencode(source: Source, c: Constraints, limits: Ceilings, gain: bool,
                  target: Target, operations: seq<Operation>, reasons: seq<Reason>) returns (plan: Plan)
    requires target == TargetOf(source, limits)
    ensures plan == Reencoded(source, c, limits, gain, operations, reasons)
  {
    var order := if c.preferWav then [Wav, Flac, L16Pcm] else [Flac, Wav, L16Pcm];
    var depth := if target.depth != 0 then target.depth
                 else if source.Lossless() && source.depth != 0 then source.depth else 16;
    depth := Max(depth, 16);
    depth := if limits.depth != 0 then Min(depth, limits.depth) else depth;
    for i := 0 to |order|
      invariant FirstAccepted(order, c) == FirstAccepted(order[i..], c)
    {
      var fmt := order[i];
      if c.AcceptsFamily(FormatFamily(fmt)) {
        plan := DecodeTo(fmt, source, c, limits, target.rate, depth, target.channels, operations, reasons);
        return plan;
      }
    }
    plan := GiveUpLossless(source, c, gain, operations, reasons);
  }

  method GiveUpLossless(source: Source, c: Constraints, gain: bool, operations: seq<Operation>, reasons: seq<Reason>)
    returns (plan: Plan)
    ensures plan == LastResort(source, c, gain, operations, reasons)
  {
    hide Family, LossyPlan, OriginalSpec;
    if c.allowLossy {
      if c.AcceptsFamily(FormatFamily(Mp3)) {
        return LossyPlan(Mp3320, source, gain, operations, reasons + [NoLosslessAccepted]);
      }
      if c.AcceptsFamily(FormatFamily(Opus)) {
        return LossyPlan(Opus128, source, gain, operations, reasons + [NoLosslessAccepted]);
      }
    }
    return Plan(OriginalSpec(source), SendOriginal, operations, reasons + [NothingCompatible], source.Lossless());
  }

  /** The body of the planner's loop once a format is accepted. */
  method DecodeTo(fmt: Format, source: Source, c: Constraints, ghost limits: Ceilings, targetRate: nat, depth: nat,
                  targetChannels: nat, operations: seq<Operation>, reasons: seq<Reason>) returns (plan: Plan)
    requires fmt.Lossless()
    requires var t := TargetOf(source, limits);
             targetRate == t.rate && targetChannels == t.channels && depth == WorkingDepth(t, limits)
    ensures plan == DecodePlan(fmt, source, c, limits, operations, reasons)
  {
    hide L16Mime, BlockSizeUnder, L16Rate, TargetOf, WorkingDepth;
    var ops, why := operations, reasons;
    var outRate, outDepth := targetRate, depth;
    var resample := targetRate != source.rate;
    if fmt.L16Pcm? {
      if outDepth > 16 {
        why := why + [L16IsSixteenBit];
        ops := ops + [ReduceDepth];
        outDepth := 16;
      }
      if c.l16Rates != {} && outRate != 0 && outRate !in c.l16Rates {
        outRate := ListedRate(outRate, c.l16Rates);
        resample := true;
        why := why + [L16RateLimited(outRate)];
        ops := ops + [Resample];
      }
    } else if fmt.Wav? && outDepth !in {16, 24, 32} {
      outDepth := if outDepth < 16 then 16 else 24;
    } else if fmt.Flac? && outDepth > 24 {
      outDepth := 24;
    }
    if fmt.Wav? && c.preferWav {
      why := why + [PrefersWav];
    }
    var spec := OutputSpec(
      fmt, if fmt.Flac? then "audio/flac" else if fmt.Wav? then "audio/wav" else L16Mime(outRate, targetChannels),
      outRate, outDepth, targetChannels, resample, targetChannels != source.channels,
      if fmt.Flac? && c.blockLimit != 0 then BlockSizeUnder(c.blockLimit) else 0, false, None);
    assert spec == DecodeSpec(fmt, source, c, limits);
    return Plan(spec, Decode, ops, why, source.Lossless());
  }

  /** The last of the sorted rates not above the target, else the first of all of them. */
  method ListedRate(target: nat, rates: set<nat>) returns (rate: nat)
    requires L16Limited(target, rates)
    ensures rate == L16Rate(target, rates)
  {
    var allowed := set r | r in rates && r <= target;
    if allowed == {} {
      assert forall r :: r in rates && r <= target ==> r in allowed;
      allowed := rates;
    }
    rate := if MaxOf(allowed) <= target then MaxOf(allowed) else MinOf(allowed);
  }
}
