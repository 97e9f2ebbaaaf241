/** The names of rendered files in the stream cache, from all three places that make them, and what each
    file holds. Names are for one track and one content fingerprint, which every name starts with. */
module RenderCache {
  import opened Wrappers
  import opened Text
  import opened PlaybackPlan
  import opened OutputSpecs

  datatype GainMode = Track | Album

  /** A gain as it is printed, to three decimals; a negative zero is possible. */
  datatype Gain = Gain(negative: bool, thousandths: nat)

  function ModeName(mode: GainMode): string { if mode.Track? then "track" else "album" }

  function GainText(g: Gain): string {
    (if g.negative then "-" else "") + Dec(g.thousandths / 1000) + "."
    + [Digit(g.thousandths / 100 % 10), Digit(g.thousandths / 10 % 10), Digit(g.thousandths % 10)]
  }

  /** Dots and dashes do not go into a key. */
  function SafeChar(c: char): char { if c == '.' then '_' else if c == '-' then 'm' else c }

  function Safe(s: string): (r: string)
    ensures |r| == |s| && forall i :: 0 <= i < |s| ==> r[i] == SafeChar(s[i])
  {
    seq(|s|, i requires 0 <= i < |s| => SafeChar(s[i]))
  }

  function QualityName(q: Quality): string {
    match q
    case Original => "original"
    case Flac2448 => "flac_24_48"
    case Flac1648 => "flac_16_48"
    case Mp3320 => "mp3_320"
    case Opus128 => "opus_128"
  }

  function QualityExtension(q: Quality): string {
    match q
    case Original => ""
    case Mp3320 => "mp3"
    case Opus128 => "opus"
    case _ => "flac"
  }

  /** A request that renders into the cache: a plain quality profile, a loudness-normalized profile, or a
      planned renderer output with its gain if any. */
  datatype Request =
    | Profile(quality: Quality)
    | Normalized(quality: Quality, mode: GainMode, gain: Gain, sourceDepth: nat)
    | Planned(spec: OutputSpec, applied: Option<(GainMode, Gain)>)

  function GainKey(mode: GainMode, g: Gain): string { Safe("gain-" + ModeName(mode) + "-" + GainText(g)) }

  function GainSuffix(applied: Option<(GainMode, Gain)>): string {
    if applied.None? then "" else Safe("-gain-" + ModeName(applied.value.0) + "-" + GainText(applied.value.1))
  }

  /** The end of the file name, after the track and the fingerprint. */
  function FileName(request: Request): string {
    match request
    case Profile(q) => QualityName(q) + ['.'] + QualityExtension(q)
    case Normalized(q, mode, gain, depth) =>
      if q.Original? then
        QualityName(q) + ['-'] + (GainKey(mode, gain) + ['-'] + (['b'] + Dec(depth))) + ['.'] + "flac"
      else
        QualityName(q) + ['-'] + GainKey(mode, gain) + ['.'] + QualityExtension(q)
    case Planned(spec, applied) =>
      QualityName(Original) + ['-'] + (CacheKey(spec) + GainSuffix(applied)) + ['.'] + Extension(spec.format)
  }

  function VolumeFilter(g: Gain): seq<string> { ["-filter:a", "volume=" + GainText(g) + "dB"] }

  /** Keeping the source's depth when "original" quality is normalized. */
  function OriginalEncodeArgs(depth: nat): seq<string> {
    ["-map", "0:a:0", "-vn", "-c:a", "flac", "-compression_level", "5"]
    + (if depth > 16 then ["-sample_fmt", "s32", "-bits_per_raw_sample", "24"]
       else if depth > 0 then ["-sample_fmt", "s16"] else [])
  }

  /** Encoder arguments with the volume filter; None when the profile table has no such entry. */
  function Arguments(request: Request): Option<seq<string>> {
    match request
    case Profile(q) => ProfileArgs(QualityName(q))
    case Normalized(q, _, gain, depth) =>
      if q.Original? then Some(OriginalEncodeArgs(depth) + VolumeFilter(gain))
      else With(ProfileArgs(QualityName(q)), VolumeFilter(gain))
    case Planned(spec, applied) =>
      With(FfmpegArgs(spec), if applied.Some? then VolumeFilter(applied.value.1) else [])
  }

  function With(args: Option<seq<string>>, more: seq<string>): Option<seq<string>> {
    if args.None? then None else Some(args.value + more)
  }

  /** Specs that are rendered: not the original bytes, and a profile just for the lossy formats. */
  predicate Keyed(spec: OutputSpec) {
    && !spec.format.OriginalFormat?
    && (spec.format.Lossless() ==> spec.profile.None?)
    && (!spec.format.Lossless() ==> spec.profile in {Some("mp3_320"), Some("opus_128")})
  }

  predicate Cached(request: Request) {
    match request
    case Profile(q) => !q.Original?
    case Normalized(_, _, _, _) => true
    case Planned(spec, _) => Keyed(spec)
  }

  // ----- Gain text -----

  predicate NumberChar(c: char) { IsDigit(c) || c == '.' || c == '-' }

  lemma GainTextIsNumber(g: Gain)
    ensures forall i :: 0 <= i < |GainText(g)| ==> NumberChar(GainText(g)[i])
  {
  }

  lemma SafeInjective(s: string, t: string)
    requires forall i :: 0 <= i < |s| ==> NumberChar(s[i])
    requires forall i :: 0 <= i < |t| ==> NumberChar(t[i])
    requires Safe(s) == Safe(t)
    ensures s == t
  {
  }

  lemma SafeAppend(s: string, t: string)
    ensures Safe(s + t) == Safe(s) + Safe(t)
  {
  }

  /** The gain key determines the mode and the printed gain. */
  lemma GainKeyInjective(mode: GainMode, g: Gain, mode': GainMode, g': Gain)
    requires GainKey(mode, g) == GainKey(mode', g')
    ensures mode == mode' && GainText(g) == GainText(g')
  {
    hide GainText;
    var head, head' := "gain-" + ModeName(mode) + "-", "gain-" + ModeName(mode') + "-";
    assert |head| == 11 == |head'|;
    SafeAppend(head, GainText(g));
    SafeAppend(head', GainText(g'));
    assert Safe(head) == GainKey(mode, g)[..11] == GainKey(mode', g')[..11] == Safe(head');
    assert Safe(head)[5] == Safe(head')[5] && head[5] == ModeName(mode)[0] && head'[5] == ModeName(mode')[0];
    assert Safe(GainText(g)) == GainKey(mode, g)[11..] == GainKey(mode', g')[11..] == Safe(GainText(g'));
    GainTextIsNumber(g);
    GainTextIsNumber(g');
    SafeInjective(GainText(g), GainText(g'));
  }

  lemma GainSuffixShape(mode: GainMode, g: Gain)
    ensures GainSuffix(Some((mode, g))) == "m" + GainKey(mode, g)
    ensures GainKey(mode, g)[0] == 'g'
  {
  }
}
