/** What an output spec becomes: stream-token claims and back, a cache key, and encoder arguments. */
module OutputSpecs {
  import opened Wrappers
  import opened Text
  import opened PlaybackPlan

  // ----- Names -----

  function FormatName(f: Format): string {
    match f
    case OriginalFormat => "original"
    case Flac => "flac"
    case Wav => "wav"
    case L16Pcm => "l16"
    case Mp3 => "mp3"
    case Opus => "opus"
  }

  function ParseFormat(name: string): Option<Format> {
    if name == "original" then Some(OriginalFormat)
    else if name == "flac" then Some(Flac)
    else if name == "wav" then Some(Wav)
    else if name == "l16" then Some(L16Pcm)
    else if name == "mp3" then Some(Mp3)
    else if name == "opus" then Some(Opus)
    else None
  }

  function DefaultMime(f: Format): string {
    match f
    case Flac => "audio/flac"
    case Wav => "audio/wav"
    case Mp3 => "audio/mpeg"
    case Opus => "audio/ogg"
    case _ => ""
  }

  function Extension(f: Format): string {
    match f
    case Flac => "flac"
    case Wav => "wav"
    case L16Pcm => "pcm"
    case Mp3 => "mp3"
    case Opus => "opus"
    case OriginalFormat => "bin"
  }

  // ----- Stream-token claims -----

  /** The claims a spec contributes; None is a key the token does not carry. */
  datatype Claims = Claims(
    out: Option<string>,
    mime: Option<string>,
    rate: Option<int>,
    depth: Option<int>,
    channels: Option<int>,
    block: Option<int>,
    remux: Option<bool>,
    profile: Option<string>)

  /** 0 is None here, and a None is dropped. */
  function Known(n: nat): Option<int> { if n == 0 then None else Some(n) }

  function TokenClaims(spec: OutputSpec): Claims {
    if spec.format.OriginalFormat? then
      Claims(Some("original"), Some(spec.mime), None, None, None, None, None, None)
    else
      Claims(
        Some(FormatName(spec.format)), Some(spec.mime),
        if spec.resample then Known(spec.rate) else None,
        Known(spec.depth),
        if spec.downmix then Known(spec.channels) else None,
        Known(spec.block),
        if spec.remux then Some(true) else None,
        spec.profile)
  }

  function PositiveInt(value: Option<int>): nat {
    if value.Some? && value.value > 0 then value.value else 0
  }

  /** Reading any claims at all: a missing or unknown format is no planned output. */
  function FromClaims(claims: Claims): Option<OutputSpec> {
    if claims.out.None? || ParseFormat(claims.out.value).None? then None
    else
      var f := ParseFormat(claims.out.value).value;
      Some(OutputSpec(
        f,
        if claims.mime.Some? && claims.mime.value != "" then claims.mime.value else DefaultMime(f),
        PositiveInt(claims.rate),
        PositiveInt(claims.depth),
        PositiveInt(claims.channels),
        PositiveInt(claims.rate) != 0,
        PositiveInt(claims.channels) != 0,
        PositiveInt(claims.block),
        claims.remux == Some(true),
        claims.profile))
  }

  // ----- Cache key -----

  /** The dash-joined fields of the cache key, each present only when it changes the rendering. */
  function Fields(spec: OutputSpec): seq<string> {
    ["out", FormatName(spec.format)]
    + (if spec.remux then ["remux"] else [])
    + Tagged('r', if spec.resample then spec.rate else 0)
    + Tagged('b', spec.depth)
    + Tagged('c', if spec.downmix then spec.channels else 0)
    + Tagged('k', spec.block)
    + (if spec.profile.Some? && spec.profile.value != "" then [spec.profile.value] else [])
  }

  function Tagged(tag: char, n: nat): seq<string> { if n == 0 then [] else [[tag] + Dec(n)] }

  function CacheKey(spec: OutputSpec): string { Join(Fields(spec), '-') }

  method AppendField(parts: seq<string>, tag: char, n: nat) returns (longer: seq<string>)
    ensures longer == parts + Tagged(tag, n)
  {
    longer := parts;
    if n != 0 {
      longer := longer + [[tag] + Dec(n)];
    }
  }

  method BuildCacheKey(spec: OutputSpec) returns (key: string)
    ensures key == CacheKey(spec)
  {
    hide Dec, FormatName, Join, Tagged;
    var parts := ["out", FormatName(spec.format)];
    if spec.remux {
      parts := parts + ["remux"];
    }
    ghost var head := ["out", FormatName(spec.format)] + (if spec.remux then ["remux"] else []);
    assert parts == head;
    parts := AppendField(parts, 'r', if spec.resample then spec.rate else 0);
    parts := AppendField(parts, 'b', spec.depth);
    parts := AppendField(parts, 'c', if spec.downmix then spec.channels else 0);
    parts := AppendField(parts, 'k', spec.block);
    ghost var tagged := parts;
    if spec.profile.Some? && spec.profile.value != "" {
      parts := parts + [spec.profile.value];
    }
    assert parts == tagged + (if spec.profile.Some? && spec.profile.value != "" then [spec.profile.value] else []);
    key := Join(parts, '-');
  }

  // ----- Encoder arguments -----

  const SELECT_AUDIO := ["-map", "0:a:0", "-vn"]

  /** The profile table's arguments; None is the lookup failing. */
  function ProfileArgs(profile: string): Option<seq<string>> {
    if profile == "original" then Some([])
    else if profile == "flac_24_48" then
      Some(SELECT_AUDIO
           + ["-ar", "48000", "-sample_fmt", "s32", "-bits_per_raw_sample", "24",
              "-c:a", "flac", "-compression_level", "5"])
    else if profile == "flac_16_48" then
      Some(SELECT_AUDIO + ["-ar", "48000", "-sample_fmt", "s16", "-c:a", "flac", "-compression_level", "5"])
    else if profile == "mp3_320" then
      Some(SELECT_AUDIO + ["-ar", "48000", "-c:a", "libmp3lame", "-b:a", "320k"])
    else if profile == "opus_128" then
      Some(SELECT_AUDIO + ["-ar", "48000", "-c:a", "libopus", "-b:a", "128k", "-vbr", "on"])
    else None
  }

  function DefaultProfile(f: Format): string {
    if f.Opus? then "opus_128" else "mp3_320"
  }

  /** The depth that the encoder arguments ask for. */
  function EncodedDepth(f: Format, depth: nat): nat {
    match f
    case Flac => if depth > 16 then 24 else 16
    case Wav => if depth in {24, 32} then depth else 16
    case _ => 16
  }

  function FfmpegArgs(spec: OutputSpec): Option<seq<string>> {
    match spec.format
    case OriginalFormat => Some([])
    case Mp3 => ProfileArgs(NamedProfile(spec))
    case Opus => ProfileArgs(NamedProfile(spec))
    case _ =>
      if spec.remux then Some(SELECT_AUDIO + ["-c:a", "copy", "-f", "flac"])
      else
        Some(SELECT_AUDIO
             + (if spec.resample && spec.rate != 0 then ["-ar", Dec(spec.rate)] else [])
             + (if spec.downmix && spec.channels != 0 then ["-ac", Dec(spec.channels)] else [])
             + CodecArgs(spec))
  }

  function NamedProfile(spec: OutputSpec): string {
    if spec.profile.Some? && spec.profile.value != "" then spec.profile.value else DefaultProfile(spec.format)
  }

  function CodecArgs(spec: OutputSpec): seq<string> {
    match spec.format
    case Flac =>
      (if EncodedDepth(Flac, spec.depth) == 24 then ["-sample_fmt", "s32", "-bits_per_raw_sample", "24"]
       else ["-sample_fmt", "s16"])
      + ["-c:a", "flac", "-compression_level", "5"]
      + (if spec.block != 0 then ["-frame_size", Dec(spec.block)] else [])
      + ["-f", "flac"]
    case Wav =>
      ["-c:a",
       match EncodedDepth(Wav, spec.depth) case 24 => "pcm_s24le" case 32 => "pcm_s32le" case _ => "pcm_s16le",
       "-f", "wav"]
    case L16Pcm => ["-c:a", "pcm_s16be", "-f", "s16be"]
    case _ => []
  }

  method BuildFfmpegArgs(spec: OutputSpec) returns (result: Option<seq<string>>)
    ensures result == FfmpegArgs(spec)
  {
    if spec.format.OriginalFormat? {
      return Some([]);
    }
    var args := SELECT_AUDIO;
    if spec.format.Mp3? || spec.format.Opus? {
      return ProfileArgs(NamedProfile(spec));
    }
    if spec.remux {
      return Some(args + ["-c:a", "copy", "-f", "flac"]);
    }
    if spec.resample && spec.rate != 0 {
      args := args + ["-ar", Dec(spec.rate)];
    }
    if spec.downmix && spec.channels != 0 {
      args := args + ["-ac", Dec(spec.channels)];
    }
    assert args == SELECT_AUDIO + (if spec.resample && spec.rate != 0 then ["-ar", Dec(spec.rate)] else [])
                   + (if spec.downmix && spec.channels != 0 then ["-ac", Dec(spec.channels)] else []);
    var depth := if spec.depth != 0 then spec.depth else 16;
    var codec: seq<string> := [];
    if spec.format.Flac? {
      if depth > 16 {
        codec := codec + ["-sample_fmt", "s32", "-bits_per_raw_sample", "24"];
      } else {
        codec := codec + ["-sample_fmt", "s16"];
      }
      codec := codec + ["-c:a", "flac", "-compression_level", "5"];
      if spec.block != 0 {
        codec := codec + ["-frame_size", Dec(spec.block)];
      }
      codec := codec + ["-f", "flac"];
    } else if spec.format.Wav? {
      var name := if depth == 24 then "pcm_s24le" else if depth == 32 then "pcm_s32le" else "pcm_s16le";
      codec := codec + ["-c:a", name, "-f", "wav"];
    } else {
      codec := codec + ["-c:a", "pcm_s16be", "-f", "s16be"];
    }
    assert codec == CodecArgs(spec);
    return Some(args + codec);
  }

  // ----- Round trip -----

  /** What a spec makes the server do: the served type, and the file it renders or finds in the cache. */
  datatype Served = Served(format: Format, mime: string, extension: string, key: string, args: Option<seq<string>>)

  function ServedAs(spec: OutputSpec): Served {
    Served(spec.format, spec.mime, Extension(spec.format), CacheKey(spec), FfmpegArgs(spec))
  }

  lemma FormatNameRoundTrip(f: Format)
    ensures ParseFormat(FormatName(f)) == Some(f)
  {
  }

  function ReadBack(spec: OutputSpec): OutputSpec
  {
    FormatNameRoundTrip(spec.format);
    FromClaims(TokenClaims(spec)).value
  }

  /** Writing a spec into a token and reading it back is a projection: the second time changes nothing. */
  lemma ReadBackIsProjection(spec: OutputSpec)
    ensures FromClaims(TokenClaims(spec)) == Some(ReadBack(spec))
    ensures ReadBack(ReadBack(spec)) == ReadBack(spec)
  {
    hide ParseFormat;
    FormatNameRoundTrip(spec.format);
    assert ReadBack(spec).format == spec.format;
  }

  /** The spec itself comes back exactly when its rate and channels are there just to be applied. */
  lemma RoundTripExactly(spec: OutputSpec)
    ensures ReadBack(spec) == spec <==>
            && (spec.mime != "" || DefaultMime(spec.format) == "")
            && (if spec.format.OriginalFormat? then
                  spec == OutputSpec(OriginalFormat, spec.mime, 0, 0, 0, false, false, 0, false, None)
                else (spec.resample <==> spec.rate != 0) && (spec.downmix <==> spec.channels != 0))
  {
  }

  /** The cache key has no field beyond the format. */
  predicate Bare(spec: OutputSpec) {
    && !spec.remux && !(spec.resample && spec.rate != 0) && spec.depth == 0
    && !(spec.downmix && spec.channels != 0) && spec.block == 0
    && (spec.profile.None? || spec.profile.value == "")
  }

  lemma FieldsReadBack(spec: OutputSpec)
    requires !spec.format.OriginalFormat?
    ensures Fields(ReadBack(spec)) == Fields(spec) && FfmpegArgs(ReadBack(spec)) == FfmpegArgs(spec)
  {
    hide ParseFormat, ProfileArgs;
    FormatNameRoundTrip(spec.format);
  }

  lemma JoinLonger(p: seq<string>, c: char)
    requires |p| > 2
    ensures |Join(p, c)| > |Join(p[..2], c)|
  {
  }

  /** What is served survives the token exactly when the spec names its MIME type, or needs none, and an
      original carries nothing beyond its format. */
  lemma ServedSurvivesExactly(spec: OutputSpec)
    ensures ServedAs(ReadBack(spec)) == ServedAs(spec) <==>
            (spec.mime != "" || DefaultMime(spec.format) == "") && (spec.format.OriginalFormat? ==> Bare(spec))
  {
    hide ParseFormat, ProfileArgs;
    FormatNameRoundTrip(spec.format);
    if spec.format.OriginalFormat? {
      assert Fields(ReadBack(spec)) == ["out", "original"];
      if Bare(spec) {
        assert Fields(spec) == ["out", "original"];
      } else {
        assert Fields(spec)[..2] == ["out", "original"];
        JoinLonger(Fields(spec), '-');
      }
    } else {
      FieldsReadBack(spec);
    }
  }
}
