/** The sample format and the container that the encoder is told. */
module FormatOptions {
  import opened EncoderOptions
  import opened OutputSpecs
  import opened PlaybackPlan
  import opened RenderCache
  import opened Text
  import opened Wrappers

  predicate IsFormatOption(name: string) { name == "-sample_fmt" || name == "-f" }

  lemma FormatOptionsDiffer()
    ensures forall name :: IsFormatOption(name) ==> name !in SELECT_AUDIO && name != "" && name[0] == '-'
    ensures forall name :: IsFormatOption(name) ==> name !in {"-ar", "-ac", "-c:a", "-compression_level"}
    ensures forall name :: IsFormatOption(name) ==> name !in {"-frame_size", "-bits_per_raw_sample"}
    ensures "-sample_fmt" != "-f"
  {
    var select := SELECT_AUDIO;
    assert |select[0]| == 4 && |select[1]| == 5 && |select[2]| == 3;
    assert |"-sample_fmt"| == 11 && |"-f"| == 2 && |"-ar"| == 3 && |"-ac"| == 3 && |"-c:a"| == 4;
    assert |"-compression_level"| == 18 && |"-bits_per_raw_sample"| == 20;
    assert |"-frame_size"| == 11 && "-frame_size"[1] == 'f' && "-sample_fmt"[1] == 's';
  }

  /** What the two options are set to for a decode. */
  function FormatValue(spec: OutputSpec, wanted: string): Option<string> {
    if wanted == "-f" then Some(if spec.format.Flac? then "flac" else if spec.format.Wav? then "wav" else "s16be")
    else if spec.format.Flac? then Some(if spec.depth > 16 then "s32" else "s16")
    else None
  }

  lemma FlacFormat(spec: OutputSpec, wanted: string)
    requires spec.format.Flac? && IsFormatOption(wanted)
    ensures Value(CodecArgs(spec), wanted) == FormatValue(spec, wanted)
  {
    FlacGrouping(spec);
    FormatOptionsDiffer();
    NumberIsNoOption(spec.block);
    assert Value([], wanted) == None;
    hide Value, Dec, CodecArgs;
    var end := ["-f", "flac"] + [];
    var blocks := if spec.block != 0 then ["-frame_size", Dec(spec.block)] + end else end;
    var level := ["-compression_level", "5"] + blocks;
    var codec := ["-c:a", "flac"] + level;
    Pair("-f", "flac", [], wanted);
    Pair("-frame_size", Dec(spec.block), end, wanted);
    Pair("-compression_level", "5", blocks, wanted);
    Pair("-c:a", "flac", level, wanted);
    Pair("-bits_per_raw_sample", "24", codec, wanted);
    Pair("-sample_fmt", "s32", ["-bits_per_raw_sample", "24"] + codec, wanted);
    Pair("-sample_fmt", "s16", codec, wanted);
  }

  lemma RawFormat(spec: OutputSpec, wanted: string)
    requires (spec.format.Wav? || spec.format.L16Pcm?) && IsFormatOption(wanted)
    ensures Value(CodecArgs(spec), wanted) == FormatValue(spec, wanted)
  {
    var container := if spec.format.Wav? then "wav" else "s16be";
    var end := ["-f", container] + [];
    assert CodecArgs(spec) == ["-c:a", RawCodec(spec)] + end;
    assert RawCodec(spec) != "" && RawCodec(spec)[0] == 'p';
    FormatOptionsDiffer();
    assert Value([], wanted) == None;
    hide Value, CodecArgs, RawCodec;
    Pair("-f", container, [], wanted);
    Pair("-c:a", RawCodec(spec), end, wanted);
  }

  lemma NumbersAreNoFormat(spec: OutputSpec)
    ensures forall name :: IsFormatOption(name) ==> name !in RateArgs(spec) + ChannelArgs(spec)
  {
    FormatOptionsDiffer();
    NumberIsNoOption(spec.rate);
    NumberIsNoOption(spec.channels);
    hide Dec;
  }

  /** A decode goes into its format's container, and FLAC samples are 32 bits wide exactly for depths over 16. */
  lemma FormatIsTold(spec: OutputSpec)
    requires spec.format.Lossless() && !spec.remux
    ensures var args := FfmpegArgs(spec).value;
            && Value(args, "-f") == FormatValue(spec, "-f")
            && Value(args, "-sample_fmt") == FormatValue(spec, "-sample_fmt")
  {
    ArgsParts(spec);
    FormatOptionsDiffer();
    NumbersAreNoFormat(spec);
    hide FfmpegArgs, CodecArgs, RateArgs, ChannelArgs, Value, FormatValue;
    var front, codec := SELECT_AUDIO + RateArgs(spec) + ChannelArgs(spec), CodecArgs(spec);
    forall name | IsFormatOption(name) ensures Value(front + codec, name) == FormatValue(spec, name) {
      assert name !in RateArgs(spec) + ChannelArgs(spec);
      Skip(front, codec, name);
      if spec.format.Flac? { FlacFormat(spec, name); } else { RawFormat(spec, name); }
    }
    assert IsFormatOption("-f") && IsFormatOption("-sample_fmt");
  }

  // ----- Quality profiles and normalized originals -----

  lemma SampleFormatAt(rate: seq<string>, codec: seq<string>, samples: string)
    requires rate in [["-ar", "48000"], ["-c:a", "flac", "-compression_level", "5"]] && samples in ["s16", "s32"]
    ensures Value(SELECT_AUDIO + rate + (["-sample_fmt", samples] + codec), "-sample_fmt") == Some(samples)
  {
    FormatOptionsDiffer();
    assert IsFormatOption("-sample_fmt");
    assert "48000"[0] != '-' && "flac"[0] != '-' && "5"[0] != '-';
    assert "-sample_fmt" !in SELECT_AUDIO + rate;
    hide Value;
    Skip(SELECT_AUDIO + rate, ["-sample_fmt", samples] + codec, "-sample_fmt");
    Pair("-sample_fmt", samples, codec, "-sample_fmt");
  }

  /** A lossless quality profile asks for samples of its width; a normalized original for the source's, and for
      none where the source's depth is unknown. */
  lemma SampleFormatsAreTold(depth: nat)
    ensures Value(ProfileArgs("flac_24_48").value, "-sample_fmt") == Some("s32")
    ensures Value(ProfileArgs("flac_16_48").value, "-sample_fmt") == Some("s16")
    ensures Value(OriginalEncodeArgs(depth), "-sample_fmt") ==
            if depth > 16 then Some("s32") else if depth > 0 then Some("s16") else None
  {
    HighSamples();
    NormalSamples();
    OriginalSamples(depth);
  }

  lemma HighSamples()
    ensures ProfileArgs("flac_24_48").Some? && Value(ProfileArgs("flac_24_48").value, "-sample_fmt") == Some("s32")
  {
    var rate := ["-ar", "48000"];
    var codec := ["-bits_per_raw_sample", "24", "-c:a", "flac", "-compression_level", "5"];
    assert "flac_24_48"[0] != 'o';
    assert ProfileArgs("flac_24_48").value == SELECT_AUDIO + rate + (["-sample_fmt", "s32"] + codec);
    hide Value, ProfileArgs;
    SampleFormatAt(rate, codec, "s32");
  }

  lemma NormalSamples()
    ensures ProfileArgs("flac_16_48").Some? && Value(ProfileArgs("flac_16_48").value, "-sample_fmt") == Some("s16")
  {
    var rate, codec := ["-ar", "48000"], ["-c:a", "flac", "-compression_level", "5"];
    assert |"flac_16_48"| == 10 == |"flac_24_48"| && "flac_16_48"[5] == '1' && "flac_24_48"[5] == '2';
    assert "flac_16_48"[0] != 'o';
    assert ProfileArgs("flac_16_48").value == SELECT_AUDIO + rate + (["-sample_fmt", "s16"] + codec);
    hide Value, ProfileArgs;
    SampleFormatAt(rate, codec, "s16");
  }

  lemma OriginalSamples(depth: nat)
    ensures Value(OriginalEncodeArgs(depth), "-sample_fmt") ==
            if depth > 16 then Some("s32") else if depth > 0 then Some("s16") else None
  {
    var codec := ["-c:a", "flac", "-compression_level", "5"];
    var end := if depth > 16 then ["-bits_per_raw_sample", "24"] else [];
    if depth > 0 {
      var samples := if depth > 16 then "s32" else "s16";
      assert OriginalEncodeArgs(depth) == SELECT_AUDIO + codec + (["-sample_fmt", samples] + end);
      hide Value, OriginalEncodeArgs;
      SampleFormatAt(codec, end, samples);
    } else {
      assert OriginalEncodeArgs(depth) == SELECT_AUDIO + codec;
      FormatOptionsDiffer();
      assert IsFormatOption("-sample_fmt") && "flac"[0] != '-' && "5"[0] != '-';
      hide Value, OriginalEncodeArgs;
      NoValue(SELECT_AUDIO + codec, "-sample_fmt");
    }
  }
}
