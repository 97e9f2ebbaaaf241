/** Reading encoder arguments back the way the encoder does: the value after each option. */
module EncoderOptions {
  import opened OutputSpecs
  import opened PlaybackPlan
  import opened Text
  import opened Wrappers

  /** The argument after an option. */
  function Value(args: seq<string>, name: string): Option<string> {
    if |args| < 2 then None
    else if args[0] == name then Some(args[1])
    else Value(args[1..], name)
  }

  lemma {:induction false} Skip(front: seq<string>, rest: seq<string>, name: string)
    requires name !in front
    ensures Value(front + rest, name) == Value(rest, name)
  {
    if front == [] {
      assert front + rest == rest;
    } else {
      assert (front + rest)[1..] == front[1..] + rest;
      Skip(front[1..], rest, name);
    }
  }

  lemma {:induction false} NoValue(args: seq<string>, name: string)
    requires name !in args
    ensures Value(args, name) == None
  {
    if args == [] {
    } else {
      NoValue(args[1..], name);
    }
  }

  lemma ValueBetween(front: seq<string>, present: bool, name: string, value: string, rest: seq<string>)
    requires name !in front && name !in rest
    ensures Value(front + (if present then [name, value] else []) + rest, name) == if present then Some(value) else None
  {
    var middle := if present then [name, value] else [];
    assert front + middle + rest == front + (middle + rest);
    Skip(front, middle + rest, name);
    if !present {
      assert middle + rest == rest;
      NoValue(rest, name);
    }
  }

  // ----- The three parts of the arguments -----

  function RateArgs(spec: OutputSpec): seq<string> {
    if spec.resample && spec.rate != 0 then ["-ar", Dec(spec.rate)] else []
  }

  function ChannelArgs(spec: OutputSpec): seq<string> {
    if spec.downmix && spec.channels != 0 then ["-ac", Dec(spec.channels)] else []
  }

  lemma ArgsParts(spec: OutputSpec)
    requires spec.format.Lossless() && !spec.remux
    ensures FfmpegArgs(spec) == Some(SELECT_AUDIO + RateArgs(spec) + ChannelArgs(spec) + CodecArgs(spec))
  {
  }

  lemma NumberIsNoOption(n: nat)
    ensures Dec(n) != "" && Dec(n)[0] != '-'
  {
  }

  /** The arguments before the codec's name no option of the codec's. */
  lemma SelectArgs()
    ensures forall name :: name in SELECT_AUDIO ==> !IsNumberOption(name) && !IsCodecOption(name)
  {
    var names := SELECT_AUDIO;
    assert |names[0]| == 4 && |names[1]| == 5 && |names[2]| == 3 && names[2][1] == 'v' && names[1][0] == '0';
  }

  predicate IsNumberOption(name: string) { name == "-ar" || name == "-ac" }

  predicate IsCodecOption(name: string) { name == "-c:a" || name == "-frame_size" || name == "-bits_per_raw_sample" }

  lemma CodecHasNoRate(spec: OutputSpec)
    ensures forall name :: name in CodecArgs(spec) ==> !IsNumberOption(name)
  {
    NumberIsNoOption(spec.block);
  }

  lemma NumbersHaveNoCodec(spec: OutputSpec)
    ensures forall name :: name in RateArgs(spec) + ChannelArgs(spec) ==> !IsCodecOption(name)
    ensures "-ac" !in RateArgs(spec) && "-ar" !in ChannelArgs(spec)
  {
    NumberIsNoOption(spec.rate);
    NumberIsNoOption(spec.channels);
  }

  lemma RateIsTold(spec: OutputSpec)
    requires spec.format.Lossless() && !spec.remux
    ensures Value(FfmpegArgs(spec).value, "-ar")
            == if spec.resample && spec.rate != 0 then Some(Dec(spec.rate)) else None
  {
    ArgsParts(spec);
    SelectArgs();
    CodecHasNoRate(spec);
    NumbersHaveNoCodec(spec);
    hide FfmpegArgs, CodecArgs, ChannelArgs, Value, Dec;
    var codec, channels := CodecArgs(spec), ChannelArgs(spec);
    assert IsNumberOption("-ar") && "-ar" !in SELECT_AUDIO && "-ar" !in channels + codec;
    ValueBetween(SELECT_AUDIO, spec.resample && spec.rate != 0, "-ar", Dec(spec.rate), channels + codec);
    assert SELECT_AUDIO + RateArgs(spec) + (channels + codec) == SELECT_AUDIO + RateArgs(spec) + channels + codec;
  }

  lemma ChannelsAreTold(spec: OutputSpec)
    requires spec.format.Lossless() && !spec.remux
    ensures Value(FfmpegArgs(spec).value, "-ac")
            == if spec.downmix && spec.channels != 0 then Some(Dec(spec.channels)) else None
  {
    ArgsParts(spec);
    SelectArgs();
    CodecHasNoRate(spec);
    NumbersHaveNoCodec(spec);
    hide FfmpegArgs, CodecArgs, RateArgs, Value, Dec;
    assert IsNumberOption("-ac") && "-ac" !in SELECT_AUDIO && "-ac" !in CodecArgs(spec);
    var mixes := spec.downmix && spec.channels != 0;
    ValueBetween(SELECT_AUDIO + RateArgs(spec), mixes, "-ac", Dec(spec.channels), CodecArgs(spec));
  }

  /** The sample depth that a list of arguments asks for. */
  function SampleDepth(args: seq<string>): nat {
    var codec := Value(args, "-c:a");
    if codec == Some("flac") then (if Value(args, "-bits_per_raw_sample") == Some("24") then 24 else 16)
    else if codec == Some("pcm_s24le") then 24
    else if codec == Some("pcm_s32le") then 32
    else 16
  }

  lemma Pair(name: string, value: string, rest: seq<string>, wanted: string)
    requires value != "" && value[0] != '-' && wanted != "" && wanted[0] == '-'
    ensures Value([name, value] + rest, wanted) == if name == wanted then Some(value) else Value(rest, wanted)
  {
    var args := [name, value] + rest;
    assert args[1..] == [value] + rest && args[1..][1..] == rest;
    assert |args| > 2 ==> Value(args[1..], wanted) == Value(rest, wanted);
  }

  lemma NamesDiffer()
    ensures forall name :: IsCodecOption(name) ==> name !in {"-sample_fmt", "-compression_level", "-f"}
    ensures "-c:a" != "-frame_size" && "-c:a" != "-bits_per_raw_sample" && "-frame_size" != "-bits_per_raw_sample"
  {
    assert "-sample_fmt"[1] == 's' && |"-sample_fmt"| == 11;
    assert |"-compression_level"| == 18 && |"-f"| == 2;
    assert "-frame_size"[1] == 'f' && |"-frame_size"| == 11 && |"-bits_per_raw_sample"| == 20;
  }

  /** The FLAC arguments, grouped as option and value. */
  function FlacPairs(deep: bool, block: nat): seq<string> {
    var end := ["-f", "flac"] + [];
    var blocks := if block != 0 then ["-frame_size", Dec(block)] + end else end;
    var codec := ["-c:a", "flac"] + (["-compression_level", "5"] + blocks);
    if deep then ["-sample_fmt", "s32"] + (["-bits_per_raw_sample", "24"] + codec) else ["-sample_fmt", "s16"] + codec
  }

  lemma FlacGrouping(spec: OutputSpec)
    requires spec.format.Flac?
    ensures CodecArgs(spec) == FlacPairs(EncodedDepth(Flac, spec.depth) == 24, spec.block)
  {
  }

  lemma FlacOptions(deep: bool, block: nat, wanted: string)
    requires IsCodecOption(wanted)
    ensures Value(FlacPairs(deep, block), wanted) ==
              if wanted == "-c:a" then Some("flac")
              else if wanted == "-frame_size" then (if block != 0 then Some(Dec(block)) else None)
              else if deep then Some("24") else None
  {
    NamesDiffer();
    NumberIsNoOption(block);
    var end := ["-f", "flac"] + [];
    Pair("-f", "flac", [], wanted);
    assert Value([], wanted) == None;
    hide Value, Dec;
    var blocks := if block != 0 then ["-frame_size", Dec(block)] + end else end;
    Pair("-frame_size", Dec(block), end, wanted);
    var level := ["-compression_level", "5"] + blocks;
    Pair("-compression_level", "5", blocks, wanted);
    var codec := ["-c:a", "flac"] + level;
    Pair("-c:a", "flac", level, wanted);
    Pair("-bits_per_raw_sample", "24", codec, wanted);
    Pair("-sample_fmt", "s32", ["-bits_per_raw_sample", "24"] + codec, wanted);
    Pair("-sample_fmt", "s16", codec, wanted);
  }

  lemma RawOptions(codec: string, container: string, wanted: string)
    requires IsCodecOption(wanted) && codec != "" && container != "" && codec[0] != '-' && container[0] != '-'
    ensures Value(["-c:a", codec, "-f", container], wanted) == if wanted == "-c:a" then Some(codec) else None
  {
    NamesDiffer();
    Pair("-f", container, [], wanted);
    Pair("-c:a", codec, ["-f", container], wanted);
    assert ["-c:a", codec, "-f", container] == ["-c:a", codec] + (["-f", container] + []);
    assert ["-f", container] == ["-f", container] + [];
  }

  lemma CodecNamesDiffer()
    ensures "flac" != "pcm_s16le" && "flac" != "pcm_s24le" && "flac" != "pcm_s32le" && "flac" != "pcm_s16be"
    ensures "pcm_s16le" != "pcm_s24le" && "pcm_s24le" != "pcm_s32le" && "pcm_s16le" != "pcm_s32le"
    ensures "pcm_s16be" != "pcm_s24le" && "pcm_s16be" != "pcm_s32le"
  {
    assert |"flac"| == 4 && |"pcm_s16le"| == 9;
    assert "pcm_s16le"[5] == '1' && "pcm_s16be"[5] == '1' && "pcm_s24le"[5] == '2' && "pcm_s32le"[5] == '3';
  }

  lemma CodecOptions(spec: OutputSpec)
    requires spec.format.Lossless()
    ensures SampleDepth(CodecArgs(spec)) == EncodedDepth(spec.format, spec.depth)
    ensures Value(CodecArgs(spec), "-frame_size")
            == if spec.format.Flac? && spec.block != 0 then Some(Dec(spec.block)) else None
  {
    hide Value;
    NamesDiffer();
    CodecNamesDiffer();
    forall wanted | IsCodecOption(wanted)
      ensures Value(CodecArgs(spec), wanted) == CodecValue(spec, wanted)
    {
      CodecOption(spec, wanted);
    }
    assert IsCodecOption("-c:a") && IsCodecOption("-frame_size") && IsCodecOption("-bits_per_raw_sample");
  }

  function RawCodec(spec: OutputSpec): string {
    if spec.format.L16Pcm? then "pcm_s16be"
    else match EncodedDepth(Wav, spec.depth) case 24 => "pcm_s24le" case 32 => "pcm_s32le" case _ => "pcm_s16le"
  }

  /** What each of the codec's options is set to. */
  function CodecValue(spec: OutputSpec, wanted: string): Option<string> {
    if wanted == "-c:a" then Some(if spec.format.Flac? then "flac" else RawCodec(spec))
    else if !spec.format.Flac? then None
    else if wanted == "-frame_size" then (if spec.block != 0 then Some(Dec(spec.block)) else None)
    else if EncodedDepth(Flac, spec.depth) == 24 then Some("24")
    else None
  }

  lemma CodecOption(spec: OutputSpec, wanted: string)
    requires spec.format.Lossless() && IsCodecOption(wanted)
    ensures Value(CodecArgs(spec), wanted) == CodecValue(spec, wanted)
  {
    hide Value;
    if spec.format.Flac? {
      FlacGrouping(spec);
      FlacOptions(EncodedDepth(Flac, spec.depth) == 24, spec.block, wanted);
    } else {
      RawOptions(RawCodec(spec), if spec.format.Wav? then "wav" else "s16be", wanted);
    }
  }

  lemma DepthAndBlocksAreTold(spec: OutputSpec)
    requires spec.format.Lossless() && !spec.remux
    ensures var args := FfmpegArgs(spec).value;
            && SampleDepth(args) == EncodedDepth(spec.format, spec.depth)
            && Value(args, "-frame_size")
               == if spec.format.Flac? && spec.block != 0 then Some(Dec(spec.block)) else None
  {
    ArgsParts(spec);
    SelectArgs();
    NumbersHaveNoCodec(spec);
    CodecOptions(spec);
    hide FfmpegArgs, CodecArgs, RateArgs, ChannelArgs;
    var front, codec := SELECT_AUDIO + RateArgs(spec) + ChannelArgs(spec), CodecArgs(spec);
    forall name | IsCodecOption(name) ensures Value(front + codec, name) == Value(codec, name) {
      assert name !in RateArgs(spec) + ChannelArgs(spec);
      Skip(front, codec, name);
    }
    assert IsCodecOption("-c:a") && IsCodecOption("-frame_size") && IsCodecOption("-bits_per_raw_sample");
  }

  // ----- Remuxes, lossy outputs and quality profiles -----

  predicate IsProfileOption(name: string) { name == "-ar" || name == "-c:a" || name == "-b:a" }

  lemma ProfileOptionsDiffer()
    ensures forall name :: IsProfileOption(name) ==> name !in SELECT_AUDIO && name != "" && name[0] == '-'
    ensures "-ar" != "-c:a" && "-ar" != "-b:a" && "-c:a" != "-b:a"
    ensures forall name :: IsProfileOption(name) ==> name !in {"-vbr", "-f", "-sample_fmt", "-bits_per_raw_sample"}
    ensures forall name :: IsProfileOption(name) ==> name != "-compression_level"
  {
    var select := SELECT_AUDIO;
    assert |select[0]| == 4 && select[0][1] == 'm' && |select[1]| == 5 && |select[2]| == 3 && select[2][1] == 'v';
    assert |"-ar"| == 3 && "-ar"[1] == 'a' && |"-c:a"| == 4 && "-c:a"[1] == 'c' && |"-b:a"| == 4 && "-b:a"[1] == 'b';
    assert |"-vbr"| == 4 && "-vbr"[1] == 'v' && |"-f"| == 2 && |"-sample_fmt"| == 11;
    assert |"-bits_per_raw_sample"| == 20 && |"-compression_level"| == 18;
  }

  predicate Tells(args: seq<string>, rate: string, codec: string, bits: string) {
    Value(args, "-ar") == Some(rate) && Value(args, "-c:a") == Some(codec) && Value(args, "-b:a") == Some(bits)
  }

  /** Three options with their values, and then no more of them. */
  lemma ThreeOptions(rate: string, codec: string, bits: string, rest: seq<string>, wanted: string)
    requires IsProfileOption(wanted) && wanted !in rest
    requires rate != "" && codec != "" && bits != "" && rate[0] != '-' && codec[0] != '-' && bits[0] != '-'
    ensures Value(SELECT_AUDIO + ["-ar", rate, "-c:a", codec, "-b:a", bits] + rest, wanted) ==
            Some(if wanted == "-ar" then rate else if wanted == "-c:a" then codec else bits)
  {
    ProfileOptionsDiffer();
    var third := ["-b:a", bits] + rest;
    var second := ["-c:a", codec] + third;
    var first := ["-ar", rate] + second;
    assert SELECT_AUDIO + ["-ar", rate, "-c:a", codec, "-b:a", bits] + rest == SELECT_AUDIO + first;
    hide Value;
    Skip(SELECT_AUDIO, first, wanted);
    Pair("-ar", rate, second, wanted);
    Pair("-c:a", codec, third, wanted);
    Pair("-b:a", bits, rest, wanted);
  }

  /** The MP3 profile asks for MP3 at 48 kHz and 320 kbit/s, the Opus profile for Opus at 48 kHz and 128 kbit/s. */
  lemma LossyProfilesAreTold()
    ensures Tells(ProfileArgs("mp3_320").value, "48000", "libmp3lame", "320k")
    ensures Tells(ProfileArgs("opus_128").value, "48000", "libopus", "128k")
  {
    Mp3IsTold();
    OpusIsTold();
  }

  lemma Mp3IsTold()
    ensures ProfileArgs("mp3_320").Some?
    ensures Tells(ProfileArgs("mp3_320").value, "48000", "libmp3lame", "320k")
  {
    ProfileOptionsDiffer();
    assert ProfileArgs("mp3_320").value == SELECT_AUDIO + ["-ar", "48000", "-c:a", "libmp3lame", "-b:a", "320k"] + [];
    hide Value, ProfileArgs;
    ThreeOptions("48000", "libmp3lame", "320k", [], "-ar");
    ThreeOptions("48000", "libmp3lame", "320k", [], "-c:a");
    ThreeOptions("48000", "libmp3lame", "320k", [], "-b:a");
  }

  lemma OpusIsTold()
    ensures ProfileArgs("opus_128").Some?
    ensures Tells(ProfileArgs("opus_128").value, "48000", "libopus", "128k")
  {
    ProfileOptionsDiffer();
    OpusArgs();
    var rest := ["-vbr", "on"];
    assert "on"[0] == 'o' && |"on"| == 2;
    assert forall name :: IsProfileOption(name) ==> name !in rest;
    hide Value, ProfileArgs;
    ThreeOptions("48000", "libopus", "128k", rest, "-ar");
    ThreeOptions("48000", "libopus", "128k", rest, "-c:a");
    ThreeOptions("48000", "libopus", "128k", rest, "-b:a");
  }

  lemma OpusArgs()
    ensures ProfileArgs("opus_128") ==
            Some(SELECT_AUDIO + ["-ar", "48000", "-c:a", "libopus", "-b:a", "128k"] + ["-vbr", "on"])
  {
    assert |"opus_128"| == 8 && |"original"| == 8 && "opus_128"[1] == 'p' && "original"[1] == 'r';
    assert |"flac_24_48"| == 10 && |"flac_16_48"| == 10 && |"mp3_320"| == 7;
    var pairs := ["-ar", "48000", "-c:a", "libopus", "-b:a", "128k"];
    assert pairs + ["-vbr", "on"] == ["-ar", "48000", "-c:a", "libopus", "-b:a", "128k", "-vbr", "on"];
    assert SELECT_AUDIO + pairs + ["-vbr", "on"] == SELECT_AUDIO + (pairs + ["-vbr", "on"]);
  }

  /** A remux copies the codec's bytes into a FLAC container. */
  lemma RemuxIsTold(spec: OutputSpec)
    requires spec.format.Lossless() && spec.remux
    ensures FfmpegArgs(spec).Some?
    ensures Value(FfmpegArgs(spec).value, "-c:a") == Some("copy") && Value(FfmpegArgs(spec).value, "-f") == Some("flac")
    ensures Value(FfmpegArgs(spec).value, "-ar") == None
  {
    ProfileOptionsDiffer();
    var copy, end := ["-c:a", "copy"] + (["-f", "flac"] + []), ["-f", "flac"] + [];
    assert FfmpegArgs(spec).value == SELECT_AUDIO + copy;
    var select := SELECT_AUDIO;
    assert |select[0]| == 4 && |select[1]| == 5 && |select[2]| == 3 && "-f" !in select;
    assert Value([], "-ar") == None && Value([], "-f") == None;
    hide Value, FfmpegArgs;
    forall wanted | wanted == "-c:a" || wanted == "-f" || wanted == "-ar"
      ensures Value(SELECT_AUDIO + copy, wanted) ==
              if wanted == "-c:a" then Some("copy") else if wanted == "-f" then Some("flac") else None
    {
      Skip(SELECT_AUDIO, copy, wanted);
      Pair("-c:a", "copy", end, wanted);
      Pair("-f", "flac", [], wanted);
    }
  }
}
