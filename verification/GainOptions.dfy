/** What the encoder is told when a gain is applied, and for the lossless quality profiles. */
module GainOptions {
  import opened EncoderOptions
  import opened OutputSpecs
  import opened PlaybackPlan
  import opened RenderCache
  import opened Text
  import opened Wrappers

  // ----- The printed gain -----

  /** The number that the digits of a text make, whatever stands between them. */
  function ReadDigits(s: string): nat {
    if s == "" then 0
    else
      var front, last := ReadDigits(s[..|s| - 1]), s[|s| - 1];
      if IsDigit(last) then 10 * front + (last - '0') as nat else front
  }

  lemma ReadOneMore(s: string, c: char)
    ensures ReadDigits(s + [c]) == if IsDigit(c) then 10 * ReadDigits(s) + (c - '0') as nat else ReadDigits(s)
  {
    assert (s + [c])[..|s|] == s;
  }

  lemma {:induction false} ReadNumber(front: string, n: nat)
    requires ReadDigits(front) == 0
    ensures ReadDigits(front + Dec(n)) == n
  {
    if n < 10 {
      ReadOneMore(front, Digit(n));
    } else {
      ReadNumber(front, n / 10);
      ReadOneMore(front + Dec(n / 10), Digit(n % 10));
      assert front + Dec(n) == front + Dec(n / 10) + [Digit(n % 10)];
    }
  }

  /** The printed gain is the gain: its sign, and its digits with the point before the last three. */
  lemma GainReads(g: Gain)
    ensures var text := GainText(g);
            && (text[0] == '-' <==> g.negative)
            && ReadDigits(text) == g.thousandths
            && |text| > 4 && text[|text| - 4] == '.'
            && forall i :: 0 <= i < |text| && text[i] == '.' ==> i == |text| - 4
  {
    var sign, n := if g.negative then "-" else "", g.thousandths;
    assert ReadDigits(sign) == 0 by { assert ReadDigits("") == 0; ReadOneMore("", '-'); assert "" + ['-'] == "-"; }
    ReadNumber(sign, n / 1000);
    var whole := sign + Dec(n / 1000);
    ReadOneMore(whole, '.');
    ThreeDigits(whole + ".", n);
    var text := whole + "." + [Digit(n / 100 % 10), Digit(n / 10 % 10), Digit(n % 10)];
    hide ReadDigits, Dec;
    assert GainText(g) == text && |text| == |whole| + 4;
    assert forall i :: 0 <= i < |whole| ==> text[i] == whole[i] && whole[i] != '.';
    assert text[0] == whole[0];
  }

  lemma ThreeDigits(front: string, n: nat)
    requires ReadDigits(front) == n / 1000
    ensures ReadDigits(front + [Digit(n / 100 % 10), Digit(n / 10 % 10), Digit(n % 10)]) == n
  {
    var a, b, c := Digit(n / 100 % 10), Digit(n / 10 % 10), Digit(n % 10);
    ReadOneMore(front, a);
    ReadOneMore(front + [a], b);
    ReadOneMore(front + [a] + [b], c);
    assert front + [a] + [b] + [c] == front + [a, b, c];
    hide ReadDigits;
    assert (a - '0') as nat == n / 100 % 10 && (b - '0') as nat == n / 10 % 10 && (c - '0') as nat == n % 10;
    assert 10 * (n / 1000) + n / 100 % 10 == n / 100;
  }

  // ----- The volume filter -----

  /** No argument of the encoder's has the length of the filter option and starts with a dash. */
  predicate IsOther(a: string) { |a| != 9 || a[0] != '-' }

  lemma ProfilesHaveNoFilter(profile: string)
    ensures ProfileArgs(profile).Some? ==> forall a :: a in ProfileArgs(profile).value ==> IsOther(a)
  {
    SelectIsOther();
    hide SELECT_AUDIO;
  }

  lemma SelectIsOther()
    ensures forall a :: a in SELECT_AUDIO ==> IsOther(a)
  {
  }

  lemma NumberIsOther(n: nat)
    ensures IsOther(Dec(n))
  {
  }

  lemma CodecHasNoFilter(spec: OutputSpec)
    ensures forall a :: a in CodecArgs(spec) ==> IsOther(a)
  {
    NumberIsOther(spec.block);
    hide Dec, IsDigit;
  }

  lemma OutputsHaveNoFilter(spec: OutputSpec)
    ensures FfmpegArgs(spec).Some? ==> forall a :: a in FfmpegArgs(spec).value ==> IsOther(a)
  {
    SelectIsOther();
    CodecHasNoFilter(spec);
    ProfilesHaveNoFilter(NamedProfile(spec));
    NumberIsOther(spec.rate);
    NumberIsOther(spec.channels);
    hide Dec, CodecArgs, ProfileArgs, NamedProfile, SELECT_AUDIO;
  }

  lemma OriginalHasNoFilter(depth: nat)
    ensures forall a :: a in OriginalEncodeArgs(depth) ==> IsOther(a)
  {
  }

  lemma FilterAtEnd(args: seq<string>, g: Gain)
    requires forall a :: a in args ==> IsOther(a)
    ensures Value(args + VolumeFilter(g), "-filter:a") == Some("volume=" + GainText(g) + "dB")
    ensures Value(args, "-filter:a") == None
  {
    assert |"-filter:a"| == 9;
    Skip(args, VolumeFilter(g), "-filter:a");
    NoValue(args, "-filter:a");
  }

  /** The gain that a request applies, if any. */
  function Applied(request: Request): Option<Gain> {
    match request
    case Profile(_) => None
    case Normalized(_, _, gain, _) => Some(gain)
    case Planned(_, applied) => if applied.Some? then Some(applied.value.1) else None
  }

  /** The encoder is told to change the volume by exactly the gain that is asked for, and else not at all. */
  lemma VolumeIsTold(request: Request)
    requires Arguments(request).Some?
    ensures Value(Arguments(request).value, "-filter:a") ==
            match Applied(request) case None => None case Some(g) => Some("volume=" + GainText(g) + "dB")
  {
    hide Value, GainText, ProfileArgs, FfmpegArgs, OriginalEncodeArgs, VolumeFilter, QualityName;
    match request
    case Profile(q) =>
      ProfilesHaveNoFilter(QualityName(q));
      FilterAtEnd(ProfileArgs(QualityName(q)).value, Gain(false, 0));
    case Normalized(q, _, g, depth) =>
      ProfilesHaveNoFilter(QualityName(q));
      OriginalHasNoFilter(depth);
      FilterAtEnd(if q.Original? then OriginalEncodeArgs(depth) else ProfileArgs(QualityName(q)).value, g);
    case Planned(spec, applied) =>
      OutputsHaveNoFilter(spec);
      var args := FfmpegArgs(spec).value;
      FilterAtEnd(args, if applied.Some? then applied.value.1 else Gain(false, 0));
      assert args + [] == args;
  }

  // ----- Lossless profiles and normalized originals -----

  predicate IsDepthOption(name: string) { name == "-ar" || name == "-c:a" || name == "-bits_per_raw_sample" }

  lemma DepthOptionsDiffer()
    ensures forall name :: IsDepthOption(name) ==> name !in SELECT_AUDIO && name != "" && name[0] == '-'
    ensures "-ar" != "-c:a" && "-ar" != "-bits_per_raw_sample" && "-c:a" != "-bits_per_raw_sample"
    ensures forall name :: IsDepthOption(name) ==> name != "-sample_fmt" && name != "-compression_level"
  {
    ProfileOptionsDiffer();
    assert IsProfileOption("-ar") && IsProfileOption("-c:a");
    assert |"-bits_per_raw_sample"| == 20 && |"-ar"| == 3 && |"-c:a"| == 4 && |"-compression_level"| == 18;
    assert |"-sample_fmt"| == 11;
    var select := SELECT_AUDIO;
    assert |select[0]| == 4 && |select[1]| == 5 && |select[2]| == 3;
  }

  predicate TellsFlac(args: seq<string>, depth: nat) {
    Value(args, "-ar") == Some("48000") && Value(args, "-c:a") == Some("flac") && SampleDepth(args) == depth
  }

  /** A quality profile of 24 or 16 bits asks for FLAC at 48 kHz with that depth. */
  lemma FlacProfilesAreTold()
    ensures ProfileArgs("flac_24_48").Some? && TellsFlac(ProfileArgs("flac_24_48").value, 24)
    ensures ProfileArgs("flac_16_48").Some? && TellsFlac(ProfileArgs("flac_16_48").value, 16)
  {
    HighIsTold();
    NormalIsTold();
    hide *;
  }

  lemma FlacFrom(args: seq<string>, deep: bool)
    requires Value(args, "-ar") == Some("48000") && Value(args, "-c:a") == Some("flac")
    requires Value(args, "-bits_per_raw_sample") == if deep then Some("24") else None
    ensures TellsFlac(args, if deep then 24 else 16)
  {
    hide Value;
  }

  lemma HighIsTold()
    ensures ProfileArgs("flac_24_48").Some? && TellsFlac(ProfileArgs("flac_24_48").value, 24)
  {
    HighOptions("-ar");
    HighOptions("-c:a");
    HighOptions("-bits_per_raw_sample");
    DepthOptionsDiffer();
    hide *;
    FlacFrom(ProfileArgs("flac_24_48").value, true);
  }

  lemma NormalIsTold()
    ensures ProfileArgs("flac_16_48").Some? && TellsFlac(ProfileArgs("flac_16_48").value, 16)
  {
    NormalOptions("-ar");
    NormalOptions("-c:a");
    NormalOptions("-bits_per_raw_sample");
    DepthOptionsDiffer();
    hide *;
    FlacFrom(ProfileArgs("flac_16_48").value, false);
  }

  function CodecPairs(): seq<string> { ["-c:a", "flac"] + (["-compression_level", "5"] + []) }

  lemma CodecPairOptions(wanted: string)
    requires IsDepthOption(wanted)
    ensures Value(CodecPairs(), wanted) == if wanted == "-c:a" then Some("flac") else None
  {
    DepthOptionsDiffer();
    assert Value([], wanted) == None;
    hide Value;
    Pair("-compression_level", "5", [], wanted);
    Pair("-c:a", "flac", ["-compression_level", "5"] + [], wanted);
  }

  lemma HighOptions(wanted: string)
    requires IsDepthOption(wanted)
    ensures ProfileArgs("flac_24_48").Some?
    ensures Value(ProfileArgs("flac_24_48").value, wanted) ==
            Some(if wanted == "-ar" then "48000" else if wanted == "-c:a" then "flac" else "24")
  {
    var bits := ["-bits_per_raw_sample", "24"] + CodecPairs();
    var samples := ["-sample_fmt", "s32"] + bits;
    var all := ["-ar", "48000"] + samples;
    assert "flac_24_48"[0] != 'o';
    assert ProfileArgs("flac_24_48").value == SELECT_AUDIO + all;
    DepthOptionsDiffer();
    CodecPairOptions(wanted);
    hide Value, ProfileArgs, CodecPairs;
    Skip(SELECT_AUDIO, all, wanted);
    Pair("-ar", "48000", samples, wanted);
    Pair("-sample_fmt", "s32", bits, wanted);
    Pair("-bits_per_raw_sample", "24", CodecPairs(), wanted);
  }

  lemma NormalOptions(wanted: string)
    requires IsDepthOption(wanted)
    ensures ProfileArgs("flac_16_48").Some?
    ensures Value(ProfileArgs("flac_16_48").value, wanted) ==
            if wanted == "-ar" then Some("48000") else if wanted == "-c:a" then Some("flac") else None
  {
    var samples := ["-sample_fmt", "s16"] + CodecPairs();
    var all := ["-ar", "48000"] + samples;
    assert |"flac_16_48"| == 10 == |"flac_24_48"| && "flac_16_48"[5] == '1' && "flac_24_48"[5] == '2';
    assert "flac_16_48"[0] != 'o';
    assert ProfileArgs("flac_16_48").value == SELECT_AUDIO + all;
    DepthOptionsDiffer();
    CodecPairOptions(wanted);
    hide Value, ProfileArgs, CodecPairs;
    Skip(SELECT_AUDIO, all, wanted);
    Pair("-ar", "48000", samples, wanted);
    Pair("-sample_fmt", "s16", CodecPairs(), wanted);
  }

  /** A normalized original is FLAC of the source's own rate, with 24 bits exactly for sources deeper than 16. */
  lemma OriginalIsTold(depth: nat)
    ensures var args := OriginalEncodeArgs(depth);
            && Value(args, "-ar") == None && Value(args, "-c:a") == Some("flac")
            && Value(args, "-bits_per_raw_sample") == if depth > 16 then Some("24") else None
  {
    forall wanted | IsDepthOption(wanted)
      ensures Value(OriginalEncodeArgs(depth), wanted) ==
              if wanted == "-c:a" then Some("flac")
              else if wanted == "-bits_per_raw_sample" && depth > 16 then Some("24") else None
    {
      OriginalOptions(depth, wanted);
    }
    DepthOptionsDiffer();
    hide Value, OriginalEncodeArgs;
    assert IsDepthOption("-ar") && IsDepthOption("-c:a") && IsDepthOption("-bits_per_raw_sample");
  }

  lemma OriginalOptions(depth: nat, wanted: string)
    requires IsDepthOption(wanted)
    ensures Value(OriginalEncodeArgs(depth), wanted) ==
            if wanted == "-c:a" then Some("flac")
            else if wanted == "-bits_per_raw_sample" && depth > 16 then Some("24") else None
  {
    var bits := if depth > 16 then ["-bits_per_raw_sample", "24"] + [] else [];
    var samples := if depth > 16 then ["-sample_fmt", "s32"] + bits else if depth > 0 then ["-sample_fmt", "s16"] + bits
                   else [];
    var level := ["-compression_level", "5"] + samples;
    var all := ["-c:a", "flac"] + level;
    assert OriginalEncodeArgs(depth) == SELECT_AUDIO + all;
    DepthOptionsDiffer();
    assert Value([], wanted) == None;
    hide Value, OriginalEncodeArgs;
    Skip(SELECT_AUDIO, all, wanted);
    Pair("-c:a", "flac", level, wanted);
    Pair("-compression_level", "5", samples, wanted);
    Pair("-sample_fmt", "s32", bits, wanted);
    Pair("-sample_fmt", "s16", bits, wanted);
    Pair("-bits_per_raw_sample", "24", [], wanted);
  }
}
