/** A shared cache file is always the right rendering. */
module RenderCacheTheorems {
  import opened Wrappers
  import opened Text
  import opened PlaybackPlan
  import opened OutputSpecs
  import opened RenderCache

  // ----- Reading a spec's effect back from its key fields -----

  /** The numbers a rendering depends on, 0 where the spec keeps the source's. */
  function Effective(spec: OutputSpec, tag: char): nat {
    if tag == 'r' then (if spec.resample then spec.rate else 0)
    else if tag == 'b' then spec.depth
    else if tag == 'c' then (if spec.downmix then spec.channels else 0)
    else spec.block
  }

  predicate IsTag(tag: char) { tag == 'r' || tag == 'b' || tag == 'c' || tag == 'k' }

  lemma FormatNames(f: Format)
    ensures FormatName(f) != "" && FormatName(f)[0] in {'o', 'f', 'w', 'l', 'm'}
    ensures Without(FormatName(f), '-') && Without(FormatName(f), '.')
    ensures !f.OriginalFormat? ==> Without(FormatName(f), 'g')
  {
  }

  lemma ProfileNames(spec: OutputSpec)
    requires Keyed(spec) && spec.profile.Some?
    ensures spec.profile.value[0] in {'m', 'o'} && |spec.profile.value| > 1
    ensures Without(spec.profile.value, '-') && Without(spec.profile.value, '.') && Without(spec.profile.value, 'g')
  {
  }

  /** What a field can be: a fixed word, a word of letters from the tables, or a tagged number. */
  lemma FieldKinds(spec: OutputSpec, field: string)
    requires Keyed(spec) && field in Fields(spec)
    ensures field != ""
    ensures field[0] in {'o', 'f', 'w', 'l', 'm'} || (field == "remux" && spec.remux)
            || (&& IsTag(field[0]) && Effective(spec, field[0]) > 0
                && field == [field[0]] + Dec(Effective(spec, field[0])))
  {
  }

  /** A tagged number is a field exactly when it is the number in effect. */
  lemma TaggedField(spec: OutputSpec, tag: char, n: nat)
    requires Keyed(spec) && IsTag(tag) && n > 0
    ensures [tag] + Dec(n) in Fields(spec) <==> Effective(spec, tag) == n
  {
    var field := [tag] + Dec(n);
    if Effective(spec, tag) == n {
      assert Tagged(tag, n) == [field];
      assert field in Tagged(tag, n);
    }
    if field in Fields(spec) {
      FieldKinds(spec, field);
      assert field[0] == tag && IsDigit(field[1]);
      assert "remux"[1] == 'e';
      var m := Effective(spec, tag);
      assert field[1..] == Dec(n) && field == [tag] + Dec(m);
      assert ([tag] + Dec(m))[1..] == Dec(m);
      DecInjective(m, n);
    }
  }

  lemma RemuxField(spec: OutputSpec)
    requires Keyed(spec)
    ensures "remux" in Fields(spec) <==> spec.remux
  {
    if "remux" in Fields(spec) {
      FieldKinds(spec, "remux");
      assert "remux"[0] == 'r' && "remux"[1] == 'e';
    }
  }

  lemma SameFieldsSameNumber(a: OutputSpec, b: OutputSpec, tag: char)
    requires Keyed(a) && Keyed(b) && IsTag(tag) && Fields(a) == Fields(b)
    ensures Effective(a, tag) == Effective(b, tag)
  {
    if Effective(a, tag) > 0 { TaggedField(a, tag, Effective(a, tag)); TaggedField(b, tag, Effective(a, tag)); }
    if Effective(b, tag) > 0 { TaggedField(a, tag, Effective(b, tag)); TaggedField(b, tag, Effective(b, tag)); }
  }

  lemma SameFieldsSameProfile(a: OutputSpec, b: OutputSpec)
    requires Keyed(a) && Keyed(b) && Fields(a) == Fields(b)
    ensures a.profile == b.profile
  {
    hide Dec;
    FormatNameRoundTrip(a.format);
    FormatNameRoundTrip(b.format);
    assert Fields(a)[1] == FormatName(a.format) && Fields(b)[1] == FormatName(b.format);
    if a.profile.Some? {
      assert Fields(a)[|Fields(a)| - 1] == a.profile.value && Fields(b)[|Fields(b)| - 1] == b.profile.value;
    }
  }

  /** The fields determine the format and the encoder arguments. */
  lemma FieldsDetermine(a: OutputSpec, b: OutputSpec)
    requires Keyed(a) && Keyed(b) && Fields(a) == Fields(b)
    ensures a.format == b.format && FfmpegArgs(a) == FfmpegArgs(b)
  {
    assert a.format == b.format by {
      assert Fields(a)[1] == FormatName(a.format) && Fields(b)[1] == FormatName(b.format);
      FormatNameRoundTrip(a.format);
      FormatNameRoundTrip(b.format);
    }
    SameFieldsSameNumber(a, b, 'r');
    SameFieldsSameNumber(a, b, 'b');
    SameFieldsSameNumber(a, b, 'c');
    SameFieldsSameNumber(a, b, 'k');
    SameFieldsSameProfile(a, b);
    RemuxField(a);
    RemuxField(b);
    hide ProfileArgs, Fields, Dec;
  }

  // ----- Taking the key apart -----

  lemma FieldsAreClean(spec: OutputSpec)
    requires Keyed(spec)
    ensures forall i :: 0 <= i < |Fields(spec)| ==>
              Without(Fields(spec)[i], '-') && Without(Fields(spec)[i], 'g') && Without(Fields(spec)[i], '.')
  {
    forall i | 0 <= i < |Fields(spec)|
      ensures Without(Fields(spec)[i], '-') && Without(Fields(spec)[i], 'g') && Without(Fields(spec)[i], '.')
    {
      FieldIsClean(spec, Fields(spec)[i]);
    }
  }

  lemma FieldIsClean(spec: OutputSpec, field: string)
    requires Keyed(spec) && field in Fields(spec)
    ensures Without(field, '-') && Without(field, 'g') && Without(field, '.')
  {
    FormatNames(spec.format);
    if spec.profile.Some? { ProfileNames(spec); }
    NumberIsClean('r', Effective(spec, 'r'));
    NumberIsClean('b', Effective(spec, 'b'));
    NumberIsClean('c', Effective(spec, 'c'));
    NumberIsClean('k', Effective(spec, 'k'));
    assert Without("out", '-') && Without("out", 'g') && Without("out", '.');
    assert Without("remux", '-') && Without("remux", 'g') && Without("remux", '.');
  }

  lemma NumberIsClean(tag: char, n: nat)
    requires IsTag(tag)
    ensures forall field :: field in Tagged(tag, n) ==>
            Without(field, '-') && Without(field, 'g') && Without(field, '.')
  {
  }

  /** A 'g' can only come from a gain suffix, so the suffix can be told from the key before it. */
  lemma SuffixIsUnique(x: string, s: string, y: string, t: string)
    requires Without(x, 'g') && Without(y, 'g') && x + s == y + t
    requires s == "" || (|s| > 1 && s[1] == 'g' && s[0] != 'g')
    requires t == "" || (|t| > 1 && t[1] == 'g' && t[0] != 'g')
    ensures x == y && s == t
  {
    HasG(x, s);
    HasG(y, t);
    if s != "" {
      assert x + s == (x + [s[0]]) + ['g'] + s[2..];
      assert y + t == (y + [t[0]]) + ['g'] + t[2..];
      CutIsUnique(x + [s[0]], s[2..], y + [t[0]], t[2..], 'g');
      assert x == (x + [s[0]])[..|x|] && y == (y + [t[0]])[..|y|];
    } else {
      assert x + s == x && y + t == y;
    }
  }

  lemma HasG(x: string, s: string)
    requires Without(x, 'g') && (s == "" || (|s| > 1 && s[1] == 'g'))
    ensures Without(x + s, 'g') <==> s == ""
  {
    if s != "" {
      assert (x + s)[|x| + 1] == 'g';
    }
  }

  lemma SuffixShape(applied: Option<(GainMode, Gain)>)
    ensures var s := GainSuffix(applied);
            s == "" || (|s| > 1 && s[1] == 'g' && s[0] != 'g')
    ensures GainSuffix(applied) == "" <==> applied.None?
  {
  }

  lemma KeyIsClean(spec: OutputSpec)
    requires Keyed(spec)
    ensures Without(CacheKey(spec), 'g') && Without(CacheKey(spec), '.')
    ensures CacheKey(spec) != "" && CacheKey(spec)[0] == 'o'
  {
    hide Fields;
    FieldsAreClean(spec);
    JoinWithout(Fields(spec), '-', 'g');
    JoinWithout(Fields(spec), '-', '.');
    FieldsStart(spec);
  }

  lemma FieldsStart(spec: OutputSpec)
    ensures |Fields(spec)| > 1 && Fields(spec)[0] == "out"
  {
  }

  /** Planned outputs with equal keys, gain suffix included, are one rendering. */
  lemma PlannedKeyDetermines(a: OutputSpec, g: Option<(GainMode, Gain)>, b: OutputSpec, h: Option<(GainMode, Gain)>)
    requires Keyed(a) && Keyed(b)
    requires CacheKey(a) + GainSuffix(g) == CacheKey(b) + GainSuffix(h)
    ensures Arguments(Planned(a, g)) == Arguments(Planned(b, h))
    ensures Extension(a.format) == Extension(b.format)
  {
    hide Fields, FfmpegArgs, Keyed, GainKey, GainText;
    KeyIsClean(a);
    KeyIsClean(b);
    SuffixShape(g);
    SuffixShape(h);
    SuffixIsUnique(CacheKey(a), GainSuffix(g), CacheKey(b), GainSuffix(h));
    FieldsAreClean(a);
    FieldsAreClean(b);
    FieldsStart(a);
    FieldsStart(b);
    JoinInjective(Fields(a), Fields(b), '-');
    FieldsDetermine(a, b);
    if g.Some? {
      SameSuffixSameGain(g.value.0, g.value.1, h.value.0, h.value.1);
    }
  }

  lemma SameSuffixSameGain(mode: GainMode, g: Gain, mode': GainMode, g': Gain)
    requires GainSuffix(Some((mode, g))) == GainSuffix(Some((mode', g')))
    ensures GainKey(mode, g) == GainKey(mode', g') && GainText(g) == GainText(g')
  {
    hide GainText, GainKey;
    GainSuffixShape(mode, g);
    GainSuffixShape(mode', g');
    assert GainKey(mode, g) == ("m" + GainKey(mode, g))[1..] && GainKey(mode', g') == ("m" + GainKey(mode', g'))[1..];
    GainKeyInjective(mode, g, mode', g');
  }

  // ----- The whole file name -----

  /** The name without its extension. */
  function Stem(request: Request): string {
    match request
    case Profile(q) => QualityName(q)
    case Normalized(q, mode, gain, depth) =>
      if q.Original? then QualityName(q) + ['-'] + (GainKey(mode, gain) + ['-'] + (['b'] + Dec(depth)))
      else QualityName(q) + ['-'] + GainKey(mode, gain)
    case Planned(spec, applied) => QualityName(Original) + ['-'] + (CacheKey(spec) + GainSuffix(applied))
  }

  function FileExtension(request: Request): string {
    match request
    case Profile(q) => QualityExtension(q)
    case Normalized(q, _, _, _) => if q.Original? then "flac" else QualityExtension(q)
    case Planned(spec, _) => Extension(spec.format)
  }

  lemma SafeHasNoDotOrDash(s: string)
    ensures Without(Safe(s), '.') && Without(Safe(s), '-')
  {
  }

  lemma QualityNamesClean(q: Quality)
    ensures Without(QualityName(q), '-') && Without(QualityName(q), '.')
  {
  }

  lemma StemHasNoDot(request: Request)
    requires Cached(request)
    ensures FileName(request) == Stem(request) + ['.'] + FileExtension(request)
    ensures Without(Stem(request), '.')
  {
    hide GainText, Fields, Keyed;
    QualityNamesClean(Original);
    match request {
      case Profile(q) => QualityNamesClean(q);
      case Normalized(q, mode, gain, depth) =>
        QualityNamesClean(q);
        SafeHasNoDotOrDash("gain-" + ModeName(mode) + "-" + GainText(gain));
      case Planned(spec, applied) =>
        KeyIsClean(spec);
        if applied.Some? {
          SafeHasNoDotOrDash("-gain-" + ModeName(applied.value.0) + "-" + GainText(applied.value.1));
        }
    }
  }

  /** What follows the quality name in a stem. */
  function StemTail(request: Request): string
    requires !request.Profile?
  {
    match request
    case Normalized(q, mode, gain, depth) =>
      if q.Original? then GainKey(mode, gain) + ['-'] + (['b'] + Dec(depth)) else GainKey(mode, gain)
    case Planned(spec, applied) => CacheKey(spec) + GainSuffix(applied)
  }

  function StemQuality(request: Request): Quality {
    if request.Planned? then Original else request.quality
  }

  lemma QualityNamesDiffer(a: Quality, b: Quality)
    requires QualityName(a) == QualityName(b)
    ensures a == b
  {
  }

  lemma SplitStem(a: Request, b: Request)
    requires Cached(a) && Cached(b) && Stem(a) == Stem(b)
    ensures StemQuality(a) == StemQuality(b)
    ensures a.Profile? == b.Profile?
    ensures !a.Profile? && !b.Profile? ==> StemTail(a) == StemTail(b)
  {
    hide GainText, Fields, Keyed, CacheKey, GainKey, GainSuffix, Dec, QualityName;
    var p, q := QualityName(StemQuality(a)), QualityName(StemQuality(b));
    QualityNamesClean(StemQuality(a));
    QualityNamesClean(StemQuality(b));
    if !a.Profile? { assert Stem(a) == p + ['-'] + StemTail(a); assert Stem(a)[|p|] == '-'; }
    if !b.Profile? { assert Stem(b) == q + ['-'] + StemTail(b); assert Stem(b)[|q|] == '-'; }
    if !a.Profile? && !b.Profile? {
      CutIsUnique(p, StemTail(a), q, StemTail(b), '-');
    }
    QualityNamesDiffer(StemQuality(a), StemQuality(b));
  }

  lemma TailStart(request: Request)
    requires Cached(request) && !request.Profile?
    ensures StemTail(request) != ""
    ensures StemTail(request)[0] == if request.Planned? then 'o' else 'g'
  {
  }

  lemma NormalizedTailDetermines(a: Request, b: Request)
    requires a.Normalized? && b.Normalized? && a.quality == b.quality && StemTail(a) == StemTail(b)
    ensures Arguments(a) == Arguments(b)
  {
    hide ProfileArgs;
    if a.quality.Original? {
      SafeHasNoDotOrDash("gain-" + ModeName(a.mode) + "-" + GainText(a.gain));
      SafeHasNoDotOrDash("gain-" + ModeName(b.mode) + "-" + GainText(b.gain));
      var p, q := ['b'] + Dec(a.sourceDepth), ['b'] + Dec(b.sourceDepth);
      CutIsUnique(GainKey(a.mode, a.gain), p, GainKey(b.mode, b.gain), q, '-');
      assert Dec(a.sourceDepth) == p[1..] && Dec(b.sourceDepth) == q[1..];
      DecInjective(a.sourceDepth, b.sourceDepth);
    }
    GainKeyInjective(a.mode, a.gain, b.mode, b.gain);
  }

  /** Two requests for one track that share a cache file want the same rendering: the same encoder
      arguments, volume filter included, and the same extension. */
  lemma SameFileSameRendering(a: Request, b: Request)
    requires Cached(a) && Cached(b) && FileName(a) == FileName(b)
    ensures Arguments(a) == Arguments(b)
    ensures FileExtension(a) == FileExtension(b)
  {
    hide Stem, FileName, StemTail, Keyed, Arguments;
    StemHasNoDot(a);
    StemHasNoDot(b);
    CutIsUnique(Stem(a), FileExtension(a), Stem(b), FileExtension(b), '.');
    SplitStem(a, b);
    if !a.Profile? {
      TailStart(a);
      TailStart(b);
      if a.Normalized? {
        NormalizedTailDetermines(a, b);
      } else {
        PlannedTail(a);
        PlannedTail(b);
        PlannedKeyDetermines(a.spec, a.applied, b.spec, b.applied);
      }
    }
  }

  lemma PlannedTail(request: Request)
    requires request.Planned? && Cached(request)
    ensures StemTail(request) == CacheKey(request.spec) + GainSuffix(request.applied) && Keyed(request.spec)
  {
  }
}
