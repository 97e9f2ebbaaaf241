/** Whole names of files in the stream cache. */
module CacheFileNames {
  import opened OutputSpecs
  import opened PlaybackPlan
  import opened RenderCache
  import opened RenderCacheTheorems
  import opened Text
  import opened Wrappers

  /** What a rendering's source content is known by: its stored hash in hexadecimal, or without one the file's
      modification time in whole seconds, before 1970 possibly negative, and its size. */
  datatype Fingerprint = Hashed(hex: string) | Stat(mtime: int, size: nat) {
    predicate Valid() { Hashed? ==> Without(hex, '-') }
  }

  function IntText(n: int): string { if n < 0 then "-" + Dec(-n) else Dec(n) }

  function FingerprintText(f: Fingerprint): string {
    match f
    case Hashed(hex) => hex
    case Stat(mtime, size) => IntText(mtime) + ['-'] + Dec(size)
  }

  /** The name after the track's id. */
  function NameTail(f: Fingerprint, request: Request): string { FingerprintText(f) + ['-'] + FileName(request) }

  function WholeName(track: nat, f: Fingerprint, request: Request): string {
    "track-" + (Dec(track) + ['-'] + NameTail(f, request))
  }

  lemma NumberHasNoDash(n: nat)
    ensures Without(Dec(n), '-') && Dec(n) != "" && IsDigit(Dec(n)[0])
  {
  }

  lemma NameStartsWithLetter(request: Request)
    ensures FileName(request) != "" && FileName(request)[0] in {'o', 'f', 'm'}
  {
    hide Dec, CacheKey, GainKey, GainSuffix, Extension;
  }

  /** Two tracks never share a cache file, whatever their contents are known by. */
  lemma TracksNeverShare(track: nat, f: Fingerprint, request: Request, track': nat, f': Fingerprint, request': Request)
    requires WholeName(track, f, request) == WholeName(track', f', request')
    ensures track == track' && NameTail(f, request) == NameTail(f', request')
  {
    hide NameTail, Dec;
    var rest, rest' := Dec(track) + ['-'] + NameTail(f, request), Dec(track') + ['-'] + NameTail(f', request');
    assert rest == WholeName(track, f, request)[6..] == WholeName(track', f', request')[6..] == rest';
    NumberHasNoDash(track);
    NumberHasNoDash(track');
    CutIsUnique(Dec(track), NameTail(f, request), Dec(track'), NameTail(f', request'), '-');
    DecInjective(track, track');
  }

  // ----- The fingerprint can be told from the rest -----

  /** What follows a time: the size, and the rest of the name. */
  function SizeTail(f: Fingerprint, request: Request): string
    requires f.Stat?
  {
    Dec(f.size) + ['-'] + FileName(request)
  }

  lemma StatTail(f: Fingerprint, request: Request)
    requires f.Stat?
    ensures f.mtime >= 0 ==> NameTail(f, request) == Dec(f.mtime) + ['-'] + SizeTail(f, request)
    ensures f.mtime < 0 ==> NameTail(f, request) == "" + ['-'] + (Dec(-f.mtime) + ['-'] + SizeTail(f, request))
    ensures SizeTail(f, request) != "" && IsDigit(SizeTail(f, request)[0])
  {
    hide FileName, Dec;
    NumberHasNoDash(f.size);
    var time, name := IntText(f.mtime), FileName(request);
    assert time + ['-'] + Dec(f.size) + ['-'] + name == time + ['-'] + (Dec(f.size) + ['-'] + name);
    if f.mtime < 0 {
      var after := SizeTail(f, request);
      assert "-" + Dec(-f.mtime) + ['-'] + after == "" + ['-'] + (Dec(-f.mtime) + ['-'] + after);
    }
  }

  lemma HashIsNoStat(f: Fingerprint, request: Request, f': Fingerprint, request': Request)
    requires f.Hashed? && f.Valid() && f'.Stat?
    ensures NameTail(f, request) != NameTail(f', request')
  {
    hide FileName, Dec, SizeTail;
    NameStartsWithLetter(request);
    StatTail(f', request');
    if NameTail(f, request) == NameTail(f', request') {
      if f'.mtime >= 0 {
        NumberHasNoDash(f'.mtime);
        CutIsUnique(f.hex, FileName(request), Dec(f'.mtime), SizeTail(f', request'), '-');
      } else {
        NumberHasNoDash(-f'.mtime);
        CutIsUnique(f.hex, FileName(request), "", Dec(-f'.mtime) + ['-'] + SizeTail(f', request'), '-');
      }
    }
  }

  lemma SameTimeAndSize(f: Fingerprint, request: Request, f': Fingerprint, request': Request)
    requires f.Stat? && f'.Stat? && NameTail(f, request) == NameTail(f', request')
    ensures f == f' && FileName(request) == FileName(request')
  {
    hide FileName, Dec, NameTail;
    StatTail(f, request);
    StatTail(f', request');
    var m, m' := if f.mtime < 0 then -f.mtime else f.mtime, if f'.mtime < 0 then -f'.mtime else f'.mtime;
    NumberHasNoDash(m);
    NumberHasNoDash(m');
    var rest, rest' := Dec(m) + ['-'] + SizeTail(f, request), Dec(m') + ['-'] + SizeTail(f', request');
    assert f.mtime < 0 ==> NameTail(f, request)[0] == '-' && NameTail(f, request)[1..] == rest;
    assert f'.mtime < 0 ==> NameTail(f', request')[0] == '-' && NameTail(f', request')[1..] == rest';
    assert rest[0] != '-' && rest'[0] != '-';
    assert rest == rest';
    CutIsUnique(Dec(m), SizeTail(f, request), Dec(m'), SizeTail(f', request'), '-');
    DecInjective(m, m');
    NumberHasNoDash(f.size);
    NumberHasNoDash(f'.size);
    CutIsUnique(Dec(f.size), FileName(request), Dec(f'.size), FileName(request'), '-');
    DecInjective(f.size, f'.size);
  }

  lemma SameHash(f: Fingerprint, request: Request, f': Fingerprint, request': Request)
    requires f.Hashed? && f'.Hashed? && f.Valid() && f'.Valid() && NameTail(f, request) == NameTail(f', request')
    ensures f == f' && FileName(request) == FileName(request')
  {
    hide FileName;
    CutIsUnique(f.hex, FileName(request), f'.hex, FileName(request'), '-');
  }

  /** A cache file is of one track and one content, and every request that shares it wants one rendering. */
  lemma WholeNameDetermines(track: nat, f: Fingerprint, request: Request, track': nat, f': Fingerprint,
                            request': Request)
    requires f.Valid() && f'.Valid() && Cached(request) && Cached(request')
    requires WholeName(track, f, request) == WholeName(track', f', request')
    ensures track == track' && f == f'
    ensures Arguments(request) == Arguments(request') && FileExtension(request) == FileExtension(request')
  {
    TracksNeverShare(track, f, request, track', f', request');
    hide WholeName, NameTail, FileName, Cached, Arguments, FileExtension;
    if f.Stat? && f'.Stat? {
      SameTimeAndSize(f, request, f', request');
    } else if f.Stat? {
      HashIsNoStat(f', request', f, request);
    } else if f'.Stat? {
      HashIsNoStat(f, request, f', request');
    } else {
      SameHash(f, request, f', request');
    }
    SameFileSameRendering(request, request');
  }
}
