/** Album runs in a queue and the loudness gain applied along them. Levels are exact reals, in dB. */
module AlbumGain {
  import opened Wrappers

  /** What a queue entry says about its track. Absent or unreadable numbers are None. Absent text is empty,
      but for the artist, whose absence is told from emptiness when albums are compared. */
  datatype Track = Track(
    id: Option<int>,
    releaseId: string, albumMbid: string, album: string, albumArtist: string, artist: Option<string>,
    trackNo: Option<int>, discNo: Option<int>)

  datatype GainMode = Raw | TrackMode | AlbumMode

  /** The gain fields written into a queue entry; before the first update they are whatever they were. */
  datatype GainFields = GainFields(mode: GainMode, gain: Option<real>)

  /** A queue entry: a dictionary, or something else that the code passes over. */
  datatype Item = NotADict | Entry(track: Track, gain: GainFields)

  /** A row of track_audio_analysis, as far as gain goes. */
  datatype Analysis = Analysis(complete: bool, loudness: Option<real>, truePeak: Option<real>, albumGain: Option<real>)

  const TARGET_LOUDNESS := -16.0
  const TRUE_PEAK_CEILING := -1.0
  const MAX_BOOST := 6.0

  // ----- Album runs -----

  function FirstOf(a: string, b: string): string { if a != "" then a else b }

  function AlbumKey(t: Track): (string, Option<string>) {
    (FirstOf(t.releaseId, FirstOf(t.albumMbid, t.album)), if t.albumArtist != "" then Some(t.albumArtist) else t.artist)
  }

  predicate ContiguousOrder(t: Track, u: Track) {
    t.trackNo.None? || u.trackNo.None?
    || (t.discNo.Some? && u.discNo.Some? && t.discNo != u.discNo)
    || t.trackNo.value - u.trackNo.value == 1 || u.trackNo.value - t.trackNo.value == 1
  }

  /** The tracks of a queue, without the gain fields. */
  function Tracks(queue: seq<Item>): (tracks: seq<Option<Track>>)
    ensures |tracks| == |queue|
    ensures forall i :: 0 <= i < |queue| ==> tracks[i] == TrackOf(queue[i])
  {
    seq(|queue|, i requires 0 <= i < |queue| => TrackOf(queue[i]))
  }

  function TrackOf(item: Item): Option<Track> { if item.Entry? then Some(item.track) else None }

  predicate HasAlbum(tracks: seq<Option<Track>>, i: nat)
    requires i < |tracks|
  {
    tracks[i].Some? && AlbumKey(tracks[i].value).0 != ""
  }

  /** Entries j and j + 1 are neighbours on one album. */
  predicate Linked(tracks: seq<Option<Track>>, j: int) {
    && 0 <= j < |tracks| - 1
    && HasAlbum(tracks, j) && tracks[j + 1].Some?
    && AlbumKey(tracks[j].value) == AlbumKey(tracks[j + 1].value)
    && ContiguousOrder(tracks[j].value, tracks[j + 1].value)
  }

  function RunStart(tracks: seq<Option<Track>>, i: nat): (start: nat)
    ensures start <= i
  {
    if i > 0 && Linked(tracks, i - 1) then RunStart(tracks, i - 1) else i
  }

  function RunEnd(tracks: seq<Option<Track>>, i: nat): (end: nat)
    requires i < |tracks|
    ensures i <= end < |tracks|
    decreases |tracks| - i
  {
    if Linked(tracks, i) then RunEnd(tracks, i + 1) else i
  }

  function TrackIds(tracks: seq<Option<Track>>): seq<int> {
    if tracks == [] then []
    else
      TrackIds(tracks[..|tracks| - 1])
      + match tracks[|tracks| - 1]
        case Some(t) => if t.id.Some? then [t.id.value] else []
        case None => []
  }

  /** The ids of the run around an index; empty off the queue, off a dictionary and off an album. */
  function SequenceIds(tracks: seq<Option<Track>>, index: int): seq<int> {
    if 0 <= index < |tracks| && HasAlbum(tracks, index) then
      TrackIds(tracks[RunStart(tracks, index)..RunEnd(tracks, index) + 1])
    else []
  }

  method FindStart(queue: seq<Item>, index: nat, key: (string, Option<string>)) returns (start: nat)
    requires index < |queue| && HasAlbum(Tracks(queue), index) && AlbumKey(queue[index].track) == key
    ensures start == RunStart(Tracks(queue), index)
  {
    ghost var tracks := Tracks(queue);
    start := index;
    while start > 0
      invariant start <= index && RunStart(tracks, start) == RunStart(tracks, index)
      invariant HasAlbum(tracks, start) && AlbumKey(queue[start].track) == key
    {
      hide AlbumKey, ContiguousOrder;
      var previous, current := queue[start - 1], queue[start];
      if !previous.Entry? || !current.Entry? {
        break;
      }
      if AlbumKey(previous.track) != key || !ContiguousOrder(previous.track, current.track) {
        break;
      }
      start := start - 1;
    }
  }

  method FindEnd(queue: seq<Item>, index: nat, key: (string, Option<string>)) returns (end: nat)
    requires index < |queue| && HasAlbum(Tracks(queue), index) && AlbumKey(queue[index].track) == key
    ensures end == RunEnd(Tracks(queue), index)
  {
    ghost var tracks := Tracks(queue);
    end := index;
    while end + 1 < |queue|
      invariant index <= end < |queue| && RunEnd(tracks, end) == RunEnd(tracks, index)
      invariant HasAlbum(tracks, end) && AlbumKey(queue[end].track) == key
    {
      hide AlbumKey, ContiguousOrder;
      var current, next := queue[end], queue[end + 1];
      if !current.Entry? || !next.Entry? {
        break;
      }
      if AlbumKey(next.track) != key || !ContiguousOrder(current.track, next.track) {
        break;
      }
      end := end + 1;
    }
  }

  method CollectIds(items: seq<Item>) returns (ids: seq<int>)
    ensures ids == TrackIds(Tracks(items))
  {
    ids := [];
    ghost var tracks := Tracks(items);
    for k := 0 to |items|
      invariant ids == TrackIds(tracks[..k])
    {
      assert tracks[..k + 1][..k] == tracks[..k];
      if items[k].Entry? && items[k].track.id.Some? {
        ids := ids + [items[k].track.id.value];
      }
    }
    assert tracks[..|items|] == tracks;
  }

  method AlbumSequenceTrackIds(queue: seq<Item>, index: int) returns (ids: seq<int>)
    ensures ids == SequenceIds(Tracks(queue), index)
  {
    hide RunStart, RunEnd, TrackIds;
    if index < 0 || index >= |queue| {
      return [];
    }
    if !queue[index].Entry? {
      return [];
    }
    var key := AlbumKey(queue[index].track);
    if key.0 == "" {
      return [];
    }
    var start := FindStart(queue, index, key);
    var end := FindEnd(queue, index, key);
    ids := CollectIds(queue[start..end + 1]);
    assert Tracks(queue[start..end + 1]) == Tracks(queue)[start..end + 1];
  }

  // ----- Runs partition the queue -----

  lemma {:induction false} LinkedInside(tracks: seq<Option<Track>>, i: nat, j: nat)
    requires i < |tracks| && RunStart(tracks, i) <= j < RunEnd(tracks, i)
    ensures Linked(tracks, j)
    decreases if j < i then i - j else j - i
  {
    if j < i {
      if j < i - 1 {
        LinkJoinsRuns(tracks, i - 1);
        LinkedInside(tracks, i - 1, j);
      }
    } else if j > i {
      LinkJoinsRuns(tracks, i);
      LinkedInside(tracks, i + 1, j);
    }
  }

  lemma LinkJoinsRuns(tracks: seq<Option<Track>>, i: nat)
    requires i + 1 < |tracks| && Linked(tracks, i)
    ensures RunStart(tracks, i + 1) == RunStart(tracks, i) && RunEnd(tracks, i + 1) == RunEnd(tracks, i)
  {
  }

  lemma {:induction false} SameBounds(tracks: seq<Option<Track>>, i: nat, j: nat)
    requires i < |tracks| && RunStart(tracks, i) <= j <= RunEnd(tracks, i)
    ensures RunStart(tracks, j) == RunStart(tracks, i) && RunEnd(tracks, j) == RunEnd(tracks, i)
    ensures HasAlbum(tracks, j) <==> HasAlbum(tracks, i)
    decreases if j < i then i - j else j - i
  {
    hide AlbumKey, ContiguousOrder;
    if j < i {
      LinkJoinsRuns(tracks, i - 1);
      SameAlbum(tracks, i - 1);
      SameBounds(tracks, i - 1, j);
    } else if j > i {
      LinkJoinsRuns(tracks, i);
      SameAlbum(tracks, i);
      SameBounds(tracks, i + 1, j);
    }
  }

  lemma SameAlbum(tracks: seq<Option<Track>>, i: nat)
    requires Linked(tracks, i)
    ensures HasAlbum(tracks, i) && HasAlbum(tracks, i + 1)
  {
  }

  /** Any index inside the run found from i finds the same run, and the same track list. */
  lemma RunsPartition(tracks: seq<Option<Track>>, i: nat, j: nat)
    requires i < |tracks| && RunStart(tracks, i) <= j <= RunEnd(tracks, i)
    ensures RunStart(tracks, j) == RunStart(tracks, i) && RunEnd(tracks, j) == RunEnd(tracks, i)
    ensures SequenceIds(tracks, j) == SequenceIds(tracks, i)
  {
    hide RunStart, RunEnd, TrackIds, HasAlbum;
    SameBounds(tracks, i, j);
  }

  /** A run is maximal: it is linked throughout, and neither end is linked to what lies beyond. */
  lemma {:induction false} RunIsMaximal(tracks: seq<Option<Track>>, i: nat)
    requires i < |tracks|
    ensures forall j :: RunStart(tracks, i) <= j < RunEnd(tracks, i) ==> Linked(tracks, j)
    ensures !Linked(tracks, RunStart(tracks, i) - 1) && !Linked(tracks, RunEnd(tracks, i))
  {
    forall j | RunStart(tracks, i) <= j < RunEnd(tracks, i) ensures Linked(tracks, j) {
      LinkedInside(tracks, i, j);
    }
    StartIsFirst(tracks, i);
    EndIsLast(tracks, i);
  }

  lemma StartIsFirst(tracks: seq<Option<Track>>, i: nat)
    ensures !Linked(tracks, RunStart(tracks, i) - 1)
  {
  }

  lemma EndIsLast(tracks: seq<Option<Track>>, i: nat)
    requires i < |tracks|
    ensures !Linked(tracks, RunEnd(tracks, i))
    decreases |tracks| - i
  {
    if Linked(tracks, i) {
      EndIsLast(tracks, i + 1);
    }
  }

  // ----- Gain -----

  function Lower(a: real, b: real): real { if a <= b then a else b }

  function TrackGain(loudness: real, truePeak: Option<real>): real {
    var wanted := Lower(TARGET_LOUDNESS - loudness, MAX_BOOST);
    if truePeak.Some? then Lower(wanted, TRUE_PEAK_CEILING - truePeak.value) else wanted
  }

  function AlbumGainDb(albumGain: real, albumPeak: Option<real>): real {
    var wanted := Lower(albumGain, MAX_BOOST);
    if albumPeak.Some? then Lower(wanted, TRUE_PEAK_CEILING - albumPeak.value) else wanted
  }

  type Analyses = map<int, Analysis>

  /** The highest measured true peak among some tracks. */
  function PeakOf(ids: seq<int>, analyses: Analyses): Option<real> {
    if ids == [] then None
    else
      var rest, last := PeakOf(ids[..|ids| - 1], analyses), ids[|ids| - 1];
      if last !in analyses || analyses[last].truePeak.None? then rest
      else if rest.None? || analyses[last].truePeak.value > rest.value then analyses[last].truePeak
      else rest
  }

  predicate CanNormalize(analyses: Analyses, id: int) {
    id in analyses && analyses[id].complete && analyses[id].loudness.Some?
  }

  /** The entry is on a run of more than one track and has a stored album gain. */
  predicate UsesAlbumGain(tracks: seq<Option<Track>>, analyses: Analyses, i: nat) {
    && i < |tracks| && tracks[i].Some? && tracks[i].value.id.Some? && CanNormalize(analyses, tracks[i].value.id.value)
    && analyses[tracks[i].value.id.value].albumGain.Some? && |SequenceIds(tracks, i)| > 1
  }

  predicate UsesTrackGain(tracks: seq<Option<Track>>, analyses: Analyses, i: nat) {
    && i < |tracks| && tracks[i].Some? && tracks[i].value.id.Some? && CanNormalize(analyses, tracks[i].value.id.value)
    && !UsesAlbumGain(tracks, analyses, i)
  }

  /** The gain fields of entry i. */
  function GainFor(tracks: seq<Option<Track>>, analyses: Analyses, i: nat): GainFields
    requires i < |tracks| && tracks[i].Some? && tracks[i].value.id.Some?
  {
    var id := tracks[i].value.id.value;
    if !CanNormalize(analyses, id) then GainFields(Raw, None)
    else if UsesAlbumGain(tracks, analyses, i) then
      GainFields(AlbumMode, Some(AlbumGainDb(analyses[id].albumGain.value, PeakOf(SequenceIds(tracks, i), analyses))))
    else
      GainFields(TrackMode, Some(TrackGain(analyses[id].loudness.value, analyses[id].truePeak)))
  }

  /** Entries with an id get gain fields; id zero counts as none. */
  function WithGain(queue: seq<Item>, analyses: Analyses, i: nat): Item
    requires i < |queue|
  {
    if queue[i].Entry? && queue[i].track.id.Some? && queue[i].track.id.value != 0 then
      queue[i].(gain := GainFor(Tracks(queue), analyses, i))
    else queue[i]
  }

  /** The player's pass over its queue: gain fields are written into the entries while the runs are still
      being read from the same queue. */
  method ApplyGains(queue: array<Item>, analyses: Analyses)
    modifies queue
    ensures forall i :: 0 <= i < queue.Length ==> queue[i] == WithGain(old(queue[..]), analyses, i)
  {
    for i := 0 to queue.Length
      invariant forall j :: 0 <= j < i ==> queue[j] == WithGain(old(queue[..]), analyses, j)
      invariant forall j :: i <= j < queue.Length ==> queue[j] == old(queue[j])
    {
      assert Tracks(queue[..]) == Tracks(old(queue[..]));
      var item := queue[i];
      if item.Entry? && item.track.id.Some? && item.track.id.value != 0 {
        var id := item.track.id.value;
        if id in analyses && analyses[id].complete && analyses[id].loudness.Some? {
          var analysis := analyses[id];
          var ids := AlbumSequenceTrackIds(queue[..], i);
          if analysis.albumGain.Some? && |ids| > 1 {
            var albumPeak := FindPeak(ids, analyses);
            queue[i] := item.(gain := GainFields(AlbumMode, Some(AlbumGainDb(analysis.albumGain.value, albumPeak))));
          } else {
            var gain := TrackGain(analysis.loudness.value, analysis.truePeak);
            queue[i] := item.(gain := GainFields(TrackMode, Some(gain)));
          }
        } else {
          queue[i] := item.(gain := GainFields(Raw, None));
        }
      }
    }
  }

  method FindPeak(ids: seq<int>, analyses: Analyses) returns (peak: Option<real>)
    ensures peak == PeakOf(ids, analyses)
  {
    peak := None;
    for k := 0 to |ids|
      invariant peak == PeakOf(ids[..k], analyses)
    {
      assert ids[..k + 1][..k] == ids[..k];
      if ids[k] in analyses && analyses[ids[k]].truePeak.Some? {
        if peak.None? || analyses[ids[k]].truePeak.value > peak.value {
          peak := analyses[ids[k]].truePeak;
        }
      }
    }
    assert ids[..|ids|] == ids;
  }

  // ----- What the gain guarantees -----

  lemma {:induction false} PeakBounds(ids: seq<int>, analyses: Analyses, id: int)
    requires id in ids && id in analyses && analyses[id].truePeak.Some?
    ensures PeakOf(ids, analyses).Some? && analyses[id].truePeak.value <= PeakOf(ids, analyses).value
  {
    var front := ids[..|ids| - 1];
    if id in front {
      PeakBounds(front, analyses, id);
    }
  }

  lemma {:induction false} IdsOfRun(tracks: seq<Option<Track>>, k: nat)
    requires k < |tracks| && tracks[k].Some? && tracks[k].value.id.Some?
    ensures tracks[k].value.id.value in TrackIds(tracks)
  {
    if k < |tracks| - 1 {
      IdsOfRun(tracks[..|tracks| - 1], k);
    }
  }

  /** Album gain boosts by at most 6 dB, and with it no measured peak anywhere in the run goes above -1 dBTP. */
  lemma AlbumGainIsPeakSafe(tracks: seq<Option<Track>>, analyses: Analyses, i: nat, j: nat)
    requires UsesAlbumGain(tracks, analyses, i)
    requires RunStart(tracks, i) <= j <= RunEnd(tracks, i) && tracks[j].Some? && tracks[j].value.id.Some?
    ensures var gain := GainFor(tracks, analyses, i).gain.value;
            gain <= 6.0
            && (tracks[j].value.id.value in analyses && analyses[tracks[j].value.id.value].truePeak.Some? ==>
                  gain + analyses[tracks[j].value.id.value].truePeak.value <= -1.0)
  {
    hide RunStart, RunEnd, TrackIds, PeakOf;
    var run, id := tracks[RunStart(tracks, i)..RunEnd(tracks, i) + 1], tracks[j].value.id.value;
    assert run[j - RunStart(tracks, i)] == tracks[j];
    IdsOfRun(run, j - RunStart(tracks, i));
    if id in analyses && analyses[id].truePeak.Some? {
      PeakBounds(SequenceIds(tracks, i), analyses, id);
    }
  }

  lemma {:induction false} PeakIsMeasured(ids: seq<int>, analyses: Analyses)
    requires PeakOf(ids, analyses).Some?
    ensures exists id :: id in ids && id in analyses && analyses[id].truePeak == PeakOf(ids, analyses)
  {
    var front, last := ids[..|ids| - 1], ids[|ids| - 1];
    if last !in analyses || analyses[last].truePeak != PeakOf(ids, analyses) {
      PeakIsMeasured(front, analyses);
    }
  }

  /** And it is the greatest such gain that does not exceed the stored one: it is the stored gain, or 6 dB, or
      some measured peak of the run is lifted to exactly -1 dBTP. */
  lemma AlbumGainIsGreatest(tracks: seq<Option<Track>>, analyses: Analyses, i: nat)
    requires UsesAlbumGain(tracks, analyses, i)
    ensures var gain := GainFor(tracks, analyses, i).gain.value;
            var stored := analyses[tracks[i].value.id.value].albumGain.value;
            && gain <= stored
            && (gain == stored || gain == 6.0
                || exists id :: && id in SequenceIds(tracks, i) && id in analyses
                                && analyses[id].truePeak == Some(-1.0 - gain))
  {
    hide RunStart, RunEnd, TrackIds, PeakOf;
    var ids := SequenceIds(tracks, i);
    if PeakOf(ids, analyses).Some? {
      PeakIsMeasured(ids, analyses);
      var id :| id in ids && id in analyses && analyses[id].truePeak == PeakOf(ids, analyses);
    }
  }

  /** Track gain does the same for the track's own peak, and never makes it louder than the target. */
  lemma TrackGainIsPeakSafe(tracks: seq<Option<Track>>, analyses: Analyses, i: nat)
    requires UsesTrackGain(tracks, analyses, i)
    ensures var gain, a := GainFor(tracks, analyses, i).gain.value, analyses[tracks[i].value.id.value];
            && gain <= 6.0 && a.loudness.value + gain <= -16.0
            && (a.truePeak.Some? ==> gain + a.truePeak.value <= -1.0)
            && (|| gain == 6.0 || a.loudness.value + gain == -16.0
                || (a.truePeak.Some? && gain + a.truePeak.value == -1.0))
  {
  }

  /** Tracks of one run with one stored album gain get one applied gain, so the album keeps its balance. */
  lemma RunKeepsItsBalance(tracks: seq<Option<Track>>, analyses: Analyses, i: nat, j: nat)
    requires UsesAlbumGain(tracks, analyses, i)
    requires RunStart(tracks, i) <= j <= RunEnd(tracks, i) && tracks[j].Some? && tracks[j].value.id.Some?
    requires tracks[j].value.id.value in analyses
    requires var a, b := analyses[tracks[i].value.id.value], analyses[tracks[j].value.id.value];
             b.complete && b.loudness.Some? && a.albumGain == b.albumGain
    ensures GainFor(tracks, analyses, j) == GainFor(tracks, analyses, i)
  {
    RunsPartition(tracks, i, j);
  }
}
