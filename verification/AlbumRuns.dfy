/** Album runs in terms of what the queue entries say. */
module AlbumRuns {
  import opened AlbumGain
  import opened Wrappers

  /** The first of release id, album id and album title that is there is the name. */
  predicate OnAlbum(t: Track, name: string) {
    && name != ""
    && (|| t.releaseId == name
        || (t.releaseId == "" && t.albumMbid == name)
        || (t.releaseId == "" && t.albumMbid == "" && t.album == name))
  }

  /** The album artist if there is one, else the artist if there is one. */
  predicate ByArtist(t: Track, artist: Option<string>) {
    (t.albumArtist != "" && artist == Some(t.albumArtist)) || (t.albumArtist == "" && artist == t.artist)
  }

  /** Track numbers one apart either way; a missing number or two known and different discs excuse any gap. */
  ghost predicate InOrder(t: Track, u: Track) {
    forall m, n | t.trackNo == Some(m) && u.trackNo == Some(n) ::
      || n in {m - 1, m + 1}
      || (t.discNo != u.discNo && None !in {t.discNo, u.discNo})
  }

  /** Neighbours in the queue belong to one run exactly when both are entries of one album by one artist, and in
      order. */
  lemma LinkedExactly(tracks: seq<Option<Track>>, j: nat)
    requires j + 1 < |tracks|
    ensures Linked(tracks, j) <==>
            && tracks[j].Some? && tracks[j + 1].Some?
            && var t, u := tracks[j].value, tracks[j + 1].value;
               && (exists name :: OnAlbum(t, name) && OnAlbum(u, name))
               && (exists artist :: ByArtist(t, artist) && ByArtist(u, artist))
               && InOrder(t, u)
  {
    if tracks[j].Some? && tracks[j + 1].Some? {
      var t, u := tracks[j].value, tracks[j + 1].value;
      OrderExactly(t, u);
      KeyExactly(t, AlbumKey(t).0, AlbumKey(t).1);
      KeyExactly(u, AlbumKey(u).0, AlbumKey(u).1);
      hide InOrder, ContiguousOrder;
      forall name, artist
        ensures OnAlbum(t, name) && ByArtist(t, artist) <==> name != "" && AlbumKey(t) == (name, artist)
        ensures OnAlbum(u, name) && ByArtist(u, artist) <==> name != "" && AlbumKey(u) == (name, artist)
      {
        KeyExactly(t, name, artist);
        KeyExactly(u, name, artist);
      }
      hide AlbumKey, OnAlbum, ByArtist;
    }
  }

  lemma OrderExactly(t: Track, u: Track)
    ensures ContiguousOrder(t, u) <==> InOrder(t, u)
  {
    if t.trackNo.Some? && u.trackNo.Some? {
      assert InOrder(t, u) ==>
          u.trackNo.value in {t.trackNo.value - 1, t.trackNo.value + 1}
          || (t.discNo != u.discNo && None !in {t.discNo, u.discNo});
    }
  }

  lemma KeyExactly(t: Track, name: string, artist: Option<string>)
    ensures OnAlbum(t, name) && ByArtist(t, artist) <==> name != "" && AlbumKey(t) == (name, artist)
  {
  }

  /** All entries of a run are of one album by one artist. */
  lemma RunIsOneAlbum(tracks: seq<Option<Track>>, i: nat, j: nat)
    requires i < |tracks| && HasAlbum(tracks, i) && RunStart(tracks, i) <= j <= RunEnd(tracks, i)
    ensures tracks[j].Some?
    ensures exists name, artist ::
              && OnAlbum(tracks[i].value, name) && OnAlbum(tracks[j].value, name)
              && ByArtist(tracks[i].value, artist) && ByArtist(tracks[j].value, artist)
  {
    SameKey(tracks, i, j);
    var key := AlbumKey(tracks[i].value);
    KeyExactly(tracks[i].value, key.0, key.1);
    KeyExactly(tracks[j].value, key.0, key.1);
  }

  lemma {:induction false} SameKey(tracks: seq<Option<Track>>, i: nat, j: nat)
    requires i < |tracks| && HasAlbum(tracks, i) && RunStart(tracks, i) <= j <= RunEnd(tracks, i)
    ensures tracks[j].Some? && AlbumKey(tracks[j].value) == AlbumKey(tracks[i].value)
    decreases if j < i then i - j else j - i
  {
    hide AlbumKey, ContiguousOrder;
    if j < i {
      LinkJoinsRuns(tracks, i - 1);
      SameKey(tracks, i - 1, j);
    } else if j > i {
      LinkJoinsRuns(tracks, i);
      SameKey(tracks, i + 1, j);
    }
  }

  // ----- The ids of a run -----

  predicate HasId(tracks: seq<Option<Track>>, j: int) {
    0 <= j < |tracks| && tracks[j].Some? && tracks[j].value.id.Some?
  }

  lemma {:induction false} IdsComeFromTracks(tracks: seq<Option<Track>>, id: int)
    requires id in TrackIds(tracks)
    ensures exists j :: HasId(tracks, j) && tracks[j].value.id.value == id
  {
    var n := |tracks| - 1;
    if id in TrackIds(tracks[..n]) {
      IdsComeFromTracks(tracks[..n], id);
      var j :| HasId(tracks[..n], j) && tracks[..n][j].value.id.value == id;
      assert HasId(tracks, j);
    } else {
      assert HasId(tracks, n);
    }
  }

  /** The ids found are exactly those of the run's entries. */
  lemma IdsAreTheRuns(tracks: seq<Option<Track>>, i: nat, id: int)
    requires i < |tracks| && HasAlbum(tracks, i)
    ensures id in SequenceIds(tracks, i) <==>
            exists j :: RunStart(tracks, i) <= j <= RunEnd(tracks, i) && HasId(tracks, j)
                        && tracks[j].value.id.value == id
  {
    hide RunStart, RunEnd, TrackIds, HasAlbum;
    var start := RunStart(tracks, i);
    var run := tracks[start..RunEnd(tracks, i) + 1];
    if id in SequenceIds(tracks, i) {
      IdsComeFromTracks(run, id);
      var j :| HasId(run, j) && run[j].value.id.value == id;
      assert HasId(tracks, start + j);
    }
    if j :| RunStart(tracks, i) <= j <= RunEnd(tracks, i) && HasId(tracks, j) && tracks[j].value.id.value == id {
      assert run[j - start] == tracks[j];
      IdsOfRun(run, j - start);
    }
  }

  lemma {:induction false} SomeId(tracks: seq<Option<Track>>)
    ensures TrackIds(tracks) != [] <==> exists j :: HasId(tracks, j)
  {
    if j :| HasId(tracks, j) {
      IdsOfRun(tracks, j);
    }
    if TrackIds(tracks) != [] {
      IdsComeFromTracks(tracks, TrackIds(tracks)[0]);
    }
  }

  /** There is more than one id exactly when two places have one. */
  lemma {:induction false} TwoIds(tracks: seq<Option<Track>>)
    ensures |TrackIds(tracks)| > 1 <==> exists j, k :: j < k && HasId(tracks, j) && HasId(tracks, k)
  {
    if tracks == [] {
    } else {
      var n := |tracks| - 1;
      var front := tracks[..n];
      TwoIds(front);
      SomeId(front);
      assert forall j :: HasId(front, j) <==> j != n && HasId(tracks, j);
      assert |TrackIds(tracks)| == |TrackIds(front)| + if HasId(tracks, n) then 1 else 0;
      hide TrackIds;
    }
  }

  /** The album gain is used exactly for a completely analysed entry with a stored album gain, on an album, with
      some other entry of its run having an id too. */
  lemma AlbumGainIsUsedExactly(tracks: seq<Option<Track>>, analyses: Analyses, i: nat)
    requires i < |tracks|
    ensures UsesAlbumGain(tracks, analyses, i) <==>
            && HasId(tracks, i) && tracks[i].value.id.value in analyses
            && var a := analyses[tracks[i].value.id.value];
               && a.complete && a.loudness.Some? && a.albumGain.Some?
               && HasAlbum(tracks, i)
               && exists j :: RunStart(tracks, i) <= j <= RunEnd(tracks, i) && j != i && HasId(tracks, j)
  {
    hide RunStart, RunEnd, TrackIds, HasAlbum;
    if HasId(tracks, i) && HasAlbum(tracks, i) {
      OthersWithId(tracks, i, RunStart(tracks, i), RunEnd(tracks, i));
    }
  }

  lemma OthersWithId(tracks: seq<Option<Track>>, i: nat, start: nat, end: nat)
    requires start <= i <= end < |tracks| && HasId(tracks, i)
    ensures |TrackIds(tracks[start..end + 1])| > 1 <==> exists j :: start <= j <= end && j != i && HasId(tracks, j)
  {
    hide TrackIds;
    var run := tracks[start..end + 1];
    TwoIds(run);
    assert HasId(run, i - start);
    if j, k :| j < k && HasId(run, j) && HasId(run, k) {
      assert HasId(tracks, start + j) && HasId(tracks, start + k);
    }
    if j :| start <= j <= end && j != i && HasId(tracks, j) {
      assert HasId(run, j - start);
    }
  }
}
