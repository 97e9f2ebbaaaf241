/** The batched audio-analysis run: a cursor loop over a query whose own writes change what the query
    selects. */
module AnalysisRunner {
  import opened Extremes
  import opened Wrappers

  type Id = nat

  /** A row of track_audio_analysis, as far as selection goes: the file hash it was computed from, the
      analysis version, and the phases that have a completion stamp. */
  datatype Row = Row(hash: Option<int>, version: int, stamps: set<nat>, failed: bool)

  type Table = map<Id, Row>

  /** The tracks, with their current file hash; ids start at 1. */
  type Tracks = map<Id, Option<int>>

  const ANALYSIS_VERSION := 1

  // ----- The query -----

  /** Whether the phase still has to be done for a track. */
  predicate Outdated(tracks: Tracks, table: Table, phase: nat, id: Id)
    requires id in tracks
  {
    id !in table || phase !in table[id].stamps || table[id].hash != tracks[id] || table[id].version < ANALYSIS_VERSION
  }

  /** The filters of the query, without the cursor; later phases need the first one done. */
  predicate Selected(tracks: Tracks, scope: set<Id>, table: Table, phase: nat, force: bool, id: Id) {
    && id in tracks && id in scope
    && (force || Outdated(tracks, table, phase, id))
    && (phase >= 2 ==> id in table && 1 in table[id].stamps)
  }

  function Candidates(tracks: Tracks, scope: set<Id>, table: Table, phase: nat, force: bool): set<Id> {
    set id | id in tracks && Selected(tracks, scope, table, phase, force, id)
  }

  // ----- Ordering -----

  predicate Increasing(s: seq<Id>) { forall i, j :: 0 <= i < j < |s| ==> s[i] < s[j] }

  /** The elements in ascending order. */
  function Ordered(s: set<Id>): (r: seq<Id>)
    ensures |r| == |s|
    decreases |s|
  {
    if s == {} then [] else [MinOf(s)] + Ordered(s - {MinOf(s)})
  }

  lemma {:induction false} OrderedIsSorted(s: set<Id>)
    ensures Increasing(Ordered(s))
    ensures forall x :: x in Ordered(s) <==> x in s
    decreases |s|
  {
    if s == {} {
    } else {
      var rest := Ordered(s - {MinOf(s)});
      OrderedIsSorted(s - {MinOf(s)});
      assert forall i :: 0 <= i < |rest| ==> rest[i] in rest;
      assert Ordered(s) == [MinOf(s)] + rest;
    }
  }

  lemma {:induction false} IncreasingIsUnique(a: seq<Id>, b: seq<Id>)
    requires Increasing(a) && Increasing(b) && forall x :: x in a <==> x in b
    ensures a == b
  {
    assert a != [] ==> a[0] in a && a[0] in b;
    assert b != [] ==> b[0] in b && b[0] in a;
    if a == [] {
    } else {
      forall x ensures x in a[1..] <==> x in b[1..] {
        SplitFirst(a, x);
        SplitFirst(b, x);
      }
      IncreasingIsUnique(a[1..], b[1..]);
      assert a == [a[0]] + a[1..] && b == [b[0]] + b[1..];
    }
  }

  lemma SplitFirst(a: seq<Id>, x: Id)
    requires a != [] && Increasing(a)
    ensures x in a[1..] <==> x in a && x != a[0]
  {
  }

  /** What lies beyond the first k in order is what is greater than the k-th. */
  lemma OrderedBeyond(s: set<Id>, k: nat)
    requires 0 < k <= |s|
    ensures Ordered(set x | x in s && x > Ordered(s)[k - 1]) == Ordered(s)[k..]
  {
    var all := Ordered(s);
    var beyond := set x | x in s && x > all[k - 1];
    OrderedIsSorted(s);
    OrderedIsSorted(beyond);
    hide Ordered;
    forall x ensures x in all[k..] <==> x in Ordered(beyond) {
      SuffixIsGreater(all, k, x);
    }
    assert Increasing(all[k..]);
    IncreasingIsUnique(all[k..], Ordered(beyond));
  }

  lemma SuffixIsGreater(all: seq<Id>, k: nat, x: Id)
    requires Increasing(all) && 0 < k <= |all|
    ensures x in all[k..] <==> x in all && x > all[k - 1]
  {
  }

  // ----- Storing results -----

  function StampsOf(table: Table, id: Id): set<nat> { if id in table then table[id].stamps else {} }

  /** A stored result replaces hash, version and status and sets the phase's stamp; a stored error leaves
      every stamp as it was. */
  function Store(tracks: Tracks, table: Table, phase: nat, id: Id, ok: bool): Table
    requires id in tracks
  {
    var stamps := if ok then StampsOf(table, id) + {phase} else StampsOf(table, id);
    table[id := Row(tracks[id], ANALYSIS_VERSION, stamps, !ok)]
  }

  /** The table after a list of tracks has been processed. */
  function StoreAll(tracks: Tracks, table: Table, phase: nat, ids: seq<Id>, ok: Id -> bool): Table
    requires forall id :: id in ids ==> id in tracks
  {
    if ids == [] then table
    else
      var last := ids[|ids| - 1];
      Store(tracks, StoreAll(tracks, table, phase, ids[..|ids| - 1], ok), phase, last, ok(last))
  }

  function CountOk(ids: seq<Id>, ok: Id -> bool): (n: nat)
    ensures n <= |ids|
  {
    if ids == [] then 0 else CountOk(ids[..|ids| - 1], ok) + if ok(ids[|ids| - 1]) then 1 else 0
  }

  lemma {:induction false} CountAppend(a: seq<Id>, b: seq<Id>, ok: Id -> bool)
    ensures CountOk(a + b, ok) == CountOk(a, ok) + CountOk(b, ok)
  {
    if b == [] {
      assert a + b == a;
    } else {
      CountAppend(a, b[..|b| - 1], ok);
      assert (a + b)[..|a + b| - 1] == a + b[..|b| - 1];
    }
  }

  lemma {:induction false} StoreAppend(tracks: Tracks, table: Table, phase: nat, a: seq<Id>, b: seq<Id>, ok: Id -> bool)
    requires forall id :: id in a + b ==> id in tracks
    ensures (forall id :: id in a ==> id in tracks) && forall id :: id in b ==> id in tracks
    ensures StoreAll(tracks, table, phase, a + b, ok)
            == StoreAll(tracks, StoreAll(tracks, table, phase, a, ok), phase, b, ok)
  {
    assert forall id :: id in a || id in b ==> id in a + b;
    if b == [] {
      assert a + b == a;
    } else {
      assert (a + b)[..|a + b| - 1] == a + b[..|b| - 1];
      StoreAppend(tracks, table, phase, a, b[..|b| - 1], ok);
    }
  }

  /** Processing touches the processed tracks only. */
  lemma {:induction false} StoreAllFrame(tracks: Tracks, table: Table, phase: nat, ids: seq<Id>, ok: Id -> bool, id: Id)
    requires forall i :: i in ids ==> i in tracks
    requires id !in ids
    ensures var after := StoreAll(tracks, table, phase, ids, ok);
            (id in after <==> id in table) && (id in table ==> after[id] == table[id])
  {
    if ids == [] {
    } else {
      StoreAllFrame(tracks, table, phase, ids[..|ids| - 1], ok, id);
    }
  }

  /** The ids behind the cursor; a cursor of zero is no cursor. */
  function Above(found: set<Id>, cursor: nat): set<Id> {
    set id | id in found && (cursor == 0 || id > cursor)
  }

  /** After the first k candidates are processed, the query with the cursor behind them selects the rest of
      the original candidates, whatever the writes did to its filter. */
  lemma CursorSelectsTheRest(tracks: Tracks, scope: set<Id>, table: Table, phase: nat, force: bool, ok: Id -> bool,
                             k: nat)
    requires var all := Ordered(Candidates(tracks, scope, table, phase, force));
             0 < k <= |all| && all[k - 1] > 0 && forall id :: id in all[..k] ==> id in tracks
    ensures var all := Ordered(Candidates(tracks, scope, table, phase, force));
            var now := StoreAll(tracks, table, phase, all[..k], ok);
            Ordered(Above(Candidates(tracks, scope, now, phase, force), all[k - 1])) == all[k..]
  {
    var found := Candidates(tracks, scope, table, phase, force);
    var all := Ordered(found);
    var now := StoreAll(tracks, table, phase, all[..k], ok);
    OrderedIsSorted(found);
    hide Ordered, StoreAll;
    forall id | id > all[k - 1]
      ensures id in Candidates(tracks, scope, now, phase, force) <==> id in found
    {
      assert id !in all[..k];
      StoreAllFrame(tracks, table, phase, all[..k], ok, id);
    }
    assert Above(Candidates(tracks, scope, now, phase, force), all[k - 1]) == (set id | id in found && id > all[k - 1]);
    OrderedBeyond(found, k);
  }

  function Lowest(s: set<Id>, wanted: nat): seq<Id> {
    if |s| <= wanted then Ordered(s) else Ordered(s)[..wanted]
  }

  /** As many of the ids as wanted and there are, each once, in ascending order, and lower than all others. */
  ghost predicate AreLowest(ids: seq<Id>, s: set<Id>, wanted: nat) {
    && Increasing(ids) && |ids| == (if |s| <= wanted then |s| else wanted)
    && (forall id :: id in ids ==> id in s)
    && (forall id, other :: id in ids && other in s && other !in ids ==> id < other)
  }

  lemma LowestIsLowest(s: set<Id>, wanted: nat)
    ensures AreLowest(Lowest(s, wanted), s, wanted)
  {
    OrderedIsSorted(s);
  }

  lemma LowestIsPrefix(s: set<Id>, wanted: nat)
    requires wanted <= |s|
    ensures Lowest(s, wanted) == Ordered(s)[..wanted]
  {
  }

  /** The query's result: ids above the cursor, lowest first, as many as wanted. A cursor of zero is none. */
  function Batch(tracks: Tracks, scope: set<Id>, table: Table, phase: nat, force: bool, cursor: nat, wanted: nat)
    : seq<Id>
  {
    Lowest(Above(Candidates(tracks, scope, table, phase, force), cursor), wanted)
  }

  lemma CandidatesAreTracks(tracks: Tracks, scope: set<Id>, table: Table, phase: nat, force: bool)
    ensures var all := Ordered(Candidates(tracks, scope, table, phase, force));
            forall id :: id in all ==> id in tracks
  {
    OrderedIsSorted(Candidates(tracks, scope, table, phase, force));
  }

  /** The batch fetched after k tracks have been processed is the next slice of the original candidates. */
  lemma NextBatch(tracks: Tracks, scope: set<Id>, start: Table, phase: nat, force: bool, ok: Id -> bool, k: nat,
                  wanted: nat)
    requires forall id :: id in tracks ==> id > 0
    requires var all := Ordered(Candidates(tracks, scope, start, phase, force));
             k + wanted <= |all| && forall id :: id in all[..k] ==> id in tracks
    ensures var all := Ordered(Candidates(tracks, scope, start, phase, force));
            var now := StoreAll(tracks, start, phase, all[..k], ok);
            Batch(tracks, scope, now, phase, force, if k == 0 then 0 else all[k - 1], wanted) == all[k..k + wanted]
  {
    hide Candidates, Ordered, StoreAll, Lowest, Above, Selected;
    var found := Candidates(tracks, scope, start, phase, force);
    var all := Ordered(found);
    if k == 0 {
      OrderedKeepsSize(found);
      FirstBatch(tracks, scope, start, phase, force, wanted);
      NothingDone(tracks, start, phase, ok);
      hide Batch;
      assert all[..0] == [];
    } else {
      assert all[k - 1] in all[..k];
      CursorSelectsTheRest(tracks, scope, start, phase, force, ok, k);
      var now := StoreAll(tracks, start, phase, all[..k], ok);
      var rest := Above(Candidates(tracks, scope, now, phase, force), all[k - 1]);
      OrderedKeepsSize(rest);
      LowestIsPrefix(rest, wanted);
      assert all[k..][..wanted] == all[k..k + wanted];
    }
  }

  lemma OrderedKeepsSize(s: set<Id>)
    ensures |Ordered(s)| == |s|
  {
  }

  lemma FirstBatch(tracks: Tracks, scope: set<Id>, start: Table, phase: nat, force: bool, wanted: nat)
    requires wanted <= |Candidates(tracks, scope, start, phase, force)|
    ensures Batch(tracks, scope, start, phase, force, 0, wanted)
            == Ordered(Candidates(tracks, scope, start, phase, force))[0..0 + wanted]
  {
    hide Ordered;
    var found := Candidates(tracks, scope, start, phase, force);
    assert Above(found, 0) == found;
    LowestIsPrefix(found, wanted);
    OrderedKeepsSize(found);
  }

  lemma NothingDone(tracks: Tracks, table: Table, phase: nat, ok: Id -> bool)
    ensures StoreAll(tracks, table, phase, [], ok) == table && CountOk([], ok) == 0
  {
  }

  type Positive = n: nat | n > 0 witness 1

  datatype Stats = Stats(selected: nat, analyzed: nat, updated: nat, errors: nat, skipped: nat)

  /** How many tracks a run is to process: all candidates, or as many as the limit allows. */
  function Quota(count: nat, limit: Option<int>): nat {
    if limit.None? then count
    else if limit.value < 0 then 0
    else if count <= limit.value then count
    else limit.value
  }

  // ----- The next run -----

  /** The phases stamped for a track once a phase has been stored for it. */
  function StampsAfter(table: Table, phase: nat, id: Id, ok: Id -> bool): set<nat> {
    if ok(id) then StampsOf(table, id) + {phase} else StampsOf(table, id)
  }

  lemma {:induction false} StoredRow(tracks: Tracks, table: Table, phase: nat, ids: seq<Id>, ok: Id -> bool, id: Id)
    requires (forall i :: i in ids ==> i in tracks) && id in ids
    ensures var after := StoreAll(tracks, table, phase, ids, ok);
            id in after
            && after[id] == Row(tracks[id], ANALYSIS_VERSION, StampsAfter(table, phase, id, ok), !ok(id))
  {
    var front, last := ids[..|ids| - 1], ids[|ids| - 1];
    if id in front {
      StoredRow(tracks, table, phase, front, ok, id);
    } else {
      StoreAllFrame(tracks, table, phase, front, ok, id);
    }
  }

  /** Which tracks the next unforced run of a phase selects after this run stored results of another phase or
      the same one, if nothing else changes. Storing anything makes a track current, so of the processed ones
      they are those without a stamp of the phase; of the others, those outdated before. */
  lemma NextRunSelects(tracks: Tracks, scope: set<Id>, table: Table, stored: nat, next: nat, force: bool,
                       ids: seq<Id>, ok: Id -> bool, id: Id)
    requires (forall i :: i in ids ==> i in tracks && Selected(tracks, scope, table, stored, force, i)) && id in tracks
    ensures Selected(tracks, scope, StoreAll(tracks, table, stored, ids, ok), next, false, id) <==>
            if id in ids then
              next !in StampsAfter(table, stored, id, ok) && (next >= 2 ==> 1 in StampsAfter(table, stored, id, ok))
            else Selected(tracks, scope, table, next, false, id)
  {
    if id in ids {
      StoredRow(tracks, table, stored, ids, ok, id);
    } else {
      StoreAllFrame(tracks, table, stored, ids, ok, id);
    }
  }

  /** So a file that changed after it was once analysed, and whose new analysis fails, is not tried again,
      although the results on record are those of the old file. */
  lemma FailedReanalysisIsNotRetried(tracks: Tracks, scope: set<Id>, table: Table, phase: nat, ids: seq<Id>,
                                     ok: Id -> bool, id: Id)
    requires forall i :: i in ids ==> i in tracks && Selected(tracks, scope, table, phase, false, i)
    requires id in ids && id in table && phase in table[id].stamps && table[id].hash != tracks[id] && !ok(id)
    ensures Selected(tracks, scope, table, phase, false, id)
    ensures !Selected(tracks, scope, StoreAll(tracks, table, phase, ids, ok), phase, false, id)
  {
    NextRunSelects(tracks, scope, table, phase, phase, false, ids, ok, id);
  }

  /** Nor is any other phase that has a stamp, and there success is no help: when one phase of a changed file
      is stored, the file no longer counts as changed, and the results of the other phases stay those of the
      old file. Before, each of them was due as soon as phase 1 had a stamp. */
  lemma OtherPhasesKeepOldResults(tracks: Tracks, scope: set<Id>, table: Table, stored: nat, other: nat, force: bool,
                                  ids: seq<Id>, ok: Id -> bool, id: Id)
    requires forall i :: i in ids ==> i in tracks && Selected(tracks, scope, table, stored, force, i)
    requires id in ids && id in table && other in table[id].stamps && table[id].hash != tracks[id]
    ensures Selected(tracks, scope, table, other, false, id) <==> (other >= 2 ==> 1 in table[id].stamps)
    ensures !Selected(tracks, scope, StoreAll(tracks, table, stored, ids, ok), other, false, id)
    ensures Settled(tracks, StoreAll(tracks, table, stored, ids, ok), other, id)
  {
    NextRunSelects(tracks, scope, table, stored, other, force, ids, ok, id);
    StoredRow(tracks, table, stored, ids, ok, id);
  }

  /** A track has a current row with a stamp of the phase. */
  predicate Settled(tracks: Tracks, table: Table, phase: nat, id: Id) {
    && id in tracks && id in table && table[id].hash == tracks[id] && table[id].version >= ANALYSIS_VERSION
    && phase in table[id].stamps
  }

  /** What a run of some phase stored. */
  datatype PhaseRun = PhaseRun(phase: nat, ids: seq<Id>, ok: Id -> bool)

  function AfterRuns(tracks: Tracks, table: Table, runs: seq<PhaseRun>): Table
    requires forall r, id :: r in runs && id in r.ids ==> id in tracks
  {
    if runs == [] then table
    else
      var last := runs[|runs| - 1];
      StoreAll(tracks, AfterRuns(tracks, table, runs[..|runs| - 1]), last.phase, last.ids, last.ok)
  }

  /** And it stays that way: whatever runs of whatever phases follow, forced ones included, while the files
      do not change, no unforced run of the phase selects the track. */
  lemma {:induction false} SettledForGood(tracks: Tracks, scope: set<Id>, table: Table, phase: nat,
                                          runs: seq<PhaseRun>, id: Id)
    requires forall r, i :: r in runs && i in r.ids ==> i in tracks
    requires Settled(tracks, table, phase, id)
    ensures Settled(tracks, AfterRuns(tracks, table, runs), phase, id)
    ensures !Selected(tracks, scope, AfterRuns(tracks, table, runs), phase, false, id)
  {
    if runs == [] {
    } else {
      var last := runs[|runs| - 1];
      SettledForGood(tracks, scope, table, phase, runs[..|runs| - 1], id);
      var before := AfterRuns(tracks, table, runs[..|runs| - 1]);
      if id in last.ids {
        StoredRow(tracks, before, last.phase, last.ids, last.ok, id);
      } else {
        StoreAllFrame(tracks, before, last.phase, last.ids, last.ok, id);
      }
    }
  }

  /** After a run over the first k candidates, the next unforced run selects only tracks that failed in it,
      or that were behind them. */
  lemma NextRunIsFailedOrLater(tracks: Tracks, scope: set<Id>, table: Table, phase: nat, force: bool, k: nat,
                               ok: Id -> bool, id: Id)
    requires var all := Ordered(Candidates(tracks, scope, table, phase, force));
             k <= |all| && forall i :: i in all[..k] ==> i in tracks
    ensures var all := Ordered(Candidates(tracks, scope, table, phase, force));
            id in Candidates(tracks, scope, StoreAll(tracks, table, phase, all[..k], ok), phase, false) ==>
              (id in all[..k] && !ok(id)) || id in all[k..]
  {
    var found := Candidates(tracks, scope, table, phase, force);
    var all := Ordered(found);
    OrderedIsSorted(found);
    hide Ordered, StoreAll, StampsOf, Outdated;
    if id in tracks {
      assert forall i :: i in all[..k] ==> i in all;
      NextRunSelects(tracks, scope, table, phase, phase, force, all[..k], ok, id);
      assert id in all ==> id in all[..k] || id in all[k..] by { assert all == all[..k] + all[k..]; }
    }
  }

  // ----- The run -----

  /** Processing one more slice of the candidates after the first k. */
  lemma SliceDone(tracks: Tracks, table: Table, phase: nat, all: seq<Id>, k: nat, wanted: nat, ok: Id -> bool)
    requires k + wanted <= |all| && forall id :: id in all ==> id in tracks
    ensures var front, slice := all[..k], all[k..k + wanted];
            && front + slice == all[..k + wanted]
            && (forall id :: id in front || id in slice || id in all[..k + wanted] ==> id in tracks)
            && StoreAll(tracks, StoreAll(tracks, table, phase, front, ok), phase, slice, ok)
               == StoreAll(tracks, table, phase, all[..k + wanted], ok)
            && CountOk(all[..k + wanted], ok) == CountOk(front, ok) + CountOk(slice, ok)
  {
    hide StoreAll, CountOk;
    assert all[..k] + all[k..k + wanted] == all[..k + wanted];
    StoreAppend(tracks, table, phase, all[..k], all[k..k + wanted], ok);
    CountAppend(all[..k], all[k..k + wanted], ok);
  }

  class Runner {
    const tracks: Tracks
    const scope: set<Id>
    const batchSize: Positive
    const limit: Option<int>
    const force: bool
    const dryRun: bool
    var lastSeen: nat
    var table: Table

    constructor (tracks: Tracks, scope: set<Id>, batchSize: int, limit: Option<int>, force: bool, dryRun: bool,
                 table: Table)
      ensures this.tracks == tracks && this.scope == scope && this.limit == limit
      ensures this.force == force && this.dryRun == dryRun && this.table == table
      ensures this.batchSize == (if batchSize < 1 then 1 else batchSize) && lastSeen == 0
    {
      this.tracks, this.scope, this.limit, this.force, this.dryRun, this.table :=
        tracks, scope, limit, force, dryRun, table;
      this.batchSize := if batchSize < 1 then 1 else batchSize;
      lastSeen := 0;
    }

    /** The next batch: the lowest ids above the cursor, at most a batch and at most what remains. A cursor
        of zero is no cursor. */
    method FetchCandidates(phase: nat, remaining: nat) returns (ids: seq<Id>)
      ensures var wanted := if batchSize <= remaining then batchSize else remaining;
              AreLowest(ids, Above(Candidates(tracks, scope, table, phase, force), lastSeen), wanted)
      ensures var wanted := if batchSize <= remaining then batchSize else remaining;
              ids == Batch(tracks, scope, table, phase, force, lastSeen, wanted)
    {
      var limit := if batchSize <= remaining then batchSize else remaining;
      ids := Batch(tracks, scope, table, phase, force, lastSeen, limit);
      LowestIsLowest(Above(Candidates(tracks, scope, table, phase, force), lastSeen), limit);
    }

    /** Storing one batch of results, in order. */
    method StoreBatch(phase: nat, ids: seq<Id>, ok: Id -> bool, stats: Stats) returns (stats': Stats)
      requires forall id :: id in ids ==> id in tracks
      modifies `table
      ensures table == StoreAll(tracks, old(table), phase, ids, ok)
      ensures stats' == stats.(analyzed := stats.analyzed + CountOk(ids, ok),
                               updated := stats.updated + CountOk(ids, ok),
                               errors := stats.errors + (|ids| - CountOk(ids, ok)))
    {
      stats' := stats;
      for k := 0 to |ids|
        invariant table == StoreAll(tracks, old(table), phase, ids[..k], ok)
        invariant stats' == stats.(analyzed := stats.analyzed + CountOk(ids[..k], ok),
                                   updated := stats.updated + CountOk(ids[..k], ok),
                                   errors := stats.errors + (k - CountOk(ids[..k], ok)))
      {
        assert ids[..k + 1][..k] == ids[..k];
        if ok(ids[k]) {
          stats' := stats'.(analyzed := stats'.analyzed + 1, updated := stats'.updated + 1);
        } else {
          stats' := stats'.(errors := stats'.errors + 1);
        }
        table := Store(tracks, table, phase, ids[k], ok(ids[k]));
      }
      assert ids[..|ids|] == ids;
    }

    /** A run of one phase. Without dry run it processes exactly the lowest ids of its quota, each once and
        in order, and the counters add up. */
    method Run(phase: nat, ok: Id -> bool) returns (stats: Stats, processed: seq<Id>)
      requires forall id :: id in tracks ==> id > 0
      modifies this
      ensures var all := old(Ordered(Candidates(tracks, scope, table, phase, force)));
              var total := Quota(|all|, limit);
              && stats.selected == total
              && (!dryRun ==>
                    processed == all[..total] && (forall id :: id in processed ==> id in tracks)
                    && table == StoreAll(tracks, old(table), phase, processed, ok)
                    && var good := CountOk(processed, ok); stats == Stats(total, good, good, total - good, 0))
              && (dryRun ==>
                    processed == [] && table == old(table)
                    && stats == Stats(total, 0, 0, 0, if batchSize <= total then batchSize else total))
    {
      hide Ordered, StoreAll, CountOk, Candidates, Batch, AreLowest;
      lastSeen := 0;
      var found := Candidates(tracks, scope, table, phase, force);
      ghost var start, all := table, Ordered(found);
      var total := Quota(|found|, limit);
      stats, processed := Stats(total, 0, 0, 0, 0), [];
      CandidatesAreTracks(tracks, scope, table, phase, force);
      NothingDone(tracks, table, phase, ok);
      if total == 0 {
        return;
      }
      var done: nat := 0;
      while done < total
        invariant done <= total && processed == all[..done]
        invariant forall id :: id in processed ==> id in tracks
        invariant table == StoreAll(tracks, start, phase, processed, ok)
        invariant lastSeen == if done == 0 then 0 else all[done - 1]
        invariant var good := CountOk(processed, ok); stats == Stats(total, good, good, done - good, 0)
        invariant dryRun ==> done == 0
      {
        var ids := FetchCandidates(phase, total - done);
        ghost var wanted := if batchSize <= total - done then batchSize else total - done;
        NextBatch(tracks, scope, start, phase, force, ok, done, wanted);
        SliceDone(tracks, start, phase, all, done, wanted, ok);
        if ids == [] {
          break;
        }
        lastSeen := ids[|ids| - 1];
        if dryRun {
          done := done + |ids|;
          stats := stats.(skipped := stats.skipped + |ids|);
          break;
        }
        stats := StoreBatch(phase, ids, ok, stats);
        processed := processed + ids;
        done := done + |ids|;
        if |ids| < batchSize {
          break;
        }
      }
    }
  }
}
