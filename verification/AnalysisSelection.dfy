/** Which tracks a run processes, and which it never touches. */
module AnalysisSelection {
  import opened AnalysisBacklog
  import opened AnalysisRunner
  import opened Wrappers

  /** A forced run selects every track of the scope, and a later phase those with a stamp of the first one. */
  lemma ForcedSelectsExactly(tracks: Tracks, scope: set<Id>, table: Table, phase: nat, id: Id)
    ensures id in Candidates(tracks, scope, table, phase, true) <==>
            id in tracks && id in scope && (phase >= 2 ==> 1 in StampsOf(table, id))
  {
  }

  /** An unforced run leaves out exactly the settled ones: those with a current row and a stamp of the phase. */
  lemma UnforcedLeavesOutTheSettled(tracks: Tracks, scope: set<Id>, table: Table, phase: nat, id: Id)
    ensures id in Candidates(tracks, scope, table, phase, false) <==>
            id in Candidates(tracks, scope, table, phase, true) && !Settled(tracks, table, phase, id)
  {
  }

  /** What a run processes, as its contract says. */
  function Processed(tracks: Tracks, scope: set<Id>, table: Table, phase: nat, force: bool, limit: Option<int>)
    : seq<Id>
  {
    var all := Ordered(Candidates(tracks, scope, table, phase, force));
    all[..Quota(|all|, limit)]
  }

  /** A track is processed exactly when it is selected and the limit allows for the selected ones with lower
      ids. */
  lemma ProcessedExactly(tracks: Tracks, scope: set<Id>, table: Table, phase: nat, force: bool, limit: Option<int>,
                         id: Id)
    ensures var found := Candidates(tracks, scope, table, phase, force);
            id in Processed(tracks, scope, table, phase, force, limit) <==>
            id in found && (limit.None? || |LessThan(found, id)| < limit.value)
  {
    var found := Candidates(tracks, scope, table, phase, force);
    var all := Ordered(found);
    OrderedIsSorted(found);
    hide Ordered;
    if id in found {
      var i :| 0 <= i < |all| && all[i] == id;
      PositionIsRank(found, i);
      InPrefix(all, i, Quota(|all|, limit));
    }
  }

  /** A run over some scope, forced or not, and which analyses succeed in it. */
  datatype ScopedRun = ScopedRun(scope: set<Id>, phase: nat, force: bool, limit: Option<int>, ok: Id -> bool)

  function AfterRun(tracks: Tracks, table: Table, run: ScopedRun): Table {
    ProcessedAreTracks(tracks, table, run);
    StoreAll(tracks, table, run.phase, Processed(tracks, run.scope, table, run.phase, run.force, run.limit), run.ok)
  }

  lemma ProcessedAreTracks(tracks: Tracks, table: Table, run: ScopedRun)
    ensures forall id :: id in Processed(tracks, run.scope, table, run.phase, run.force, run.limit) ==>
              id in tracks && id in run.scope
  {
    forall id | id in Processed(tracks, run.scope, table, run.phase, run.force, run.limit)
      ensures id in Candidates(tracks, run.scope, table, run.phase, run.force)
    {
      ProcessedExactly(tracks, run.scope, table, run.phase, run.force, run.limit, id);
    }
  }

  function AfterScopedRuns(tracks: Tracks, table: Table, runs: seq<ScopedRun>): Table {
    if runs == [] then table
    else AfterRun(tracks, AfterScopedRuns(tracks, table, runs[..|runs| - 1]), runs[|runs| - 1])
  }

  /** Whatever runs follow one another, a track outside all their scopes keeps its row, or has none as before. */
  lemma {:induction false} OutOfScopeStays(tracks: Tracks, table: Table, runs: seq<ScopedRun>, id: Id)
    requires forall run :: run in runs ==> id !in run.scope
    ensures var after := AfterScopedRuns(tracks, table, runs);
            (id in after <==> id in table) && (id in table ==> after[id] == table[id])
  {
    if runs == [] {
    } else {
      var last := runs[|runs| - 1];
      OutOfScopeStays(tracks, table, runs[..|runs| - 1], id);
      var before := AfterScopedRuns(tracks, table, runs[..|runs| - 1]);
      ProcessedAreTracks(tracks, before, last);
      var ids := Processed(tracks, last.scope, before, last.phase, last.force, last.limit);
      StoreAllFrame(tracks, before, last.phase, ids, last.ok, id);
    }
  }

  /** No run ever takes a stamp away. */
  lemma {:induction false} StampsStay(tracks: Tracks, table: Table, runs: seq<ScopedRun>, id: Id)
    ensures StampsOf(table, id) <= StampsOf(AfterScopedRuns(tracks, table, runs), id)
  {
    if runs == [] {
    } else {
      var last := runs[|runs| - 1];
      StampsStay(tracks, table, runs[..|runs| - 1], id);
      var before := AfterScopedRuns(tracks, table, runs[..|runs| - 1]);
      ProcessedAreTracks(tracks, before, last);
      var ids := Processed(tracks, last.scope, before, last.phase, last.force, last.limit);
      hide Processed, StoreAll;
      if id in ids {
        StoredRow(tracks, before, last.phase, ids, last.ok, id);
      } else {
        StoreAllFrame(tracks, before, last.phase, ids, last.ok, id);
      }
    }
  }
}
