/** Limited analysis runs, one after another: which tracks they ever reach. The files do not change, nothing
    else writes, and a track's analysis succeeds always or never. */
module AnalysisBacklog {
  import opened AnalysisRunner
  import opened Wrappers

  /** A library and the settings of the repeated, unforced runs of one phase. */
  datatype Job = Job(tracks: Tracks, scope: set<Id>, phase: nat, limit: Option<int>, ok: Id -> bool) {
    function Due(table: Table): (due: set<Id>)
      ensures forall id :: id in due ==> id in tracks && Selected(tracks, scope, table, phase, false, id)
    {
      Candidates(tracks, scope, table, phase, false)
    }

    /** What a run processes. */
    function Batch(table: Table): (ids: seq<Id>)
      ensures forall id :: id in ids ==> id in Due(table)
    {
      OrderedIsSorted(Due(table));
      Ordered(Due(table))[..Quota(|Due(table)|, limit)]
    }

    function After(table: Table): Table { StoreAll(tracks, table, phase, Batch(table), ok) }

    /** The table once n runs are over. */
    function Runs(table: Table, n: nat): Table
      decreases n
    {
      if n == 0 then table else Runs(After(table), n - 1)
    }

    /** A track that keeps failing and has no stamp of the phase. */
    predicate Stuck(table: Table, id: Id) { !ok(id) && phase !in StampsOf(table, id) }

    function Below(table: Table, id: Id): set<Id> { LessThan(Due(table), id) }

    function StuckBelow(table: Table, id: Id): set<Id> { set b | b in Below(table, id) && Stuck(table, b) }

    /** The limit lets a run process a candidate with so many before it. */
    predicate Allows(before: nat) { limit.None? || before < limit.value }
  }

  function LessThan(s: set<Id>, id: Id): set<Id> { set b | b in s && b < id }

  // ----- One run -----

  /** What is due after a run: what was not processed, and what failed without a stamp. */
  lemma DueAfter(job: Job, table: Table, id: Id)
    ensures id in job.Due(job.After(table)) <==>
            id in job.Due(table) && (id !in job.Batch(table) || job.Stuck(table, id))
    ensures id in job.Due(job.After(table)) ==> (job.Stuck(job.After(table), id) <==> job.Stuck(table, id))
  {
    if id in job.tracks {
      NextRunSelects(job.tracks, job.scope, table, job.phase, job.phase, false, job.Batch(table), job.ok, id);
      if id in job.Batch(table) {
        StoredRow(job.tracks, table, job.phase, job.Batch(table), job.ok, id);
      } else {
        StoreAllFrame(job.tracks, table, job.phase, job.Batch(table), job.ok, id);
      }
    }
  }

  /** A run that only meets tracks which keep failing leaves the same tracks due. */
  lemma BlockedRunChangesNothing(job: Job, table: Table)
    requires forall id :: id in job.Batch(table) ==> job.Stuck(table, id)
    ensures job.Due(job.After(table)) == job.Due(table)
  {
    forall id ensures id in job.Due(job.After(table)) <==> id in job.Due(table) {
      DueAfter(job, table, id);
    }
  }

  function Elements(s: seq<Id>): set<Id> { set x | x in s }

  lemma IncreasingSize(s: seq<Id>)
    requires Increasing(s)
    ensures |Elements(s)| == |s|
  {
    OrderedIsSorted(Elements(s));
    assert forall x :: x in Elements(s) <==> x in s;
    IncreasingIsUnique(Ordered(Elements(s)), s);
  }

  lemma PositionIsRank(s: set<Id>, i: nat)
    requires i < |Ordered(s)|
    ensures |LessThan(s, Ordered(s)[i])| == i
  {
    var all := Ordered(s);
    OrderedIsSorted(s);
    hide Ordered;
    IncreasingSize(all[..i]);
    forall b ensures b in Elements(all[..i]) <==> b in LessThan(s, all[i]) {
      InPrefix(all, i, i);
      if b in LessThan(s, all[i]) {
        var k :| 0 <= k < |all| && all[k] == b;
        InPrefix(all, k, i);
      }
    }
    assert Elements(all[..i]) == LessThan(s, all[i]);
  }

  /** The position of a candidate is the number of candidates below it. */
  lemma Rank(job: Job, table: Table, id: Id) returns (i: nat)
    requires id in job.Due(table)
    ensures i < |Ordered(job.Due(table))| && Ordered(job.Due(table))[i] == id && i == |job.Below(table, id)|
  {
    var all := Ordered(job.Due(table));
    OrderedIsSorted(job.Due(table));
    hide Ordered;
    i :| 0 <= i < |all| && all[i] == id;
    PositionIsRank(job.Due(table), i);
  }

  lemma InPrefix(all: seq<Id>, i: nat, k: nat)
    requires Increasing(all) && i < |all| && k <= |all|
    ensures all[i] in all[..k] <==> i < k
    ensures i >= k ==> forall b :: b in all[..k] ==> b < all[i]
  {
    if i < k {
      assert all[..k][i] == all[i];
    }
  }

  /** A candidate is processed exactly when the limit allows for the candidates below it. */
  lemma BatchByRank(job: Job, table: Table, id: Id)
    requires id in job.Due(table)
    ensures id in job.Batch(table) <==> job.Allows(|job.Below(table, id)|)
  {
    var due := job.Due(table);
    var i := Rank(job, table, id);
    OrderedIsSorted(due);
    InPrefix(Ordered(due), i, Quota(|due|, job.limit));
    hide Ordered;
  }

  /** A run that does not reach a candidate processes as many tracks below it as the limit allows. */
  lemma BatchBelow(job: Job, table: Table, id: Id)
    requires id in job.Due(table) && id !in job.Batch(table)
    ensures Increasing(job.Batch(table)) && !job.Allows(|job.Batch(table)|)
    ensures forall b :: b in job.Batch(table) ==> b in job.Below(table, id)
  {
    var due := job.Due(table);
    var i := Rank(job, table, id);
    OrderedIsSorted(due);
    InPrefix(Ordered(due), i, Quota(|due|, job.limit));
    hide Ordered;
  }

  // ----- Many runs -----

  /** The tracks that keep failing below a candidate are the same after a run. */
  lemma StuckBelowStays(job: Job, table: Table, id: Id)
    ensures job.StuckBelow(job.After(table), id) == job.StuckBelow(table, id)
    ensures job.Below(job.After(table), id) <= job.Below(table, id)
  {
    forall b ensures b in job.StuckBelow(job.After(table), id) <==> b in job.StuckBelow(table, id) {
      DueAfter(job, table, b);
    }
    forall b | b in job.Below(job.After(table), id) ensures b in job.Below(table, id) {
      DueAfter(job, table, b);
    }
  }

  lemma SubsetSize(a: set<Id>, b: set<Id>)
    requires a <= b
    ensures |a| <= |b| && (|a| == |b| ==> a == b)
  {
    assert |b| == |a| + |b - a| by { assert a + (b - a) == b; }
  }

  lemma {:induction false} NeverReached(job: Job, table: Table, id: Id, n: nat)
    requires id in job.Due(table) && !job.Allows(|job.StuckBelow(table, id)|)
    ensures id in job.Due(job.Runs(table, n)) && id !in job.Batch(job.Runs(table, n))
    decreases n
  {
    hide Job.Due, Job.Batch, Job.After;
    SubsetSize(job.StuckBelow(table, id), job.Below(table, id));
    BatchByRank(job, table, id);
    if n == 0 {
    } else {
      DueAfter(job, table, id);
      StuckBelowStays(job, table, id);
      NeverReached(job, job.After(table), id, n - 1);
    }
  }

  /** While a candidate waits behind fewer failing tracks than the limit, every run clears something below it. */
  lemma QueueShrinks(job: Job, table: Table, id: Id) returns (cleared: Id)
    requires id in job.Due(table) && job.Allows(|job.StuckBelow(table, id)|) && id !in job.Batch(table)
    ensures cleared in job.Below(table, id) && cleared !in job.Below(job.After(table), id)
  {
    BatchBelow(job, table, id);
    var batch := job.Batch(table);
    if forall b :: b in batch ==> job.Stuck(table, b) {
      IncreasingSize(batch);
      SubsetSize(Elements(batch), job.StuckBelow(table, id));
      assert false;
    }
    cleared :| cleared in batch && !job.Stuck(table, cleared);
    DueAfter(job, table, cleared);
  }

  lemma {:induction false} Reached(job: Job, table: Table, id: Id) returns (n: nat)
    requires id in job.Due(table) && job.Allows(|job.StuckBelow(table, id)|)
    ensures id in job.Batch(job.Runs(table, n)) && n <= |job.Below(table, id)|
    decreases |job.Below(table, id)|
  {
    hide Job.Due, Job.Batch, Job.After, Job.Below, Job.StuckBelow;
    if id in job.Batch(table) {
      n := 0;
    } else {
      var cleared := QueueShrinks(job, table, id);
      DueAfter(job, table, id);
      StuckBelowStays(job, table, id);
      SubsetSize(job.Below(job.After(table), id), job.Below(table, id));
      var m := Reached(job, job.After(table), id);
      n := m + 1;
    }
  }

  /** Over all runs, a track that is due is processed by some run if and only if fewer tracks below it than the
      limit are due, fail every time and have no stamp of the phase. */
  lemma ReachedExactly(job: Job, table: Table, id: Id)
    requires id in job.Due(table)
    ensures (exists n: nat :: id in job.Batch(job.Runs(table, n))) <==> job.Allows(|job.StuckBelow(table, id)|)
  {
    if job.Allows(|job.StuckBelow(table, id)|) {
      var n := Reached(job, table, id);
    } else {
      forall n: nat ensures id !in job.Batch(job.Runs(table, n)) {
        NeverReached(job, table, id, n);
      }
    }
  }
}
