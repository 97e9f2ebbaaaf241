/** Applying migrations to a database that may crash at any moment, and starting again. */
module MigrationRunner {
  import opened Wrappers
  import opened MigrationSplitter

  datatype Migration = Migration(version: string, checksum: string, sql: string)

  /** What a statement does to a schema, if it succeeds, and whether a schema has the "user" table. */
  datatype Engine<!S> = Engine(exec: (S, string) -> Option<S>, hasUserTable: S -> bool)

  datatype Outcome = Completed | Baselined | Crashed | StatementFailed(version: string)

  // ----- What a migration history means -----

  function RunStatements<S>(engine: Engine<S>, schema: S, stmts: seq<string>): Option<S> {
    if stmts == [] then Some(schema)
    else
      match RunStatements(engine, schema, stmts[..|stmts| - 1])
      case None => None
      case Some(s) => engine.exec(s, stmts[|stmts| - 1])
  }

  function NonEmpty(files: seq<Migration>): seq<Migration> {
    if files == [] then []
    else NonEmpty(files[..|files| - 1]) + if Statements(files[|files| - 1].sql) != [] then [files[|files| - 1]] else []
  }

  /** The migrations that take effect: the non-empty ones, without those whose version an earlier one has. */
  function History(files: seq<Migration>): seq<Migration> {
    if files == [] then []
    else
      var before, last := History(files[..|files| - 1]), files[|files| - 1];
      if Statements(last.sql) != [] && last.version !in Record(before) then before + [last] else before
  }

  /** Each of the migrations applied once, in order. */
  function Fold<S>(engine: Engine<S>, start: S, history: seq<Migration>): Option<S> {
    if history == [] then Some(start)
    else
      match Fold(engine, start, history[..|history| - 1])
      case None => None
      case Some(s) => RunStatements(engine, s, Statements(history[|history| - 1].sql))
  }

  function Record(history: seq<Migration>): map<string, string> {
    if history == [] then map[]
    else Record(history[..|history| - 1])[history[|history| - 1].version := history[|history| - 1].checksum]
  }

  predicate DistinctVersions(files: seq<Migration>) {
    forall i, j :: 0 <= i < j < |files| ==> files[i].version != files[j].version
  }

  // ----- Facts about histories -----

  lemma {:induction false} NonEmptyMembers(files: seq<Migration>, m: Migration)
    ensures m in NonEmpty(files) <==> m in files && Statements(m.sql) != []
  {
    hide Statements;
    if files == [] {
    } else {
      NonEmptyMembers(files[..|files| - 1], m);
      assert files == files[..|files| - 1] + [files[|files| - 1]];
    }
  }

  /** Two non-empty migrations with one version. */
  predicate Repeat(files: seq<Migration>, i: int, j: int) {
    && 0 <= i < j < |files| && files[i].version == files[j].version
    && Statements(files[i].sql) != [] && Statements(files[j].sql) != []
  }

  lemma HistoryStep(files: seq<Migration>, j: nat)
    requires j < |files|
    ensures var before := History(files[..j]);
            History(files[..j + 1]) ==
              if Statements(files[j].sql) != [] && files[j].version !in Record(before) then before + [files[j]]
              else before
  {
    assert files[..j + 1][..j] == files[..j];
  }

  lemma {:induction false} HistoryPrefix(files: seq<Migration>, j: nat)
    requires j <= |files|
    ensures History(files[..j]) <= History(files)
    decreases |files|
  {
    if j == |files| {
      assert files[..j] == files;
    } else {
      HistoryPrefix(files[..|files| - 1], j);
      assert files[..|files| - 1][..j] == files[..j];
    }
  }

  lemma {:induction false} HistoryIsDistinct(files: seq<Migration>)
    ensures DistinctVersions(History(files))
  {
    hide Statements;
    if files == [] {
    } else {
      var before := History(files[..|files| - 1]);
      HistoryIsDistinct(files[..|files| - 1]);
      RecordKeys(before, files[|files| - 1].version);
    }
  }

  lemma {:induction false} RecordedVersions(files: seq<Migration>, version: string)
    ensures version in Record(History(files)) <==>
            exists i :: 0 <= i < |files| && files[i].version == version && Statements(files[i].sql) != []
  {
    hide Statements;
    if files == [] {
    } else {
      var n := |files| - 1;
      var before := History(files[..n]);
      RecordedVersions(files[..n], version);
      RecordedVersions(files[..n], files[n].version);
      RecordAppend(before, files[n]);
    }
  }

  lemma RecordAppend(history: seq<Migration>, m: Migration)
    ensures Record(history + [m]) == Record(history)[m.version := m.checksum]
  {
    assert (history + [m])[..|history|] == history;
  }

  /** m is the migration at i, not empty, and no earlier one of its version is not empty either. */
  predicate IsFirst(files: seq<Migration>, i: int, m: Migration) {
    && 0 <= i < |files| && files[i] == m && Statements(m.sql) != []
    && forall k :: 0 <= k < i ==> !Repeat(files, k, i)
  }

  lemma FirstInFront(files: seq<Migration>, i: int, m: Migration)
    requires files != []
    ensures IsFirst(files[..|files| - 1], i, m) <==> IsFirst(files, i, m) && i != |files| - 1
  {
    hide Statements;
    var front := files[..|files| - 1];
    if 0 <= i < |front| {
      assert front[i] == files[i];
      forall k | 0 <= k < i ensures Repeat(files, k, i) <==> Repeat(front, k, i) {
        assert front[k] == files[k];
      }
    }
  }

  lemma LastIsFirst(files: seq<Migration>, m: Migration)
    requires files != []
    ensures var n := |files| - 1;
            IsFirst(files, n, m) <==>
            m == files[n] && Statements(m.sql) != [] && m.version !in Record(History(files[..n]))
  {
    hide Statements, Record, History;
    var n := |files| - 1;
    RecordedVersions(files[..n], files[n].version);
    assert forall k :: 0 <= k < n ==> files[..n][k] == files[k];
    if m == files[n] && Statements(m.sql) != [] {
      assert forall k :: 0 <= k < n ==>
               (Repeat(files, k, n) <==> files[k].version == m.version && Statements(files[k].sql) != []);
    }
  }

  /** The history holds, of every version, the first migration that is not empty. */
  lemma {:induction false} HistoryMembers(files: seq<Migration>, m: Migration)
    ensures m in History(files) <==> exists i :: IsFirst(files, i, m)
  {
    if files == [] {
    } else {
      hide Statements, Record, Repeat, IsFirst;
      var n := |files| - 1;
      var front, last := files[..n], files[n];
      HistoryMembers(front, m);
      forall i ensures IsFirst(front, i, m) <==> IsFirst(files, i, m) && i != n {
        FirstInFront(files, i, m);
      }
      LastIsFirst(files, m);
      assert m in History(files) <==> m in History(front) || IsFirst(files, n, m);
    }
  }

  /** Without two non-empty migrations of one version nothing is dropped. */
  lemma {:induction false} NoRepeatsNothingDropped(files: seq<Migration>)
    requires forall i, j :: !Repeat(files, i, j)
    ensures History(files) == NonEmpty(files)
  {
    hide Statements, Record;
    if files == [] {
    } else {
      var n := |files| - 1;
      assert forall i, j :: Repeat(files[..n], i, j) ==> Repeat(files, i, j);
      NoRepeatsNothingDropped(files[..n]);
      RecordedVersions(files[..n], files[n].version);
      assert forall i :: 0 <= i < n && files[..n][i].version == files[n].version && Statements(files[n].sql) != [] ==>
                           Statements(files[..n][i].sql) == [] || Repeat(files, i, n);
    }
  }

  lemma {:induction false} RecordKeys(history: seq<Migration>, version: string)
    ensures version in Record(history) <==> exists i :: 0 <= i < |history| && history[i].version == version
  {
    if history == [] {
    } else {
      RecordKeys(history[..|history| - 1], version);
    }
  }

  /** With distinct versions, the record of a prefix knows a later migration's version exactly when the
      prefix reaches it. */
  lemma RecordKnows(history: seq<Migration>, k: nat, p: nat)
    requires DistinctVersions(history) && k <= |history| && p < |history|
    ensures history[p].version in Record(history[..k]) <==> p < k
  {
    RecordKeys(history[..k], history[p].version);
    if p < k {
      assert history[..k][p] == history[p];
    }
  }

  lemma StepFold<S>(engine: Engine<S>, start: S, history: seq<Migration>, k: nat)
    requires k < |history|
    ensures Record(history[..k + 1]) == Record(history[..k])[history[k].version := history[k].checksum]
    ensures Fold(engine, start, history[..k]).Some? ==>
              Fold(engine, start, history[..k + 1])
              == RunStatements(engine, Fold(engine, start, history[..k]).value, Statements(history[k].sql))
  {
    assert history[..k + 1][..k] == history[..k];
  }

  lemma {:induction false} FailureStays<S>(engine: Engine<S>, schema: S, stmts: seq<string>, k: nat)
    requires k <= |stmts| && RunStatements(engine, schema, stmts[..k]).None?
    ensures RunStatements(engine, schema, stmts).None?
    decreases |stmts|
  {
    if k < |stmts| {
      assert stmts[..|stmts| - 1][..k] == stmts[..k];
      FailureStays(engine, schema, stmts[..|stmts| - 1], k);
    } else {
      assert stmts[..k] == stmts;
    }
  }

  /** Database steps of an uninterrupted replay: one a statement and one for the record. */
  function Cost(files: seq<Migration>): nat {
    if files == [] then 0
    else Cost(files[..|files| - 1]) + |Statements(files[|files| - 1].sql)| + 1
  }

  lemma {:induction false} CostGrows(files: seq<Migration>, j: nat)
    requires j < |files|
    ensures Cost(files[..j + 1]) == Cost(files[..j]) + |Statements(files[j].sql)| + 1 <= Cost(files)
    decreases |files|
  {
    hide Statements;
    assert files[..j + 1][..j] == files[..j];
    if j + 1 < |files| {
      var front := files[..|files| - 1];
      CostGrows(front, j);
      assert front[..j + 1] == files[..j + 1];
    } else {
      assert files[..j + 1] == files;
    }
  }

  lemma AppendOne<S>(engine: Engine<S>, start: S, history: seq<Migration>, m: Migration)
    ensures Record(history + [m]) == Record(history)[m.version := m.checksum]
    ensures Fold(engine, start, history).Some? ==>
              Fold(engine, start, history + [m])
              == RunStatements(engine, Fold(engine, start, history).value, Statements(m.sql))
    ensures DistinctVersions(history) && m.version !in Record(history) ==> DistinctVersions(history + [m])
  {
    assert (history + [m])[..|history|] == history;
    RecordKeys(history, m.version);
  }

  function Max(a: nat, b: nat): nat { if a >= b then a else b }

  /** Where file j stands in the history. The first non-empty one of its version is the next one after those
      before it, and recorded in a prefix exactly when the prefix is longer than that; a later one of its version
      is recorded as soon as those before it are. */
  lemma PlaceInHistory(files: seq<Migration>, j: nat, k: nat)
    requires j < |files| && k <= |History(files)|
    ensures var history, p := History(files), |History(files[..j])|;
            var again := files[j].version in Record(History(files[..j]));
            && p <= |history|
            && (if Statements(files[j].sql) != [] && !again then
                  p < |history| && history[p] == files[j] && |History(files[..j + 1])| == p + 1
                  && (files[j].version in Record(history[..k]) <==> p < k)
                else |History(files[..j + 1])| == p)
            && (again && p <= k ==> files[j].version in Record(history[..k]))
  {
    hide Statements, Record;
    var history, p := History(files), |History(files[..j])|;
    HistoryStep(files, j);
    HistoryPrefix(files, j);
    HistoryPrefix(files, j + 1);
    HistoryIsDistinct(files);
    if p < |history| {
      RecordKnows(history, k, p);
    }
    if p <= k {
      assert history[..p] == History(files[..j]);
      RecordKeys(history[..p], files[j].version);
      RecordKeys(history[..k], files[j].version);
      assert forall i :: 0 <= i < p ==> history[..p][i] == history[..k][i];
    }
  }

  /** A version that is recorded before its file is reached belongs to an earlier non-empty file. */
  lemma RecordedBefore(files: seq<Migration>, j: nat)
    requires j < |files| && Statements(files[j].sql) != []
    ensures files[j].version in Record(History(files[..j])) <==> exists i :: Repeat(files, i, j)
  {
    hide Statements, Record, History;
    RecordedVersions(files[..j], files[j].version);
    assert forall i :: 0 <= i < j ==> files[..j][i] == files[i];
    if files[j].version in Record(History(files[..j])) {
      var i :| 0 <= i < j && files[i].version == files[j].version && Statements(files[i].sql) != [];
      assert Repeat(files, i, j);
    }
  }

  lemma NothingYet(files: seq<Migration>)
    ensures History(files[..0]) == [] && Cost(files[..0]) == 0
  {
  }

  lemma LastIsRecorded(history: seq<Migration>)
    requires history != []
    ensures history[|history| - 1].version in Record(history)
  {
  }

  lemma EmptyRecord<S>(engine: Engine<S>, start: S, history: seq<Migration>)
    requires Record(history) == map[]
    ensures history == [] && Fold(engine, start, history) == Some(start)
  {
    if history != [] {
      LastIsRecorded(history);
    }
  }

  // ----- The database and the runner -----

  class Database<S> {
    const engine: Engine<S>
    var schema: S
    var recorded: map<string, string>
    ghost var committed: seq<Migration>

    constructor (engine: Engine<S>, schema: S)
      ensures this.engine == engine && this.schema == schema && recorded == map[] && committed == []
    {
      this.engine, this.schema, recorded, committed := engine, schema, map[], [];
    }

    /** The schema is what the committed migrations make of the first one, each applied once, in the order of
        their commits; they are the recorded ones, and no two have one version. */
    ghost predicate Sound(start: S)
      reads this
    {
      && Fold(engine, start, committed) == Some(schema) && recorded == Record(committed)
      && DistinctVersions(committed)
    }

    /** Committed: exactly the first k migrations of the history, each once and in order. */
    ghost predicate AtPrefix(start: S, files: seq<Migration>, k: nat)
      reads this
    {
      && k <= |History(files)| && committed == History(files)[..k]
      && Fold(engine, start, History(files)[..k]) == Some(schema)
      && recorded == Record(History(files)[..k])
    }

    /** A run that began with the first k migrations committed, and ended with a failure of this version, either
        met a migration that fails after those committed, or one whose version it had committed itself. */
    ghost predicate StoppedRightly(start: S, files: seq<Migration>, k: nat, reached: nat, version: string)
      reads this
    {
      || (&& reached < |History(files)| && version == History(files)[reached].version
          && version !in recorded && Fold(engine, start, History(files)[..reached + 1]).None?)
      || (k < reached && version in recorded && exists i, j :: Repeat(files, i, j) && files[j].version == version)
    }

    /** One migration in one transaction. It crashes after `budget` statements, or completes. */
    method ApplyOne(m: Migration, stmts: seq<string>, budget: nat) returns (outcome: Outcome, left: nat)
      modifies this
      ensures left <= budget && (outcome.Completed? ==> budget == left + |stmts| + 1)
      ensures outcome.Completed? ==>
        && old(m.version !in recorded) && recorded == old(recorded)[m.version := m.checksum]
        && Some(schema) == RunStatements(engine, old(schema), stmts)
      ensures outcome.Completed? ==> committed == old(committed) + [m]
      ensures !outcome.Completed? ==> schema == old(schema) && recorded == old(recorded) && committed == old(committed)
      ensures outcome.StatementFailed? ==>
        outcome.version == m.version && (old(m.version in recorded) || RunStatements(engine, old(schema), stmts).None?)
      ensures !outcome.Baselined?
      ensures outcome.Crashed? ==> budget <= |stmts|
    {
      var work := schema;
      left := budget;
      for i := 0 to |stmts|
        invariant left == budget - i >= 0
        invariant Some(work) == RunStatements(engine, schema, stmts[..i])
        invariant schema == old(schema) && recorded == old(recorded) && committed == old(committed)
      {
        assert stmts[..i + 1][..i] == stmts[..i];
        if left == 0 {
          return Crashed, left;
        }
        left := left - 1;
        match engine.exec(work, stmts[i]) {
          case None =>
            FailureStays(engine, schema, stmts, i + 1);
            return StatementFailed(m.version), left;
          case Some(next) => work := next;
        }
      }
      assert stmts[..|stmts|] == stmts;
      if left == 0 {
        return Crashed, left;
      }
      if m.version in recorded {
        return StatementFailed(m.version), left;
      }
      schema, recorded, committed := work, recorded[m.version := m.checksum], committed + [m];
      return Completed, left - 1;
    }

    /** One run of the migration tool over the sorted files, crashing once `budget` runs out. From a
        database whose committed state is a prefix of the history, the committed state is again a prefix of
        the history, no shorter, and the whole history if the run completes. */
    method ApplyMigrations(files: seq<Migration>, budget: nat, ghost start: S, ghost k: nat)
      returns (outcome: Outcome, ghost reached: nat)
      modifies this
      ensures old(AtPrefix(start, files, k)) && !engine.hasUserTable(start) ==>
        && k <= reached && AtPrefix(start, files, reached)
        && (outcome.Completed? ==> reached == |History(files)|)
        && !outcome.Baselined?
        && (outcome.StatementFailed? ==> StoppedRightly(start, files, k, reached, outcome.version))
        && (outcome.Crashed? ==> budget < Cost(files))
      ensures outcome.Baselined? ==>
        schema == old(schema) && forall m :: m in files ==> m.version in recorded
      ensures old(Sound(start)) && !engine.hasUserTable(start) ==>
        && Sound(start) && !outcome.Baselined? && old(committed) <= committed
        && forall m :: m in committed[|old(committed)|..] ==> m in NonEmpty(files)
    {
      hide Statements, Fold, Record, History, NonEmpty, Cost;
      reached := k;
      var applied := recorded;
      assert files == [] ==> History(files) == [] by { NothingYet(files); assert files == [] ==> files[..0] == files; }
      if k <= |History(files)| && recorded == Record(History(files)[..k]) && recorded == map[] {
        EmptyRecord(engine, start, History(files)[..k]);
      }
      if Sound(start) && recorded == map[] {
        EmptyRecord(engine, start, committed);
      }
      if files == [] {
        return Completed, reached;
      }
      if applied == map[] && engine.hasUserTable(schema) {
        outcome := Baseline(files, budget);
        return outcome, reached;
      }
      outcome, reached := Replay(files, applied, budget, start, k);
    }

    /** Recording every migration of a schema that was built current, one insert at a time. */
    method Baseline(files: seq<Migration>, budget: nat) returns (outcome: Outcome)
      modifies `recorded
      ensures outcome.Baselined? || outcome.Crashed?
      ensures outcome.Baselined? ==> forall m :: m in files ==> m.version in recorded
      ensures budget >= |files| ==> outcome.Baselined?
    {
      var left := budget;
      for i := 0 to |files|
        invariant left == budget - i >= 0
        invariant forall j :: 0 <= j < i ==> files[j].version in recorded
      {
        if left == 0 {
          return Crashed;
        }
        if files[i].version !in recorded {
          recorded := recorded[files[i].version := files[i].checksum];
        }
        left := left - 1;
      }
      return Baselined;
    }

    /** The loop over the files, against the records read when the run began. */
    method Replay(files: seq<Migration>, applied: map<string, string>, budget: nat, ghost start: S, ghost k: nat)
      returns (outcome: Outcome, ghost reached: nat)
      requires applied == recorded
      modifies this
      ensures old(AtPrefix(start, files, k)) ==>
        && k <= reached && AtPrefix(start, files, reached)
        && (outcome.Completed? ==> reached == |History(files)|)
        && (outcome.StatementFailed? ==> StoppedRightly(start, files, k, reached, outcome.version))
      ensures !outcome.Baselined? && (outcome.Crashed? ==> budget < Cost(files))
      ensures old(Sound(start)) ==> Sound(start)
      ensures old(committed) <= committed && forall m :: m in committed[|old(committed)|..] ==> m in NonEmpty(files)
    {
      hide Statements, Fold, Record, History, NonEmpty, Cost, Repeat, DistinctVersions;
      NothingYet(files);
      ghost var history := History(files);
      ghost var sound := AtPrefix(start, files, k);
      reached := k;
      var left: nat := budget;
      for j := 0 to |files|
        invariant sound ==> reached == Max(k, |History(files[..j])|) && AtPrefix(start, files, reached)
        invariant budget <= left + Cost(files[..j])
        invariant old(Sound(start)) ==> Sound(start)
        invariant old(committed) <= committed
        invariant forall m :: m in committed[|old(committed)|..] ==> m in NonEmpty(files)
      {
        CostGrows(files, j);
        if sound {
          PlaceInHistory(files, j, k);
          PlaceInHistory(files, j, reached);
        }
        var m := files[j];
        if m.version in applied {
          continue;
        }
        var stmts := SplitStatements(m.sql);
        if stmts == [] {
          continue;
        }
        RecordedBefore(files, j);
        if sound && reached < |history| {
          StepFold(engine, start, history, reached);
        }
        NonEmptyMembers(files, m);
        ghost var before := committed;
        outcome, left := ApplyOne(m, stmts, left);
        if !outcome.Completed? {
          return outcome, reached;
        }
        AppendOne(engine, start, before, m);
        assert sound ==> history[..reached + 1] == history[..reached] + [m];
        reached := reached + 1;
      }
      assert files[..|files|] == files;
      return Completed, reached;
    }
  }

  lemma NothingCommitted<S>(engine: Engine<S>, start: S, files: seq<Migration>)
    ensures Fold(engine, start, []) == Some(start) && Record([]) == map[]
    ensures History(files)[..0] == []
  {
  }

  /** Any number of runs that crash wherever they like, one after another, over a database with no core tables,
      and then uninterrupted runs as long as they only reject a migration whose version they committed
      themselves: the next run skips it. A prefix of the history is committed throughout; the last run completes
      it, or stops at a migration of it that fails; and without two non-empty migrations of one version there
      is nothing to reject. */
  method RunWithRestarts<S>(db: Database<S>, files: seq<Migration>, crashes: seq<nat>, budget: nat, ghost start: S)
    returns (outcome: Outcome, rejections: nat, ghost reached: nat)
    requires db.schema == start && db.recorded == map[] && db.committed == [] && !db.engine.hasUserTable(start)
    requires budget >= Cost(files)
    modifies db
    ensures db.AtPrefix(start, files, reached)
    ensures outcome.Completed? || outcome.StatementFailed?
    ensures outcome.Completed? ==>
      && db.committed == History(files) && Fold(db.engine, start, History(files)) == Some(db.schema)
      && db.recorded == Record(History(files))
    ensures outcome.StatementFailed? ==>
      && reached < |History(files)| && outcome.version == History(files)[reached].version
      && Fold(db.engine, start, History(files)[..reached + 1]).None?
    ensures rejections <= reached && ((forall i, j :: !Repeat(files, i, j)) ==> rejections == 0)
  {
    hide Statements, Fold, Record, History, NonEmpty, Cost;
    reached := 0;
    NothingCommitted(db.engine, start, files);
    for i := 0 to |crashes|
      invariant db.AtPrefix(start, files, reached)
    {
      outcome, reached := db.ApplyMigrations(files, crashes[i], start, reached);
    }
    rejections := 0;
    while true
      invariant db.AtPrefix(start, files, reached) && rejections <= reached
      invariant (forall i, j :: !Repeat(files, i, j)) ==> rejections == 0
      decreases |History(files)| - reached
    {
      outcome, reached := db.ApplyMigrations(files, budget, start, reached);
      if outcome.StatementFailed? && outcome.version in db.recorded {
        rejections := rejections + 1;
      } else {
        break;
      }
    }
    assert History(files)[..|History(files)|] == History(files);
  }
}
