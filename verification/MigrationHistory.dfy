/** What a committed history amounts to: one long script, and a record of checksums. */
module MigrationHistory {
  import opened MigrationRunner
  import opened MigrationSplitter
  import opened Wrappers

  /** All statements of some migrations, one file's after another's. */
  function Script(history: seq<Migration>): seq<string> {
    if history == [] then [] else Statements(history[0].sql) + Script(history[1..])
  }

  lemma {:induction false} ScriptAppend(history: seq<Migration>, m: Migration)
    ensures Script(history + [m]) == Script(history) + Statements(m.sql)
  {
    hide Statements;
    if history == [] {
      assert ([m])[1..] == [];
      assert history + [m] == [m] && Script([m]) == Statements(m.sql) + Script([]);
    } else {
      assert (history + [m])[1..] == history[1..] + [m];
      ScriptAppend(history[1..], m);
    }
  }

  /** Running statements in two goes is running them in one, and the first one that fails ends it. */
  lemma {:induction false} RunInTwoGoes<S>(engine: Engine<S>, schema: S, a: seq<string>, b: seq<string>)
    ensures RunStatements(engine, schema, a + b) ==
            match RunStatements(engine, schema, a) case None => None case Some(s) => RunStatements(engine, s, b)
  {
    if b == [] {
      assert a + b == a;
    } else {
      assert (a + b)[..|a + b| - 1] == a + b[..|b| - 1];
      RunInTwoGoes(engine, schema, a, b[..|b| - 1]);
    }
  }

  lemma RunOne<S>(engine: Engine<S>, schema: S, stmt: string)
    ensures RunStatements(engine, schema, [stmt]) == engine.exec(schema, stmt)
  {
    assert RunStatements(engine, schema, []) == Some(schema) && [stmt][..0] == [];
  }

  /** What statement by statement execution means: the first on the schema, the rest on what it made. */
  lemma FirstThenRest<S>(engine: Engine<S>, schema: S, stmts: seq<string>)
    ensures RunStatements(engine, schema, stmts) ==
            if stmts == [] then Some(schema)
            else match engine.exec(schema, stmts[0]) case None => None
                 case Some(s) => RunStatements(engine, s, stmts[1..])
  {
    if stmts != [] {
      RunOne(engine, schema, stmts[0]);
      RunInTwoGoes(engine, schema, [stmts[0]], stmts[1..]);
      assert [stmts[0]] + stmts[1..] == stmts;
    }
  }

  /** Applying a history, file by file, is running all its statements in one go. */
  lemma {:induction false} HistoryIsOneScript<S>(engine: Engine<S>, start: S, history: seq<Migration>)
    ensures Fold(engine, start, history) == RunStatements(engine, start, Script(history))
  {
    hide Statements;
    if history == [] {
    } else {
      var front, last := history[..|history| - 1], history[|history| - 1];
      assert history == front + [last];
      HistoryIsOneScript(engine, start, front);
      ScriptAppend(front, last);
      RunInTwoGoes(engine, start, Script(front), Statements(last.sql));
    }
  }

  /** With distinct versions, the record holds exactly the history's versions, each with its file's checksum. */
  lemma {:induction false} RecordTells(history: seq<Migration>, version: string, checksum: string)
    requires DistinctVersions(history)
    ensures version in Record(history) && Record(history)[version] == checksum <==>
            exists m :: m in history && m.version == version && m.checksum == checksum
  {
    if history == [] {
    } else {
      var n := |history| - 1;
      var front, last := history[..n], history[n];
      assert history == front + [last];
      RecordTells(front, version, checksum);
      RecordKeys(front, version);
      if version == last.version {
        assert last in history;
        forall m | m in history && m.version == version ensures m == last {
          var i :| 0 <= i <= n && history[i] == m;
        }
      }
    }
  }
}
