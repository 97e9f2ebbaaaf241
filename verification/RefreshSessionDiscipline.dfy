/** When a family keeps a single live session, and a dead family stays dead, with every SQL statement a step
    of its own. */
module RefreshSessionDiscipline {
  import opened Wrappers
  import opened RefreshSessions
  import opened RefreshSessionTheorems
  import opened Statements = RefreshSessionStatements

  predicate InFamily(rows: Rows, t: Token, family: Option<Family>) {
    family.Some? && t in rows && rows[t].family == family
  }

  /** No family has two unrevoked sessions. */
  ghost predicate OneTip(rows: Rows) {
    forall t, u :: SameFamily(rows, t, u) && rows[t].Unrevoked() && rows[u].Unrevoked() ==> t == u
  }

  ghost predicate NoTip(rows: Rows, family: Option<Family>) {
    forall t :: InFamily(rows, t, family) ==> !rows[t].Unrevoked()
  }

  // ----- One step -----

  /** The insert at the end of a rotation leaves every family with one unrevoked session at most exactly when
      the row's family, if it has one, has none at that moment. */
  lemma InsertKeepsOneTip(w: World, cfg: Config, owner: map<Family, User>, request: Request, token: Token,
                          family: Family)
    requires Owned(w, owner) && OneTip(w.state.rows) && Statements.Enabled(w, InsertRotated(request, token, family))
    ensures OneTip(Next(w, cfg, InsertRotated(request, token, family)).state.rows)
            <==> NoTip(w.state.rows, w.inFlight[request].row.family)
  {
    var row, rows := w.inFlight[request].row, w.state.rows;
    var rows' := Next(w, cfg, InsertRotated(request, token, family)).state.rows;
    assert token !in rows;
    forall t | InFamily(rows, t, row.family) && rows[t].Unrevoked() ensures !OneTip(rows') {
      assert SameFamily(rows', t, token);
    }
    if NoTip(rows, row.family) {
      forall t, u | SameFamily(rows', t, u) && rows'[t].Unrevoked() && rows'[u].Unrevoked() ensures t == u {
        assert t != token && u != token ==> SameFamily(rows, t, u);
        assert t != token ==> InFamily(rows, t, rows[t].family);
        assert u != token ==> InFamily(rows, u, rows[u].family);
      }
    }
  }

  // ----- Whole runs -----

  lemma OthersKeepOneTip(w: World, cfg: Config, owner: map<Family, User>, st: Statement)
    requires Owned(w, owner) && OneTip(w.state.rows) && Statements.Enabled(w, st) && !st.InsertRotated?
    ensures OneTip(Next(w, cfg, st).state.rows)
  {
    var rows, rows' := w.state.rows, Next(w, cfg, st).state.rows;
    forall t, u | SameFamily(rows', t, u) && rows'[t].Unrevoked() && rows'[u].Unrevoked() ensures t == u {
      assert t in rows && u in rows ==> SameFamily(rows, t, u);
    }
  }

  /** A rotation's insert finds no unrevoked session in its row's family. */
  ghost predicate FindsNone(w: World, st: Statement) {
    st.InsertRotated? && st.request in w.inFlight ==> NoTip(w.state.rows, w.inFlight[st.request].row.family)
  }

  /** Over a whole run every family has at most one unrevoked session throughout if and only if every
      rotation's insert finds none left in its family. */
  lemma {:induction false} OneTipExactly(worlds: seq<World>, cfg: Config, sts: seq<Statement>)
    requires Execution(worlds, cfg, sts) && Start(worlds[0])
    ensures (forall i :: 0 <= i < |worlds| ==> OneTip(worlds[i].state.rows)) <==>
            (forall i :: 0 <= i < |sts| ==> FindsNone(worlds[i], sts[i]))
    decreases |sts|
  {
    assert OneTip(worlds[0].state.rows);
    hide OneTip, FindsNone, Owned, Next, Statements.Enabled, Start;
    if sts == [] {
    } else {
      var n := |sts| - 1;
      OneTipExactly(worlds[..n + 1], cfg, sts[..n]);
      assert forall i :: 0 <= i < n ==> sts[..n][i] == sts[i] && worlds[..n + 1][i] == worlds[i];
      var owner := OneUserPerFamily(worlds[..n + 1], cfg, sts[..n]);
      assert OneTip(worlds[n].state.rows) ==> (OneTip(worlds[n + 1].state.rows) <==> FindsNone(worlds[n], sts[n])) by {
        if OneTip(worlds[n].state.rows) {
          TipStep(worlds[n], cfg, owner, sts[n]);
        }
      }
    }
  }

  lemma TipStep(w: World, cfg: Config, owner: map<Family, User>, st: Statement)
    requires Owned(w, owner) && OneTip(w.state.rows) && Statements.Enabled(w, st)
    ensures OneTip(Next(w, cfg, st).state.rows) <==> FindsNone(w, st)
  {
    hide OneTip, Owned;
    match st {
      case InsertRotated(request, token, family) => InsertKeepsOneTip(w, cfg, owner, request, token, family);
      case _ => OthersKeepOneTip(w, cfg, owner, st);
    }
  }

  predicate SameSubject(a: Row, b: Row) { a.family.Some? && a.family == b.family }

  /** No two requests in flight are about one family. */
  ghost predicate Apart(w: World) {
    forall r, s :: r in w.inFlight && s in w.inFlight && SameSubject(w.inFlight[r].row, w.inFlight[s].row) ==> r == s
  }

  /** What a request in flight knows about its family: whatever is unrevoked there it is about to revoke, or
      it has done so. */
  ghost predicate Knows(rows: Rows, p: Progress) {
    match p
    case RevokeThenInsert(row, _, from) =>
      forall t :: InFamily(rows, t, row.family) && rows[t].Unrevoked() ==> t == from
    case Insert(row, _) => NoTip(rows, row.family)
    case _ => true
  }

  ghost predicate Disciplined(w: World) {
    OneTip(w.state.rows) && forall r :: r in w.inFlight ==> Knows(w.state.rows, w.inFlight[r])
  }

  /** Revoking and deleting rows disturbs nobody. */
  lemma FewerTipsKeepDisciplined(w: World, rows: Rows)
    requires Disciplined(w) && OnlyRevokes(w.state.rows, rows)
    ensures Disciplined(w.(state := w.state.(rows := rows)))
  {
    assert forall t, u :: SameFamily(rows, t, u) ==> SameFamily(w.state.rows, t, u);
    assert forall t, f :: InFamily(rows, t, f) ==> InFamily(w.state.rows, t, f);
  }

  /** A new row of a family that nobody else in flight is about, and that has no unrevoked session. */
  lemma IssueKeepsDisciplined(w: World, expiresAt: int, user: User, token: Token, family: Family)
    requires Disciplined(w) && token !in w.state.rows && NoTip(w.state.rows, Some(family))
    requires forall r :: r in w.inFlight ==> w.inFlight[r].row.family != Some(family)
    ensures Disciplined(w.(state := IssueUntil(w.state, expiresAt, user, token, family)))
  {
    var rows, rows' := w.state.rows, IssueUntil(w.state, expiresAt, user, token, family).rows;
    forall t, u | SameFamily(rows', t, u) && rows'[t].Unrevoked() && rows'[u].Unrevoked() ensures t == u {
      assert t != token && u != token ==> SameFamily(rows, t, u);
      assert t != token ==> InFamily(rows, t, rows[t].family);
      assert u != token ==> InFamily(rows, u, rows[u].family);
    }
    forall r | r in w.inFlight ensures Knows(rows', w.inFlight[r]) {
      assert forall t :: InFamily(rows', t, w.inFlight[r].row.family) ==> InFamily(rows, t, w.inFlight[r].row.family);
    }
  }

  lemma SelectKeepsDisciplined(w: World, cfg: Config, st: Statement)
    requires Disciplined(w) && Statements.Enabled(w, st) && (st.SelectSession? || st.SelectTip?)
    ensures Disciplined(Next(w, cfg, st))
  {
    var rows := w.state.rows;
    if st.SelectSession? && st.token in rows {
      forall t | InFamily(rows, t, rows[st.token].family) ensures SameFamily(rows, t, st.token) {}
    } else if st.SelectTip? && st.tip.Some? {
      forall t | InFamily(rows, t, w.inFlight[st.request].row.family) ensures SameFamily(rows, t, st.tip.value) {}
    }
  }

  lemma UpdateKeepsDisciplined(w: World, cfg: Config, request: Request)
    requires Disciplined(w) && Statements.Enabled(w, UpdateToken(request))
    ensures Disciplined(Next(w, cfg, UpdateToken(request)))
  {
    var p := w.inFlight[request];
    var rows := RevokeToken(w.state.rows, p.from, w.state.now);
    FewerTipsKeepDisciplined(w, rows);
    assert Knows(w.state.rows, p);
    forall t | InFamily(rows, t, p.row.family) ensures !rows[t].Unrevoked() {
      assert InFamily(w.state.rows, t, p.row.family);
    }
  }

  lemma FreshHasNoTip(w: World, owner: map<Family, User>, family: Family)
    requires Owned(w, owner) && family !in w.state.families
    ensures NoTip(w.state.rows, Some(family))
    ensures forall r :: r in w.inFlight ==> w.inFlight[r].row.family != Some(family)
  {
  }

  lemma InsertKeepsDisciplined(w: World, cfg: Config, owner: map<Family, User>, st: Statement)
    requires Disciplined(w) && Apart(w) && Owned(w, owner) && Statements.Enabled(w, st)
    requires st.InsertSignIn? || st.InsertRotated?
    ensures Disciplined(Next(w, cfg, st))
  {
    hide OneTip, IssueUntil, RevokeFamily, RevokeToken, RevokeUser, PurgeExpired, UnrevokedOf, IsTip;
    if st.InsertSignIn? {
      FreshHasNoTip(w, owner, st.family);
      IssueKeepsDisciplined(w, w.state.now + cfg.ttl, st.user, st.token, st.family);
    } else {
      var p := w.inFlight[st.request];
      assert Knows(w.state.rows, p);
      if p.row.family.None? {
        FreshHasNoTip(w, owner, st.family);
      }
      var others := w.(inFlight := w.inFlight - {st.request});
      var target := if p.row.family.Some? then p.row.family.value else st.family;
      IssueKeepsDisciplined(others, p.readAt + cfg.ttl, p.row.user, st.token, target);
    }
  }

  lemma NextKeepsDisciplined(w: World, cfg: Config, owner: map<Family, User>, st: Statement)
    requires Disciplined(w) && Apart(w) && Owned(w, owner) && Statements.Enabled(w, st)
    ensures Disciplined(Next(w, cfg, st))
  {
    hide Disciplined, Apart, Owned;
    match st {
      case InsertSignIn(_, _, _) => InsertKeepsDisciplined(w, cfg, owner, st);
      case InsertRotated(_, _, _) => InsertKeepsDisciplined(w, cfg, owner, st);
      case SelectSession(_, _) => SelectKeepsDisciplined(w, cfg, st);
      case SelectTip(_, _) => SelectKeepsDisciplined(w, cfg, st);
      case UpdateToken(request) => UpdateKeepsDisciplined(w, cfg, request);
      case Tick(_) => SameRowsKeepDisciplined(w, Next(w, cfg, st).state, w.inFlight);
      case InsertUser(_) => SameRowsKeepDisciplined(w, Next(w, cfg, st).state, w.inFlight);
      case UpdateUser(_, _) => SameRowsKeepDisciplined(w, Next(w, cfg, st).state, w.inFlight);
      case UpdateFamily(request) =>
        var rows := RevokeFamily(w.state.rows, w.inFlight[request].row.family, w.state.now);
        FewerTipsKeepDisciplined(w, rows);
        SameRowsKeepDisciplined(w.(state := w.state.(rows := rows)), w.state.(rows := rows), w.inFlight - {request});
      case _ => FewerTipsKeepDisciplined(w, Next(w, cfg, st).state.rows);
    }
  }

  lemma SameRowsKeepDisciplined(w: World, s: State, inFlight: map<Request, Progress>)
    requires Disciplined(w) && s.rows == w.state.rows
    requires forall r :: r in inFlight ==> r in w.inFlight && inFlight[r] == w.inFlight[r]
    ensures Disciplined(World(s, inFlight))
  {
  }

  /** As long as the requests in flight are about different families, every family has at most one unrevoked
      session, however the statements interleave. */
  lemma {:induction false} ApartRequestsKeepOneTip(worlds: seq<World>, cfg: Config, sts: seq<Statement>, i: nat)
    requires Execution(worlds, cfg, sts) && Start(worlds[0]) && i < |worlds|
    requires forall j :: 0 <= j < |worlds| ==> Apart(worlds[j])
    ensures OneTip(worlds[i].state.rows) && Disciplined(worlds[i])
  {
    if i == 0 {
    } else {
      ApartRequestsKeepOneTip(worlds, cfg, sts, i - 1);
      var owner := OneUserPerFamily(worlds[..i], cfg, sts[..i - 1]);
      NextKeepsDisciplined(worlds[i - 1], cfg, owner, sts[i - 1]);
    }
  }

  // ----- Dead families -----

  /** The new session that a request in flight is to insert would not have expired by now. */
  predicate InTime(w: World, cfg: Config, r: Request)
    requires r in w.inFlight
  {
    w.inFlight[r].readAt + cfg.ttl > w.state.now
  }

  /** A single statement brings a dead family back exactly if it is the insert of a rotation in that family, in
      time before the new session's expiry. */
  lemma RevivesExactly(w: World, cfg: Config, owner: map<Family, User>, st: Statement, f: Family)
    requires Owned(w, owner) && Statements.Enabled(w, st) && Dead(w.state, f)
    ensures !Dead(Next(w, cfg, st).state, f) <==>
            st.InsertRotated? && w.inFlight[st.request].row.family == Some(f) && InTime(w, cfg, st.request)
  {
    var s := Next(w, cfg, st).state;
    if st.InsertRotated? && w.inFlight[st.request].row.family == Some(f) && InTime(w, cfg, st.request) {
      assert s.rows[st.token].LiveIn(f, s.now);
    }
  }

  /** Some request in flight has decided to rotate in the family, and is in time. */
  ghost predicate Committed(w: World, cfg: Config, f: Family) {
    exists r :: r in w.inFlight && w.inFlight[r].row.family == Some(f) && InTime(w, cfg, r)
                && (w.inFlight[r].RevokeThenInsert? || w.inFlight[r].Insert?)
  }

  lemma NextKeepsQuietDead(w: World, cfg: Config, owner: map<Family, User>, st: Statement, f: Family)
    requires Owned(w, owner) && Statements.Enabled(w, st) && Dead(w.state, f) && !Committed(w, cfg, f)
    ensures Dead(Next(w, cfg, st).state, f) && !Committed(Next(w, cfg, st), cfg, f)
  {
    RevivesExactly(w, cfg, owner, st, f);
    var w' := Next(w, cfg, st);
    forall r | r in w'.inFlight && w'.inFlight[r].row.family == Some(f) && InTime(w', cfg, r)
      ensures !w'.inFlight[r].RevokeThenInsert? && !w'.inFlight[r].Insert?
    {
      if r in w.inFlight && w.inFlight[r].row.family == Some(f) && InTime(w, cfg, r) {
        assert !(w.inFlight[r].RevokeThenInsert? || w.inFlight[r].Insert?);
      }
    }
  }

  /** A family that is dead, and in which no request in flight has decided to rotate in time, is dead for good. */
  lemma {:induction false} QuietDeadStaysDead(worlds: seq<World>, cfg: Config, sts: seq<Statement>, i: nat, j: nat,
                                              f: Family)
    requires Execution(worlds, cfg, sts) && Start(worlds[0]) && i <= j < |worlds|
    requires Dead(worlds[i].state, f) && !Committed(worlds[i], cfg, f)
    ensures Dead(worlds[j].state, f) && !Committed(worlds[j], cfg, f)
    decreases j
  {
    if i == j {
    } else {
      QuietDeadStaysDead(worlds, cfg, sts, i, j - 1, f);
      var owner := OneUserPerFamily(worlds[..j], cfg, sts[..j - 1]);
      NextKeepsQuietDead(worlds[j - 1], cfg, owner, sts[j - 1], f);
    }
  }

  /** And a dead family in which some request has, can always come back: that request need only go on. */
  lemma CommittedReturns(w: World, cfg: Config, f: Family, token: Token, family: Family)
    returns (worlds: seq<World>, sts: seq<Statement>)
    requires Dead(w.state, f) && Committed(w, cfg, f)
    requires token !in w.state.issued && family !in w.state.families
    ensures Execution(worlds, cfg, sts) && worlds[0] == w && !Dead(worlds[|sts|].state, f)
  {
    var r :| r in w.inFlight && w.inFlight[r].row.family == Some(f) && InTime(w, cfg, r)
             && (w.inFlight[r].RevokeThenInsert? || w.inFlight[r].Insert?);
    worlds, sts := [w], [];
    if w.inFlight[r].RevokeThenInsert? {
      worlds, sts := [w, Next(w, cfg, UpdateToken(r))], [UpdateToken(r)];
    }
    var last := worlds[|sts|];
    worlds, sts := worlds + [Next(last, cfg, InsertRotated(r, token, family))], sts + [InsertRotated(r, token, family)];
    var s := worlds[|sts|].state;
    assert s.rows[token].LiveIn(f, s.now);
  }

  /** Which happens: a logout everywhere that falls between a request's UPDATE and its INSERT is undone for
      that family. */
  lemma LogoutAllUndone(cfg: Config, user: User) returns (worlds: seq<World>, sts: seq<Statement>)
    requires cfg.ttl > 0
    ensures Execution(worlds, cfg, sts) && Start(worlds[0]) && |sts| >= 2 && sts[|sts| - 2] == RevokeAll(user)
    ensures Dead(worlds[|sts| - 1].state, 7) && !Dead(worlds[|sts|].state, 7)
  {
    worlds, sts := TwoRead(cfg, user);
    hide Execution, Start;
    worlds, sts := Do(worlds, cfg, sts, UpdateToken(1));
    worlds, sts := Do(worlds, cfg, sts, RevokeAll(user));
    var s := worlds[|sts|].state;
    assert s.rows.Keys == {10} && !s.rows[10].Unrevoked() && s.families == {7};
    worlds, sts := Do(worlds, cfg, sts, InsertRotated(1, 11, 8));
    assert worlds[|sts|].state.rows[11].LiveIn(7, worlds[|sts|].state.now);
  }
}
