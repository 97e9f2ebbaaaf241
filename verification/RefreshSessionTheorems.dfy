/** Properties of whole runs of the session protocol. */
module RefreshSessionTheorems {
  import opened Wrappers
  import opened RefreshSessions

  // ----- At most one unrevoked session a family, one user a family -----

  lemma IssueKeepsInv(s: State, cfg: Config, user: User, token: Token, family: Family)
    requires Inv(s) && user in s.users && token !in s.issued
    requires forall t :: t in s.rows && s.rows[t].family == Some(family)
               ==> s.rows[t].user == user && !s.rows[t].Unrevoked()
    ensures Inv(Issue(s, cfg, user, token, family))
  {
  }

  lemma FreshFamilyHasNoRows(s: State, family: Family)
    requires Inv(s) && family !in s.families
    ensures forall t :: t in s.rows ==> s.rows[t].family != Some(family)
  {
  }

  /** Rows may disappear and be revoked, and nothing else happens to them. */
  ghost predicate OnlyRevokes(before: Rows, after: Rows) {
    forall t :: t in after ==>
      t in before && after[t].user == before[t].user && after[t].family == before[t].family
      && after[t].createdAt == before[t].createdAt && after[t].expiresAt == before[t].expiresAt
      && (before[t].revokedAt.Some? ==> after[t].revokedAt.Some?)
  }

  lemma RevokingKeepsInv(s: State, rows: Rows)
    requires Inv(s) && OnlyRevokes(s.rows, rows)
    ensures Inv(s.(rows := rows))
  {
  }

  lemma RefreshKeepsInv(s: State, cfg: Config, cookie: Option<Token>, tip: Option<Token>, token: Token, family: Family)
    requires Inv(s) && Enabled(s, Refresh(cookie, tip, token, family))
    ensures Inv(RefreshStep(s, cfg, cookie, tip, token, family).0)
  {
    match Decide(s, cfg, cookie, tip) {
      case NoCookie =>
      case Reject =>
      case Reuse(f) => RevokingKeepsInv(s, RevokeFamily(s.rows, f, s.now));
      case Rotate(from) =>
        FreshFamilyHasNoRows(s, family);
        var row := s.rows[cookie.value];
        var rows := RevokeToken(s.rows, from, s.now);
        RevokingKeepsInv(s, rows);
        var target := if row.family.Some? then row.family.value else family;
        forall t | t in rows && rows[t].family == Some(target)
          ensures rows[t].user == row.user && !rows[t].Unrevoked()
        {
          assert SameFamily(s.rows, t, cookie.value) && SameFamily(s.rows, t, from);
        }
        IssueKeepsInv(s.(rows := rows), cfg, row.user, token, target);
    }
  }

  lemma SignInKeepsInv(s: State, cfg: Config, ev: Event)
    requires Inv(s) && Enabled(s, ev) && (ev.Setup? || ev.Login?)
    ensures Inv(Step(s, cfg, ev).0)
  {
    hide Issue;
    FreshFamilyHasNoRows(s, ev.family);
    if ev.Setup? && s.users == map[] {
      IssueKeepsInv(s.(users := map[ev.user := true]), cfg, ev.user, ev.token, ev.family);
    } else if ev.user in s.users {
      IssueKeepsInv(s, cfg, ev.user, ev.token, ev.family);
    }
  }

  lemma StepKeepsInv(s: State, cfg: Config, ev: Event)
    requires Inv(s) && Enabled(s, ev)
    ensures Inv(Step(s, cfg, ev).0)
  {
    match ev {
      case Setup(_, _, _, _) => SignInKeepsInv(s, cfg, ev);
      case Login(_, _, _, _) => SignInKeepsInv(s, cfg, ev);
      case Refresh(cookie, tip, token, family) => RefreshKeepsInv(s, cfg, cookie, tip, token, family);
      case _ => RevokingKeepsInv(s, Step(s, cfg, ev).0.rows);
    }
  }

  lemma {:induction false} RunKeepsInv(s: State, cfg: Config, evs: seq<Event>)
    requires Inv(s) && EnabledRun(s, cfg, evs)
    ensures Inv(Run(s, cfg, evs))
    decreases |evs|
  {
    if evs == [] {
    } else {
      StepKeepsInv(s, cfg, evs[0]);
      RunKeepsInv(Step(s, cfg, evs[0]).0, cfg, evs[1..]);
    }
  }

  // ----- A successful refresh -----

  /** A refresh succeeds exactly when the token's row is known, its user active and the row unexpired, and
      the row is either unrevoked or was revoked within the grace window while its family is still live. */
  lemma RefreshSucceedsExactly(s: State, cfg: Config, cookie: Token, tip: Option<Token>, token: Token, family: Family)
    requires Inv(s) && Enabled(s, Refresh(Some(cookie), tip, token, family))
    ensures RefreshStep(s, cfg, Some(cookie), tip, token, family).1.Rotated? <==>
            && cookie in s.rows && Active(s.users, s.rows[cookie].user) && s.rows[cookie].Unexpired(s.now)
            && (s.rows[cookie].revokedAt.Some? ==>
                  && s.now - s.rows[cookie].revokedAt.value <= cfg.grace
                  && exists t :: t in s.rows && SameFamily(s.rows, cookie, t) && s.rows[t].Live(s.now))
  {
  }

  /** A refresh is punished as reuse exactly when the row is known, its user active and the row unexpired, and
      it was revoked longer ago than the grace window while its family is still live. */
  lemma RefreshPunishesExactly(s: State, cfg: Config, cookie: Token, tip: Option<Token>, token: Token, family: Family)
    requires Inv(s) && Enabled(s, Refresh(Some(cookie), tip, token, family))
    ensures Decide(s, cfg, Some(cookie), tip).Reuse? <==>
            && cookie in s.rows && Active(s.users, s.rows[cookie].user) && s.rows[cookie].Unexpired(s.now)
            && s.rows[cookie].revokedAt.Some? && s.now - s.rows[cookie].revokedAt.value > cfg.grace
            && exists t :: t in s.rows && SameFamily(s.rows, cookie, t) && s.rows[t].Live(s.now)
  {
  }

  /** A successful refresh, recovery inside the grace window included, replaces the family's live session
      by the new token: that is the family's only unrevoked session, it belongs to the same user, and the
      rows outside the family do not change. */
  lemma RefreshMovesTheTip(s: State, cfg: Config, cookie: Token, tip: Option<Token>, token: Token, family: Family)
    requires Inv(s) && Enabled(s, Refresh(Some(cookie), tip, token, family))
    requires RefreshStep(s, cfg, Some(cookie), tip, token, family).1.Rotated?
    ensures var (s', answer) := RefreshStep(s, cfg, Some(cookie), tip, token, family);
            && answer.token == token && token in s'.rows && token !in s.rows
            && answer.user == s'.rows[token].user == s.rows[cookie].user
            && (s.rows[cookie].family.Some? ==> s'.rows[token].family == s.rows[cookie].family)
            && (s'.rows[token].Live(s'.now) <==> cfg.ttl > 0)
            && (forall t :: SameFamily(s'.rows, token, t) && s'.rows[t].Unrevoked() ==> t == token)
            && answer.replaced in s.rows && s.rows[answer.replaced].Live(s.now)
            && s.rows[answer.replaced].family == s.rows[cookie].family
            && s'.rows.Keys == s.rows.Keys + {token}
            && (forall t :: t in s.rows && s.rows[t].family != s.rows[cookie].family ==> s'.rows[t] == s.rows[t])
  {
  }

  /** Logging in succeeds exactly when the user exists, is active and gave the right password; a wrong password and
      an unknown user are told alike, and nothing changes on either. */
  lemma LoginSucceedsExactly(s: State, cfg: Config, user: User, passwordOk: bool, token: Token, family: Family)
    ensures var (s', answer) := Step(s, cfg, Login(user, passwordOk, token, family));
            && (answer == SignedIn(user, token) <==> user in s.users && s.users[user] && passwordOk)
            && (answer == Denied(401, "Invalid credentials.") <==> user !in s.users || !passwordOk)
            && (answer == Denied(403, "Account is disabled.") <==> user in s.users && !s.users[user] && passwordOk)
            && (!answer.SignedIn? ==> s' == s)
  {
    assert "Invalid credentials."[0] == 'I' && "Account is disabled."[0] == 'A';
  }

  /** The first account can be set up exactly once, with a long enough password; it becomes the one user. */
  lemma SetupSucceedsExactly(s: State, cfg: Config, user: User, newOk: bool, token: Token, family: Family)
    ensures var (s', answer) := Step(s, cfg, Event.Setup(user, newOk, token, family));
            && (answer == SignedIn(user, token) <==> newOk && s.users == map[])
            && (answer.SignedIn? ==> s'.users == map[user := true])
            && (!answer.SignedIn? ==> s' == s && answer.Denied? && answer.status == if !newOk then 400 else 409)
  {
  }

  /** A password change goes through exactly for an active user with a long enough new password and the right
      current one; otherwise no session changes. */
  lemma PasswordChangesExactly(s: State, cfg: Config, user: User, newOk: bool, currentOk: bool)
    ensures var (s', answer) := Step(s, cfg, ChangePassword(user, newOk, currentOk));
            && (answer == PasswordChanged <==> user in s.users && s.users[user] && newOk && currentOk)
            && (answer != PasswordChanged ==> s' == s && answer.Denied?)
            && (answer.Denied? ==> answer.status == if user in s.users && s.users[user] then 400 else 401)
  {
  }

  /** A refresh that does not rotate is a 401, with one detail for a missing cookie and one for all else. */
  lemma RefreshDenials(s: State, cfg: Config, cookie: Option<Token>, tip: Option<Token>, token: Token, family: Family)
    ensures var answer := RefreshStep(s, cfg, cookie, tip, token, family).1;
            || answer.Rotated?
            || answer == Denied(401, if cookie.None? then "Missing refresh token"
                                     else "Invalid or expired refresh token")
  {
  }

  /** Purging keeps a row, as it is, exactly if it expires now or later. */
  lemma PurgeIsExact(s: State, cfg: Config, t: Token)
    ensures var rows := Step(s, cfg, Purge).0.rows;
            && (t in rows <==> t in s.rows && s.rows[t].expiresAt >= s.now)
            && (t in rows ==> rows[t] == s.rows[t])
  {
  }

  /** Signing in opens a family of its own: the new token is its only session, the user's, and live for the
      configured time; no other row changes. */
  lemma SignInStartsAFamily(s: State, cfg: Config, ev: Event)
    requires Inv(s) && Enabled(s, ev) && (ev.Setup? || ev.Login?) && Step(s, cfg, ev).1.SignedIn?
    ensures var (s', answer) := Step(s, cfg, ev);
            && answer == SignedIn(ev.user, ev.token) && ev.token in s'.rows && Active(s'.users, ev.user)
            && s'.rows[ev.token].user == ev.user && s'.rows[ev.token].family == Some(ev.family)
            && (forall t :: SameFamily(s'.rows, ev.token, t) ==> t == ev.token)
            && (forall later :: s'.rows[ev.token].Live(later) <==> later < s.now + cfg.ttl)
            && ev.token !in s.rows && s'.rows == s.rows[ev.token := s'.rows[ev.token]]
  {
    FreshFamilyHasNoRows(s, ev.family);
  }

  // ----- A dead family stays dead -----

  /** A family that exists and has no live session. */
  ghost predicate Dead(s: State, f: Family) {
    f in s.families && forall t :: t in s.rows ==> !s.rows[t].LiveIn(f, s.now)
  }

  lemma StepKeepsDead(s: State, cfg: Config, ev: Event, f: Family)
    requires Inv(s) && Enabled(s, ev) && Dead(s, f)
    ensures Dead(Step(s, cfg, ev).0, f)
  {
    match ev {
      case Refresh(cookie, tip, token, family) =>
        var verdict := Decide(s, cfg, cookie, tip);
        if verdict.Rotate? {
          assert s.rows[verdict.from].Live(s.now);
        }
      case _ =>
    }
  }

  lemma {:induction false} RunKeepsDead(s: State, cfg: Config, evs: seq<Event>, f: Family)
    requires Inv(s) && EnabledRun(s, cfg, evs) && Dead(s, f)
    ensures Dead(Run(s, cfg, evs), f)
    decreases |evs|
  {
    if evs == [] {
    } else {
      StepKeepsInv(s, cfg, evs[0]);
      StepKeepsDead(s, cfg, evs[0], f);
      RunKeepsDead(Step(s, cfg, evs[0]).0, cfg, evs[1..], f);
    }
  }

  /** Once a family is dead, presenting any token ever issued in it, after any continuation, is rejected
      and changes nothing. */
  lemma DeadFamilyNeverRefreshes(s: State, cfg: Config, evs: seq<Event>, f: Family, cookie: Token,
                                 tip: Option<Token>, token: Token, family: Family)
    requires Inv(s) && EnabledRun(s, cfg, evs) && Dead(s, f)
    requires var later := Run(s, cfg, evs);
             && Enabled(later, Refresh(Some(cookie), tip, token, family))
             && cookie in later.issued && later.issued[cookie] == Some(f)
    ensures var later := Run(s, cfg, evs);
            Step(later, cfg, Refresh(Some(cookie), tip, token, family)) == (later, Denied(401, INVALID))
  {
    RunKeepsInv(s, cfg, evs);
    RunKeepsDead(s, cfg, evs, f);
  }

  /** The converse: a live session of an active user does refresh, whatever the tip query would return. */
  lemma LiveSessionRefreshes(s: State, cfg: Config, cookie: Token, f: Family, tip: Option<Token>, token: Token,
                             family: Family)
    requires Inv(s) && cookie in s.rows && s.rows[cookie].LiveIn(f, s.now) && Active(s.users, s.rows[cookie].user)
    requires token !in s.issued && family !in s.families
    ensures Enabled(s, Refresh(Some(cookie), tip, token, family))
    ensures Step(s, cfg, Refresh(Some(cookie), tip, token, family)).1 == Rotated(s.rows[cookie].user, token, cookie)
  {
  }

  // ----- What kills a family -----

  /** The reuse response kills the replayed token's family and no other: every row outside it is unchanged. */
  lemma ReuseKillsOneFamily(s: State, cfg: Config, cookie: Token, tip: Option<Token>, token: Token, family: Family)
    requires Inv(s) && Enabled(s, Refresh(Some(cookie), tip, token, family))
    requires Decide(s, cfg, Some(cookie), tip).Reuse?
    ensures var (s', answer) := RefreshStep(s, cfg, Some(cookie), tip, token, family);
            && s.rows[cookie].family.Some? && Dead(s', s.rows[cookie].family.value)
            && !Dead(s, s.rows[cookie].family.value)
            && answer == Denied(401, INVALID)
            && s'.rows.Keys == s.rows.Keys && s'.issued == s.issued && s'.families == s.families
            && (forall t :: t in s.rows && s.rows[t].family != s.rows[cookie].family ==> s'.rows[t] == s.rows[t])
  {
  }

  /** Logging out with a token kills its family exactly when no other session of the family is live, so
      always when the token is the unrevoked one. */
  lemma LogoutKillsItsFamily(s: State, cfg: Config, cookie: Token, f: Family)
    requires Inv(s) && cookie in s.rows && s.rows[cookie].family == Some(f)
    ensures Dead(Step(s, cfg, Logout(Some(cookie))).0, f) <==>
            forall t :: t in s.rows && s.rows[t].LiveIn(f, s.now) ==> t == cookie
    ensures s.rows[cookie].Unrevoked() ==> Dead(Step(s, cfg, Logout(Some(cookie))).0, f)
    ensures Step(s, cfg, Logout(Some(cookie))).0.rows - {cookie} == s.rows - {cookie}
  {
    var s' := Step(s, cfg, Logout(Some(cookie))).0;
    forall t | t in s.rows && s.rows[t].LiveIn(f, s.now) && s.rows[cookie].Unrevoked() ensures t == cookie {
      assert SameFamily(s.rows, t, cookie);
    }
    forall t | t in s.rows && s.rows[t].LiveIn(f, s.now) && t != cookie ensures s'.rows[t].LiveIn(f, s'.now) {}
  }

  /** Logging out everywhere and changing the password leave the user no unrevoked session, and other users
      every row they had. */
  lemma UserWideRevocationIsExact(s: State, cfg: Config, user: User, ev: Event)
    requires Active(s.users, user) && (ev == LogoutAll(user) || ev == ChangePassword(user, true, true))
    ensures var rows := Step(s, cfg, ev).0.rows;
            && (forall t :: t in rows && rows[t].user == user ==> !rows[t].Unrevoked())
            && (forall t :: t in s.rows && (s.rows[t].user != user || !s.rows[t].Unrevoked()) ==>
                  t in rows && rows[t] == s.rows[t])
  {
  }

  /** So they kill every family of the user. */
  lemma UserWideRevocationKills(s: State, cfg: Config, user: User, f: Family, t: Token)
    requires Inv(s) && Active(s.users, user)
    requires t in s.rows && s.rows[t].user == user && s.rows[t].family == Some(f)
    ensures Dead(Step(s, cfg, LogoutAll(user)).0, f)
    ensures Dead(Step(s, cfg, ChangePassword(user, true, true)).0, f)
  {
  }

  /** Time kills a family exactly when its live session, if any, expires by then. */
  lemma ExpiryKills(s: State, cfg: Config, seconds: nat, f: Family)
    requires Inv(s) && f in s.families
    ensures Dead(Step(s, cfg, Tick(seconds)).0, f) <==>
            forall t :: t in s.rows && s.rows[t].LiveIn(f, s.now) ==> s.rows[t].expiresAt <= s.now + seconds
  {
  }

  // ----- Revocation is never undone -----

  /** Issued, and by now revoked or gone from the table. */
  ghost predicate Spent(s: State, t: Token) {
    t in s.issued && (t in s.rows ==> !s.rows[t].Unrevoked())
  }

  lemma {:induction false} SpentStaysSpent(s: State, cfg: Config, evs: seq<Event>, t: Token)
    requires Inv(s) && EnabledRun(s, cfg, evs) && Spent(s, t)
    ensures Spent(Run(s, cfg, evs), t)
    decreases |evs|
  {
    if evs == [] {
    } else {
      StepKeepsInv(s, cfg, evs[0]);
      SpentStaysSpent(Step(s, cfg, evs[0]).0, cfg, evs[1..], t);
    }
  }

  // ----- Reuse over runs -----

  /** Revoked longer ago than the grace window, or gone from the table. */
  ghost predicate TooLate(s: State, cfg: Config, t: Token) {
    t in s.issued && (t in s.rows ==> s.rows[t].revokedAt.Some? && s.now - s.rows[t].revokedAt.value > cfg.grace)
  }

  lemma StepKeepsTooLate(s: State, cfg: Config, ev: Event, t: Token)
    requires Inv(s) && Enabled(s, ev) && TooLate(s, cfg, t) && ev != Logout(Some(t))
    ensures TooLate(Step(s, cfg, ev).0, cfg, t)
    ensures ev.Refresh? && ev.cookie == Some(t) ==> !Step(s, cfg, ev).1.Rotated?
  {
  }

  /** Such a token is never rotated again in any run in which nobody logs out with it. */
  lemma {:induction false} TooLateStaysTooLate(s: State, cfg: Config, evs: seq<Event>, t: Token)
    requires Inv(s) && EnabledRun(s, cfg, evs) && TooLate(s, cfg, t) && Logout(Some(t)) !in evs
    ensures TooLate(Run(s, cfg, evs), cfg, t)
    ensures forall i :: 0 <= i < |evs| && evs[i].Refresh? && evs[i].cookie == Some(t) ==>
              !Answers(s, cfg, evs)[i].Rotated?
    decreases |evs|
  {
    if evs == [] {
    } else {
      hide TooLate, Step, Enabled, Inv;
      StepKeepsInv(s, cfg, evs[0]);
      StepKeepsTooLate(s, cfg, evs[0], t);
      TooLateStaysTooLate(Step(s, cfg, evs[0]).0, cfg, evs[1..], t);
    }
  }

  /** Logging out with a token stamps it again, so a refresh that would have been punished as reuse before is a
      recovery after: the family's live session is rotated, and the new one is live for the configured time. */
  lemma LogoutForgivesReuse(s: State, cfg: Config, cookie: Token, tip: Option<Token>, token: Token, family: Family)
    requires Inv(s) && Enabled(s, Refresh(Some(cookie), tip, token, family))
    requires Decide(s, cfg, Some(cookie), tip).Reuse? && cfg.grace >= 0
    ensures var later := Step(s, cfg, Logout(Some(cookie))).0;
            && Enabled(later, Refresh(Some(cookie), tip, token, family))
            && var (s', answer) := Step(later, cfg, Refresh(Some(cookie), tip, token, family));
               && answer == Rotated(s.rows[cookie].user, token, tip.value)
               && s'.rows[token].family == s.rows[cookie].family && (s'.rows[token].Live(s'.now) <==> cfg.ttl > 0)
  {
    var later := Step(s, cfg, Logout(Some(cookie))).0;
    assert IsTip(later.rows, s.rows[cookie].family, later.now, tip);
  }

  // ----- Purging is invisible -----

  /** Two states that differ only in session rows that have already expired. */
  ghost predicate SameButExpired(s: State, r: State) {
    && s.now == r.now && s.users == r.users && s.issued == r.issued && s.families == r.families
    && (forall t :: t in s.rows && s.rows[t].Unexpired(s.now) ==> t in r.rows && r.rows[t] == s.rows[t])
    && (forall t :: t in r.rows && r.rows[t].Unexpired(s.now) ==> t in s.rows && s.rows[t] == r.rows[t])
  }

  lemma PurgeOnlyDropsExpired(s: State, cfg: Config)
    ensures SameButExpired(s, Step(s, cfg, Purge).0)
  {
  }

  /** Equal answers, except that the two may report different numbers of revoked sessions. */
  predicate Agree(a: Answer, b: Answer) {
    a == b || (a.SessionsRevoked? && b.SessionsRevoked?)
  }

  lemma SameRotation(s: State, r: State, cfg: Config, row: Row, from: Token, token: Token, family: Family)
    requires SameButExpired(s, r)
    ensures var target := if row.family.Some? then row.family.value else family;
            SameButExpired(Issue(s.(rows := RevokeToken(s.rows, from, s.now)), cfg, row.user, token, target),
                           Issue(r.(rows := RevokeToken(r.rows, from, r.now)), cfg, row.user, token, target))
  {
  }

  lemma SameRevokedFamily(s: State, r: State, family: Option<Family>)
    requires SameButExpired(s, r)
    ensures SameButExpired(s.(rows := RevokeFamily(s.rows, family, s.now)),
                           r.(rows := RevokeFamily(r.rows, family, r.now)))
  {
  }

  lemma SameRefresh(s: State, r: State, cfg: Config, cookie: Option<Token>, tip: Option<Token>, token: Token,
                    family: Family)
    requires SameButExpired(s, r) && Enabled(s, Refresh(cookie, tip, token, family))
    ensures Enabled(r, Refresh(cookie, tip, token, family))
    ensures var a := RefreshStep(s, cfg, cookie, tip, token, family);
            var b := RefreshStep(r, cfg, cookie, tip, token, family);
            SameButExpired(a.0, b.0) && a.1 == b.1
  {
    var verdict := Decide(s, cfg, cookie, tip);
    assert Decide(r, cfg, cookie, tip) == verdict;
    match verdict {
      case Rotate(from) =>
        SameRotation(s, r, cfg, s.rows[cookie.value], from, token, family);
      case Reuse(f) => SameRevokedFamily(s, r, f);
      case _ =>
    }
  }

  lemma SameSignIn(s: State, r: State, cfg: Config, ev: Event)
    requires SameButExpired(s, r) && Enabled(s, ev) && (ev.Setup? || ev.Login?)
    ensures Enabled(r, ev) && SameButExpired(Step(s, cfg, ev).0, Step(r, cfg, ev).0)
    ensures Step(s, cfg, ev).1 == Step(r, cfg, ev).1
  {
  }

  lemma SameRevocation(s: State, r: State, cfg: Config, ev: Event)
    requires SameButExpired(s, r) && (ev.Logout? || ev.LogoutAll? || ev.ChangePassword? || ev.Purge?)
    ensures Enabled(r, ev) && SameButExpired(Step(s, cfg, ev).0, Step(r, cfg, ev).0)
    ensures Agree(Step(s, cfg, ev).1, Step(r, cfg, ev).1)
  {
  }

  lemma SameStep(s: State, r: State, cfg: Config, ev: Event)
    requires SameButExpired(s, r) && Enabled(s, ev)
    ensures Enabled(r, ev)
    ensures SameButExpired(Step(s, cfg, ev).0, Step(r, cfg, ev).0)
    ensures Agree(Step(s, cfg, ev).1, Step(r, cfg, ev).1)
    ensures ev.Refresh? ==> Step(s, cfg, ev).1 == Step(r, cfg, ev).1
  {
    match ev {
      case Refresh(cookie, tip, token, family) => SameRefresh(s, r, cfg, cookie, tip, token, family);
      case Setup(_, _, _, _) => SameSignIn(s, r, cfg, ev);
      case Login(_, _, _, _) => SameSignIn(s, r, cfg, ev);
      case Tick(_) =>
      case AddUser(_) =>
      case SetActive(_, _) =>
      case _ =>
        hide Step;
        SameRevocation(s, r, cfg, ev);
    }
  }

  function Answers(s: State, cfg: Config, evs: seq<Event>): (answers: seq<Answer>)
    ensures |answers| == |evs|
    decreases |evs|
  {
    if evs == [] then []
    else [Step(s, cfg, evs[0]).1] + Answers(Step(s, cfg, evs[0]).0, cfg, evs[1..])
  }

  /** Two tables that differ only in expired rows give the same answers in every run, apart from the count
      that logging out everywhere reports; a refresh answers alike and rotates the same session. */
  lemma {:induction false} ExpiredRowsAreInvisible(s: State, r: State, cfg: Config, evs: seq<Event>)
    requires SameButExpired(s, r) && EnabledRun(s, cfg, evs)
    ensures EnabledRun(r, cfg, evs)
    ensures SameButExpired(Run(s, cfg, evs), Run(r, cfg, evs))
    ensures forall i :: 0 <= i < |evs| ==> Agree(Answers(s, cfg, evs)[i], Answers(r, cfg, evs)[i])
    ensures forall i :: 0 <= i < |evs| && evs[i].Refresh? ==> Answers(s, cfg, evs)[i] == Answers(r, cfg, evs)[i]
    decreases |evs|
  {
    if evs == [] {
    } else {
      SameStep(s, r, cfg, evs[0]);
      ExpiredRowsAreInvisible(Step(s, cfg, evs[0]).0, Step(r, cfg, evs[0]).0, cfg, evs[1..]);
    }
  }

  /** The exception is real, and this is exactly when it shows: the count changes with a purge if and only
      if the user still has an unrevoked row past its expiry. */
  lemma PurgeShowsInLogoutAllCount(s: State, cfg: Config, user: User)
    requires Active(s.users, user)
    ensures Step(s, cfg, LogoutAll(user)).1 == Step(Step(s, cfg, Purge).0, cfg, LogoutAll(user)).1 <==>
            forall t :: t in s.rows && s.rows[t].user == user && s.rows[t].Unrevoked() ==> s.rows[t].expiresAt >= s.now
  {
    var before, after := UnrevokedOf(s.rows, user), UnrevokedOf(PurgeExpired(s.rows, s.now), user);
    assert after == set t | t in before && s.rows[t].expiresAt >= s.now;
    SameSizeIsSame(after, before);
    assert forall t :: t in s.rows && s.rows[t].user == user && s.rows[t].Unrevoked() ==> t in before;
  }

  lemma PurgeCanShow(cfg: Config, user: User) returns (s: State)
    ensures Inv(s) && Active(s.users, user)
    ensures Step(s, cfg, LogoutAll(user)).1 == SessionsRevoked(1)
    ensures Step(Step(s, cfg, Purge).0, cfg, LogoutAll(user)).1 == SessionsRevoked(0)
  {
    s := State(10, map[user := true], map[1 := Row(user, Some(2), 0, 5, None)], map[1 := Some(2)], {2});
    assert UnrevokedOf(s.rows, user) == {1} && UnrevokedOf(PurgeExpired(s.rows, s.now), user) == {};
  }

  lemma SameSizeIsSame(part: set<Token>, whole: set<Token>)
    requires part <= whole
    ensures |part| == |whole| <==> forall t :: t in whole ==> t in part
  {
    assert |whole| == |part| + |whole - part| by { assert part + (whole - part) == whole; }
    if part != whole {
      var t :| t in whole - part;
    }
  }
}
