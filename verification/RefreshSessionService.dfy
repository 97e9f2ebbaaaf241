/** The request handlers, statement by statement, over one shared session table. */
module RefreshSessionService {
  import opened Wrappers
  import opened RefreshSessions
  import opened RefreshSessionTheorems

  class AuthService {
    const cfg: Config
    var now: int
    var users: map<User, bool>
    var rows: Rows
    ghost var issued: map<Token, Option<Family>>
    ghost var families: set<Family>

    ghost function Abstract(): State
      reads this
    {
      State(now, users, rows, issued, families)
    }

    ghost predicate Valid()
      reads this
    {
      Inv(Abstract())
    }

    constructor (cfg: Config, now: int)
      ensures Valid() && Initial(Abstract()) && this.cfg == cfg && this.now == now && users == map[]
    {
      this.cfg, this.now := cfg, now;
      users, rows, issued, families := map[], map[], map[], {};
    }

    /** INSERT of a session; without a family the row starts a new one. */
    method CreateRefreshSession(user: User, token: Token, expiresAt: int, family: Option<Family>, newFamily: Family)
      requires token !in issued
      modifies `rows, `issued, `families
      ensures var f := if family.Some? then family.value else newFamily;
              && rows == old(rows)[token := Row(user, Some(f), now, expiresAt, None)]
              && issued == old(issued)[token := Some(f)]
              && families == old(families) + {f}
    {
      var f := newFamily;
      if family.Some? {
        f := family.value;
      }
      rows := rows[token := Row(user, Some(f), now, expiresAt, None)];
      issued := issued[token := Some(f)];
      families := families + {f};
    }

    /** The live session of a family: newest first, at most one row. */
    method GetLiveSessionForFamily(family: Option<Family>) returns (tip: Option<Token>)
      ensures IsTip(rows, family, now, tip)
    {
      if family.None? {
        return None;
      }
      var live := set t | t in rows && rows[t].LiveIn(family.value, now);
      if live == {} {
        assert forall t :: t in rows && rows[t].LiveIn(family.value, now) ==> t in live;
        return None;
      }
      NewestExists(rows, live);
      var t :| t in live && forall u :: u in live ==> rows[u].createdAt <= rows[t].createdAt;
      assert forall u :: u in rows && rows[u].LiveIn(family.value, now) ==> u in live;
      return Some(t);
    }

    /** UPDATE of one token's row, revoked already or not. */
    method RevokeRefreshSession(token: Token)
      modifies `rows
      ensures rows == RevokeToken(old(rows), token, now)
    {
      if token in rows {
        rows := rows[token := rows[token].(revokedAt := Some(now))];
      }
    }

    /** UPDATE of rows one by one. */
    method RevokeEach(tokens: set<Token>)
      requires tokens <= rows.Keys
      modifies `rows
      ensures rows == map t | t in old(rows) ::
                        if t in tokens then old(rows)[t].(revokedAt := Some(now)) else old(rows)[t]
    {
      ghost var before := rows;
      var left := tokens;
      while left != {}
        invariant left <= tokens && rows.Keys == before.Keys
        invariant forall t :: t in rows ==>
                    rows[t] == if t in tokens - left then before[t].(revokedAt := Some(now)) else before[t]
        decreases left
      {
        var t :| t in left;
        rows := rows[t := rows[t].(revokedAt := Some(now))];
        left := left - {t};
      }
    }

    method RevokeFamilySessions(family: Option<Family>)
      modifies `rows
      ensures rows == RevokeFamily(old(rows), family, now)
    {
      if family.None? {
        return;
      }
      RevokeEach(set t | t in rows && rows[t].family == family && rows[t].Unrevoked());
    }

    method RevokeAllUserSessions(user: User)
      modifies `rows
      ensures rows == RevokeUser(old(rows), user, now)
    {
      RevokeEach(set t | t in rows && rows[t].user == user && rows[t].Unrevoked());
    }

    /** DELETE of rows one by one. */
    method DeleteEach(tokens: set<Token>)
      modifies `rows
      ensures rows == old(rows) - tokens
    {
      ghost var before := rows;
      var left := tokens;
      while left != {}
        invariant left <= tokens && rows == before - (tokens - left)
        decreases left
      {
        var t :| t in left;
        rows := rows - {t};
        left := left - {t};
      }
    }

    method DeleteExpired()
      modifies `rows
      ensures rows == PurgeExpired(old(rows), now)
    {
      DeleteEach(set t | t in rows && rows[t].expiresAt < now);
    }

    method Setup(user: User, newOk: bool, token: Token, family: Family) returns (answer: Answer)
      requires Valid() && Enabled(Abstract(), Event.Setup(user, newOk, token, family))
      modifies this
      ensures Valid()
      ensures (Abstract(), answer) == Step(old(Abstract()), cfg, Event.Setup(user, newOk, token, family))
    {
      StepKeepsInv(Abstract(), cfg, Event.Setup(user, newOk, token, family));
      if !newOk {
        return Denied(400, "Password must be at least 8 characters long.");
      }
      if users != map[] {
        return Denied(409, "Setup has already been completed. A user already exists.");
      }
      users := users[user := true];
      CreateRefreshSession(user, token, now + cfg.ttl, None, family);
      return SignedIn(user, token);
    }

    method Login(user: User, passwordOk: bool, token: Token, family: Family) returns (answer: Answer)
      requires Valid() && Enabled(Abstract(), Event.Login(user, passwordOk, token, family))
      modifies this
      ensures Valid()
      ensures (Abstract(), answer) == Step(old(Abstract()), cfg, Event.Login(user, passwordOk, token, family))
    {
      StepKeepsInv(Abstract(), cfg, Event.Login(user, passwordOk, token, family));
      if user !in users || !passwordOk {
        return Denied(401, "Invalid credentials.");
      }
      if !users[user] {
        return Denied(403, "Account is disabled.");
      }
      CreateRefreshSession(user, token, now + cfg.ttl, None, family);
      return SignedIn(user, token);
    }

    method Logout(cookie: Option<Token>) returns (answer: Answer)
      requires Valid()
      modifies this
      ensures Valid()
      ensures (Abstract(), answer) == Step(old(Abstract()), cfg, Event.Logout(cookie))
    {
      StepKeepsInv(Abstract(), cfg, Event.Logout(cookie));
      if cookie.Some? {
        RevokeRefreshSession(cookie.value);
      }
      return LoggedOut;
    }

    /** Rotation with reuse detection. `tip` is what the lookup of the live session returned, when it ran. */
    method RefreshHandler(cookie: Option<Token>, token: Token, family: Family)
      returns (answer: Answer, ghost tip: Option<Token>)
      requires token !in issued && family !in families
      modifies this
      ensures Enabled(old(Abstract()), Event.Refresh(cookie, tip, token, family))
      ensures (Abstract(), answer) == Step(old(Abstract()), cfg, Event.Refresh(cookie, tip, token, family))
    {
      tip := None;
      ghost var before := Abstract();
      if cookie.None? {
        return Denied(401, MISSING), tip;
      }
      if cookie.value !in rows {
        return Denied(401, INVALID), tip;
      }
      var session := rows[cookie.value];
      if !(session.user in users && users[session.user]) {
        return Denied(401, INVALID), tip;
      }
      if session.expiresAt <= now {
        return Denied(401, INVALID), tip;
      }
      var rotateFrom := cookie.value;
      if session.revokedAt.Some? {
        var found := GetLiveSessionForFamily(session.family);
        tip := found;
        if found.Some? && now - session.revokedAt.value <= cfg.grace {
          rotateFrom := found.value;
        } else if found.Some? {
          RevokeFamilySessions(session.family);
          assert Decide(before, cfg, cookie, tip) == Reuse(session.family);
          return Denied(401, INVALID), tip;
        } else {
          return Denied(401, INVALID), tip;
        }
      }
      assert Decide(before, cfg, cookie, tip) == Rotate(rotateFrom);
      RevokeRefreshSession(rotateFrom);
      CreateRefreshSession(session.user, token, now + cfg.ttl, session.family, family);
      return Rotated(session.user, token, rotateFrom), tip;
    }

    method Refresh(cookie: Option<Token>, token: Token, family: Family)
      returns (answer: Answer, ghost tip: Option<Token>)
      requires Valid() && token !in issued && family !in families
      modifies this
      ensures Valid() && Enabled(old(Abstract()), Event.Refresh(cookie, tip, token, family))
      ensures (Abstract(), answer) == Step(old(Abstract()), cfg, Event.Refresh(cookie, tip, token, family))
    {
      answer, tip := RefreshHandler(cookie, token, family);
      StepKeepsInv(old(Abstract()), cfg, Event.Refresh(cookie, tip, token, family));
    }

    method LogoutAll(user: User) returns (answer: Answer)
      requires Valid()
      modifies this
      ensures Valid()
      ensures (Abstract(), answer) == Step(old(Abstract()), cfg, Event.LogoutAll(user))
    {
      StepKeepsInv(Abstract(), cfg, Event.LogoutAll(user));
      if !Active(users, user) {
        return Denied(401, "Not authenticated");
      }
      var open := set t | t in rows && rows[t].user == user && rows[t].Unrevoked();
      assert open == UnrevokedOf(rows, user);
      RevokeAllUserSessions(user);
      return SessionsRevoked(|open|);
    }

    method ChangePassword(user: User, newOk: bool, currentOk: bool) returns (answer: Answer)
      requires Valid()
      modifies this
      ensures Valid()
      ensures (Abstract(), answer) == Step(old(Abstract()), cfg, Event.ChangePassword(user, newOk, currentOk))
    {
      StepKeepsInv(Abstract(), cfg, Event.ChangePassword(user, newOk, currentOk));
      if !Active(users, user) {
        return Denied(401, "Not authenticated");
      }
      if !newOk {
        return Denied(400, "Password must be at least 8 characters long.");
      }
      if !currentOk {
        return Denied(400, "Current password is incorrect.");
      }
      var open := set t | t in rows && rows[t].user == user && rows[t].Unrevoked();
      assert open == UnrevokedOf(rows, user);
      DeleteEach(open);
      return PasswordChanged;
    }

    method PurgeExpiredSessions()
      requires Valid()
      modifies `rows
      ensures Valid()
      ensures (Abstract(), Silent) == Step(old(Abstract()), cfg, Purge)
    {
      StepKeepsInv(Abstract(), cfg, Purge);
      DeleteExpired();
    }
  }

  lemma NewestExists(rows: Rows, live: set<Token>)
    requires live != {} && live <= rows.Keys
    ensures exists t :: t in live && forall u :: u in live ==> rows[u].createdAt <= rows[t].createdAt
  {
    var t :| t in live;
    if live != {t} {
      NewestExists(rows, live - {t});
      var newest :| newest in live - {t} && forall u :: u in live - {t} ==> rows[u].createdAt <= rows[newest].createdAt;
      if rows[newest].createdAt < rows[t].createdAt {
        assert forall u :: u in live ==> u == t || u in live - {t};
      } else {
        assert forall u :: u in live ==> u == t || u in live - {t};
      }
    }
  }
}
