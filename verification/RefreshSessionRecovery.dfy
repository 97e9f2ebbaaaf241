/** Presenting a token again after it was rotated away: recovery inside the grace window, punishment after it. */
module RefreshSessionRecovery {
  import opened Wrappers
  import opened RefreshSessions
  import opened RefreshSessionTheorems

  /** The event has nothing to do with a family or the standing of its user. Purging, time, other families and
      other users may go on. */
  predicate LeavesAlone(s: State, ev: Event, f: Family, user: User) {
    match ev
    case Refresh(cookie, _, _, _) => cookie.None? || cookie.value !in s.rows || s.rows[cookie.value].family != Some(f)
    case Logout(cookie) => cookie.None? || cookie.value !in s.rows || s.rows[cookie.value].family != Some(f)
    case LogoutAll(u) => u != user
    case ChangePassword(u, _, _) => u != user
    case SetActive(u, active) => u != user || active
    case _ => true
  }

  ghost predicate RunLeavesAlone(s: State, cfg: Config, evs: seq<Event>, f: Family, user: User)
    decreases |evs|
  {
    evs == []
    || (LeavesAlone(s, evs[0], f, user) && RunLeavesAlone(Step(s, cfg, evs[0]).0, cfg, evs[1..], f, user))
  }

  /** Between two states: the clock has not gone back, the user is as active as before, the family has no other
      rows, and each of its rows is there and unchanged, unless it has expired. */
  ghost predicate FamilyKept(before: State, after: State, f: Family, user: User) {
    && before.now <= after.now && f in after.families
    && (Active(before.users, user) ==> Active(after.users, user))
    && (forall t :: t in after.rows && after.rows[t].family == Some(f) ==>
          t in before.rows && before.rows[t] == after.rows[t])
    && (forall t :: t in before.rows && before.rows[t].family == Some(f) && before.rows[t].Unexpired(after.now) ==>
          t in after.rows && after.rows[t] == before.rows[t])
  }

  lemma StepKeepsFamily(s: State, cfg: Config, ev: Event, f: Family, user: User)
    requires Inv(s) && Enabled(s, ev) && f in s.families && LeavesAlone(s, ev, f, user)
    requires forall t :: t in s.rows && s.rows[t].family == Some(f) ==> s.rows[t].user == user
    ensures FamilyKept(s, Step(s, cfg, ev).0, f, user)
  {
    if ev.Refresh? {
      RefreshKeepsFamily(s, cfg, ev.cookie, ev.tip, ev.token, ev.family, f, user);
      hide RefreshStep, Inv, FamilyKept;
    } else if ev.Setup? || ev.Login? {
      SignInKeepsFamily(s, cfg, ev, f, user);
      hide Step, Inv, FamilyKept;
    } else {
      hide RefreshStep, Issue;
    }
  }

  lemma SignInKeepsFamily(s: State, cfg: Config, ev: Event, f: Family, user: User)
    requires Inv(s) && Enabled(s, ev) && f in s.families && (ev.Setup? || ev.Login?)
    ensures FamilyKept(s, Step(s, cfg, ev).0, f, user)
  {
  }

  lemma RefreshKeepsFamily(s: State, cfg: Config, cookie: Option<Token>, tip: Option<Token>, token: Token,
                           family: Family, f: Family, user: User)
    requires Inv(s) && Enabled(s, Refresh(cookie, tip, token, family)) && f in s.families
    requires LeavesAlone(s, Refresh(cookie, tip, token, family), f, user)
    ensures FamilyKept(s, RefreshStep(s, cfg, cookie, tip, token, family).0, f, user)
  {
  }

  lemma {:induction false} RunKeepsFamily(s: State, cfg: Config, evs: seq<Event>, f: Family, user: User)
    requires Inv(s) && EnabledRun(s, cfg, evs) && f in s.families && RunLeavesAlone(s, cfg, evs, f, user)
    requires forall t :: t in s.rows && s.rows[t].family == Some(f) ==> s.rows[t].user == user
    ensures FamilyKept(s, Run(s, cfg, evs), f, user) && Inv(Run(s, cfg, evs))
    decreases |evs|
  {
    if evs == [] {
    } else {
      hide Step, Enabled, LeavesAlone, Inv;
      assert Run(s, cfg, evs) == Run(Step(s, cfg, evs[0]).0, cfg, evs[1..]);
      var next := Step(s, cfg, evs[0]).0;
      StepKeepsInv(s, cfg, evs[0]);
      StepKeepsFamily(s, cfg, evs[0], f, user);
      RunKeepsFamily(next, cfg, evs[1..], f, user);
      hide Run;
      KeptThenKept(s, next, Run(next, cfg, evs[1..]), f, user);
    }
  }

  lemma KeptThenKept(s: State, next: State, last: State, f: Family, user: User)
    requires FamilyKept(s, next, f, user) && FamilyKept(next, last, f, user)
    ensures FamilyKept(s, last, f, user)
  {
  }

  /** What presenting a replaced token comes to: with the window open, the session that replaced it is rotated in
      turn; with the window closed, the answer is a denial and the family is dead. */
  ghost predicate ReplayedRightly(s: State, cfg: Config, replaced: Token, tip: Option<Token>, token: Token,
                                  family: Family, user: User, successor: Token, rotatedAt: int, f: Family)
  {
    var (after, answer) := Step(s, cfg, Refresh(Some(replaced), tip, token, family));
    if s.now - rotatedAt <= cfg.grace then answer == Rotated(user, token, successor)
    else answer == Denied(401, INVALID) && Dead(after, f)
  }

  /** A rotation replaces a session of family f by a new one. After any run that leaves the family alone, and
      while both rows are unexpired, presenting the replaced token again is a recovery if the rotation was at
      most the grace window ago, and reuse otherwise. */
  lemma ReplayAfterRotation(s: State, cfg: Config, cookie: Token, tip: Option<Token>, successor: Token, family: Family,
                            evs: seq<Event>, tip': Option<Token>, token': Token, family': Family, f: Family)
    requires Inv(s) && Enabled(s, Refresh(Some(cookie), tip, successor, family))
    requires RefreshStep(s, cfg, Some(cookie), tip, successor, family).1.Rotated?
    requires s.rows[cookie].family == Some(f)
    requires var rotated := RefreshStep(s, cfg, Some(cookie), tip, successor, family).0;
             EnabledRun(rotated, cfg, evs) && RunLeavesAlone(rotated, cfg, evs, f, s.rows[cookie].user)
    requires var replaced := RefreshStep(s, cfg, Some(cookie), tip, successor, family).1.replaced;
             var later := Run(RefreshStep(s, cfg, Some(cookie), tip, successor, family).0, cfg, evs);
             && Enabled(later, Refresh(Some(replaced), tip', token', family'))
             && replaced in s.rows && s.rows[replaced].expiresAt > later.now && s.now + cfg.ttl > later.now
    ensures var (rotated, answer) := RefreshStep(s, cfg, Some(cookie), tip, successor, family);
            ReplayedRightly(Run(rotated, cfg, evs), cfg, answer.replaced, tip', token', family',
                            s.rows[cookie].user, successor, s.now, f)
  {
    var (rotated, answer) := RefreshStep(s, cfg, Some(cookie), tip, successor, family);
    var replaced, user := answer.replaced, s.rows[cookie].user;
    RefreshKeepsInv(s, cfg, Some(cookie), tip, successor, family);
    RefreshMovesTheTip(s, cfg, cookie, tip, successor, family);
    AfterRotation(s, cfg, cookie, tip, successor, family, f);
    RunKeepsFamily(rotated, cfg, evs, f, user);
    var later := Run(rotated, cfg, evs);
    ReplayInKeptFamily(rotated, later, cfg, replaced, successor, tip', token', family', f, user, s.now);
  }

  /** What a rotation leaves of its family. */
  lemma AfterRotation(s: State, cfg: Config, cookie: Token, tip: Option<Token>, successor: Token, family: Family,
                      f: Family)
    requires Inv(s) && Enabled(s, Refresh(Some(cookie), tip, successor, family))
    requires RefreshStep(s, cfg, Some(cookie), tip, successor, family).1.Rotated? && s.rows[cookie].family == Some(f)
    ensures var (rotated, answer) := RefreshStep(s, cfg, Some(cookie), tip, successor, family);
            && answer.replaced in s.rows && answer.replaced in rotated.rows && f in rotated.families
            && Active(rotated.users, s.rows[cookie].user) && rotated.now == s.now
            && rotated.rows[answer.replaced] == s.rows[answer.replaced].(revokedAt := Some(s.now))
            && rotated.rows[answer.replaced].family == Some(f)
            && successor in rotated.rows && rotated.rows[successor].LiveIn(f, s.now) == (cfg.ttl > 0)
            && rotated.rows[successor].expiresAt == s.now + cfg.ttl && rotated.rows[successor].revokedAt == None
            && (forall t :: t in rotated.rows && rotated.rows[t].family == Some(f) ==>
                  rotated.rows[t].user == s.rows[cookie].user && (rotated.rows[t].Unrevoked() ==> t == successor))
  {
    RefreshMovesTheTip(s, cfg, cookie, tip, successor, family);
    RefreshKeepsInv(s, cfg, Some(cookie), tip, successor, family);
    var rotated := RefreshStep(s, cfg, Some(cookie), tip, successor, family).0;
    forall t | t in rotated.rows && rotated.rows[t].family == Some(f)
      ensures rotated.rows[t].user == s.rows[cookie].user && (rotated.rows[t].Unrevoked() ==> t == successor)
    {
      assert SameFamily(rotated.rows, successor, t);
    }
  }

  lemma ReplayInKeptFamily(rotated: State, later: State, cfg: Config, replaced: Token, successor: Token,
                           tip: Option<Token>, token: Token, family: Family, f: Family, user: User, rotatedAt: int)
    requires Inv(later) && FamilyKept(rotated, later, f, user) && Active(rotated.users, user)
    requires Enabled(later, Refresh(Some(replaced), tip, token, family))
    requires replaced in rotated.rows && rotated.rows[replaced].family == Some(f) && rotated.rows[replaced].user == user
    requires rotated.rows[replaced].revokedAt == Some(rotatedAt) && rotated.rows[replaced].Unexpired(later.now)
    requires successor in rotated.rows && rotated.rows[successor].LiveIn(f, later.now)
    requires forall t :: t in rotated.rows && rotated.rows[t].family == Some(f) && rotated.rows[t].Unrevoked() ==>
               t == successor
    ensures ReplayedRightly(later, cfg, replaced, tip, token, family, user, successor, rotatedAt, f)
  {
    assert later.rows[successor].LiveIn(f, later.now);
    assert tip == Some(successor);
    if later.now - rotatedAt > cfg.grace {
      assert Decide(later, cfg, Some(replaced), tip).Reuse?;
      ReuseKillsOneFamily(later, cfg, replaced, tip, token, family);
    }
  }
}
