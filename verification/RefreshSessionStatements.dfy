/** The same protocol with every SQL statement as its own step, because the handlers open no transaction:
    any number of refresh requests are in flight at once and their statements interleave freely. */
module RefreshSessionStatements {
  import opened Wrappers
  import opened RefreshSessions
  import opened RefreshSessionTheorems

  type Request = nat

  /** What a refresh request in flight does next, the session row it has read, and when: that moment is its
      `now` in the grace test and for the new expiry, while every statement reads the database's clock. */
  datatype Progress =
    | FindTip(row: Row, readAt: int)
    | RevokeThenInsert(row: Row, readAt: int, from: Token)
    | Insert(row: Row, readAt: int)
    | PunishReuse(row: Row, readAt: int)

  datatype World = World(state: State, inFlight: map<Request, Progress>)

  datatype Statement =
    | Tick(seconds: nat)
    | InsertUser(user: User)
    | UpdateUser(user: User, active: bool)
    | InsertSignIn(user: User, token: Token, family: Family)
    | SelectSession(request: Request, token: Token)
    | SelectTip(request: Request, tip: Option<Token>)
    | UpdateToken(request: Request)
    | UpdateFamily(request: Request)
    | InsertRotated(request: Request, token: Token, family: Family)
    | LogoutToken(token: Token)
    | RevokeAll(user: User)
    | DeleteUnrevoked(user: User)
    | DeleteExpired

  ghost predicate Enabled(w: World, st: Statement) {
    match st
    case InsertSignIn(user, token, family) =>
      user in w.state.users && token !in w.state.issued && family !in w.state.families
    case SelectSession(request, _) => request !in w.inFlight
    case SelectTip(request, tip) =>
      && request in w.inFlight && w.inFlight[request].FindTip?
      && IsTip(w.state.rows, w.inFlight[request].row.family, w.state.now, tip)
    case UpdateToken(request) => request in w.inFlight && w.inFlight[request].RevokeThenInsert?
    case UpdateFamily(request) => request in w.inFlight && w.inFlight[request].PunishReuse?
    case InsertRotated(request, token, family) =>
      && request in w.inFlight && w.inFlight[request].Insert?
      && token !in w.state.issued && family !in w.state.families
    case _ => true
  }

  function Next(w: World, cfg: Config, st: Statement): World
    requires Enabled(w, st)
  {
    var s := w.state;
    match st
    case Tick(seconds) => w.(state := s.(now := s.now + seconds))
    case InsertUser(user) => if user in s.users then w else w.(state := s.(users := s.users[user := true]))
    case UpdateUser(user, active) => if user in s.users then w.(state := s.(users := s.users[user := active])) else w
    case InsertSignIn(user, token, family) => w.(state := Issue(s, cfg, user, token, family))
    case SelectSession(request, token) =>
      if token !in s.rows || !Active(s.users, s.rows[token].user) || !s.rows[token].Unexpired(s.now) then w
      else if s.rows[token].Unrevoked() then
        w.(inFlight := w.inFlight[request := RevokeThenInsert(s.rows[token], s.now, token)])
      else
        w.(inFlight := w.inFlight[request := FindTip(s.rows[token], s.now)])
    case SelectTip(request, tip) =>
      var row, readAt := w.inFlight[request].row, w.inFlight[request].readAt;
      if tip.None? || row.revokedAt.None? then w.(inFlight := w.inFlight - {request})
      else if readAt - row.revokedAt.value <= cfg.grace then
        w.(inFlight := w.inFlight[request := RevokeThenInsert(row, readAt, tip.value)])
      else
        w.(inFlight := w.inFlight[request := PunishReuse(row, readAt)])
    case UpdateToken(request) =>
      var p := w.inFlight[request];
      World(s.(rows := RevokeToken(s.rows, p.from, s.now)), w.inFlight[request := Insert(p.row, p.readAt)])
    case UpdateFamily(request) =>
      World(s.(rows := RevokeFamily(s.rows, w.inFlight[request].row.family, s.now)), w.inFlight - {request})
    case InsertRotated(request, token, family) =>
      var row, readAt := w.inFlight[request].row, w.inFlight[request].readAt;
      var target := if row.family.Some? then row.family.value else family;
      World(IssueUntil(s, readAt + cfg.ttl, row.user, token, target), w.inFlight - {request})
    case LogoutToken(token) => w.(state := s.(rows := RevokeToken(s.rows, token, s.now)))
    case RevokeAll(user) => w.(state := s.(rows := RevokeUser(s.rows, user, s.now)))
    case DeleteUnrevoked(user) => w.(state := s.(rows := s.rows - UnrevokedOf(s.rows, user)))
    case DeleteExpired => w.(state := s.(rows := PurgeExpired(s.rows, s.now)))
  }

  /** Consecutive worlds of a run are one enabled statement apart. */
  ghost predicate Execution(worlds: seq<World>, cfg: Config, sts: seq<Statement>) {
    && |worlds| == |sts| + 1
    && forall i :: 0 <= i < |sts| ==> Enabled(worlds[i], sts[i]) && worlds[i + 1] == Next(worlds[i], cfg, sts[i])
  }

  ghost predicate Start(w: World) { Initial(w.state) && w.inFlight == map[] }

  /** Some assignment of a single user to each family fits every row and every row a request has read. */
  ghost predicate Owned(w: World, owner: map<Family, User>) {
    && owner.Keys == w.state.families
    && (forall t :: t in w.state.rows ==> t in w.state.issued && Fits(w.state.rows[t], owner))
    && (forall r :: r in w.inFlight ==> Fits(w.inFlight[r].row, owner))
  }

  predicate Fits(row: Row, owner: map<Family, User>) {
    row.family.Some? ==> row.family.value in owner && owner[row.family.value] == row.user
  }

  lemma NextKeepsOwned(w: World, cfg: Config, st: Statement, owner: map<Family, User>)
    returns (owner': map<Family, User>)
    requires Owned(w, owner) && Enabled(w, st)
    ensures Owned(Next(w, cfg, st), owner')
  {
    owner' := owner;
    match st {
      case InsertSignIn(user, token, family) =>
        owner' := owner[family := user];
      case InsertRotated(request, token, family) =>
        var row := w.inFlight[request].row;
        if row.family.None? {
          owner' := owner[family := row.user];
        }
      case _ =>
    }
  }

  lemma NextKeepsSpent(w: World, cfg: Config, st: Statement, t: Token)
    requires Enabled(w, st) && Spent(w.state, t)
    ensures Spent(Next(w, cfg, st).state, t)
  {
  }

  /** However the statements interleave, all sessions of a family belong to one user. */
  lemma {:induction false} OneUserPerFamily(worlds: seq<World>, cfg: Config, sts: seq<Statement>)
    returns (owner: map<Family, User>)
    requires Execution(worlds, cfg, sts) && Start(worlds[0])
    ensures Owned(worlds[|sts|], owner)
    ensures forall t, u :: SameFamily(worlds[|sts|].state.rows, t, u)
              ==> worlds[|sts|].state.rows[t].user == worlds[|sts|].state.rows[u].user
    decreases |sts|
  {
    if sts == [] {
      owner := map[];
    } else {
      var n := |sts| - 1;
      var before := OneUserPerFamily(worlds[..n + 1], cfg, sts[..n]);
      owner := NextKeepsOwned(worlds[n], cfg, sts[n], before);
    }
  }

  /** However the statements interleave, a token once revoked or deleted never comes back unrevoked. */
  lemma {:induction false} RevocationIsPermanent(worlds: seq<World>, cfg: Config, sts: seq<Statement>, i: nat, t: Token)
    requires Execution(worlds, cfg, sts) && Start(worlds[0]) && i <= |sts|
    requires Spent(worlds[i].state, t)
    ensures Spent(worlds[|sts|].state, t)
    decreases |sts|
  {
    if i == |sts| {
    } else {
      var n := |sts| - 1;
      RevocationIsPermanent(worlds[..n + 1], cfg, sts[..n], i, t);
      NextKeepsSpent(worlds[n], cfg, sts[n], t);
    }
  }

  // ----- Two requests with one token -----

  lemma Extend(worlds: seq<World>, cfg: Config, sts: seq<Statement>, st: Statement)
    requires Execution(worlds, cfg, sts) && Enabled(worlds[|sts|], st)
    ensures Execution(worlds + [Next(worlds[|sts|], cfg, st)], cfg, sts + [st])
  {
  }

  /** Two requests have read the row of one live token. */
  function TwoReaders(cfg: Config, user: User): World {
    var row := Row(user, Some(7), 0, cfg.ttl, None);
    World(State(0, map[user := true], map[10 := row], map[10 := Some(7)], {7}),
          map[1 := RevokeThenInsert(row, 0, 10), 2 := RevokeThenInsert(row, 0, 10)])
  }

  lemma TwoRead(cfg: Config, user: User) returns (worlds: seq<World>, sts: seq<Statement>)
    requires cfg.ttl > 0
    ensures Execution(worlds, cfg, sts) && Start(worlds[0]) && worlds[|sts|] == TwoReaders(cfg, user)
  {
    var w0 := World(State(0, map[user := true], map[], map[], {}), map[]);
    var w1 := Next(w0, cfg, InsertSignIn(user, 10, 7));
    var w2 := Next(w1, cfg, SelectSession(1, 10));
    var w3 := Next(w2, cfg, SelectSession(2, 10));
    worlds, sts := [w0, w1, w2, w3], [InsertSignIn(user, 10, 7), SelectSession(1, 10), SelectSession(2, 10)];
  }

  /** That a family has at most one live session is not true at this grain: two requests that present the
      same live token, each running its SELECT, UPDATE and INSERT in order, leave the family with two. */
  lemma TwoLiveSessions(cfg: Config, user: User) returns (worlds: seq<World>, sts: seq<Statement>)
    requires cfg.ttl > 0
    ensures Execution(worlds, cfg, sts) && Start(worlds[0])
    ensures var s := worlds[|sts|].state;
            exists t, u :: t != u && SameFamily(s.rows, t, u) && s.rows[t].Live(s.now) && s.rows[u].Live(s.now)
  {
    worlds, sts := TwoRead(cfg, user);
    hide Execution, Start;
    worlds, sts := Do(worlds, cfg, sts, UpdateToken(1));
    worlds, sts := Do(worlds, cfg, sts, InsertRotated(1, 11, 8));
    worlds, sts := Do(worlds, cfg, sts, UpdateToken(2));
    worlds, sts := Do(worlds, cfg, sts, InsertRotated(2, 12, 9));
    assert SameFamily(worlds[|sts|].state.rows, 11, 12);
  }

  lemma Do(worlds: seq<World>, cfg: Config, sts: seq<Statement>, st: Statement)
    returns (worlds': seq<World>, sts': seq<Statement>)
    requires Execution(worlds, cfg, sts) && Enabled(worlds[|sts|], st)
    ensures |worlds'| == |sts'| + 1 && Execution(worlds', cfg, sts') && worlds'[0] == worlds[0]
    ensures sts' == sts + [st] && worlds'[|sts|] == worlds[|sts|] && worlds'[|sts'|] == Next(worlds[|sts|], cfg, st)
  {
    Extend(worlds, cfg, sts, st);
    worlds', sts' := worlds + [Next(worlds[|sts|], cfg, st)], sts + [st];
  }
}
