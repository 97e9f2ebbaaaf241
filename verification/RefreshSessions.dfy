/** The refresh-session table and the authentication protocol over it.

    Rows are keyed by token: the source stores the SHA-256 of a random token under a UNIQUE constraint,
    so token and hash are one opaque value here. A rotation family is the chain of tokens that one
    sign-in starts. Each HTTP handler is one step. */
module RefreshSessions {
  import opened Wrappers

  type Token = nat
  type Family = nat
  type User = nat

  /** One row of auth_refresh_session. Rows older than the family column may have no family. */
  datatype Row = Row(user: User, family: Option<Family>, createdAt: int, expiresAt: int, revokedAt: Option<int>) {
    predicate Unrevoked() { revokedAt.None? }

    predicate Unexpired(now: int) { expiresAt > now }

    predicate Live(now: int) { Unrevoked() && Unexpired(now) }

    predicate LiveIn(f: Family, now: int) { family == Some(f) && Live(now) }
  }

  type Rows = map<Token, Row>

  /** Reuse grace and token lifetime, both read from the environment, in seconds. */
  datatype Config = Config(grace: int, ttl: int)

  /** `users` maps a user to its is_active flag. `issued` and `families` remember every token and family
      ever created, with the family each token was created in, so that "fresh" has a meaning. */
  datatype State = State(
    now: int,
    users: map<User, bool>,
    rows: Rows,
    issued: map<Token, Option<Family>>,
    families: set<Family>)

  const INVALID := "Invalid or expired refresh token"
  const MISSING := "Missing refresh token"

  datatype Answer =
    | Silent
    | Denied(status: int, detail: string)
    | SignedIn(user: User, token: Token)
    | Rotated(user: User, token: Token, replaced: Token)
    | LoggedOut
    | SessionsRevoked(count: nat)
    | PasswordChanged

  /** A protocol step, with the random values it draws. `tip` is what the query for the family's live
      session returned; `family` in Refresh is drawn only when the presented row has no family. */
  datatype Event =
    | Tick(seconds: nat)
    | AddUser(user: User)
    | SetActive(user: User, active: bool)
    | Setup(user: User, newOk: bool, token: Token, family: Family)
    | Login(user: User, passwordOk: bool, token: Token, family: Family)
    | Refresh(cookie: Option<Token>, tip: Option<Token>, token: Token, family: Family)
    | Logout(cookie: Option<Token>)
    | LogoutAll(user: User)
    | ChangePassword(user: User, newOk: bool, currentOk: bool)
    | Purge

  // ----- The SQL statements -----

  function RevokeFamily(rows: Rows, family: Option<Family>, now: int): Rows {
    map t | t in rows ::
      if family.Some? && rows[t].family == family && rows[t].Unrevoked() then rows[t].(revokedAt := Some(now))
      else rows[t]
  }

  /** The update has no "revoked_at IS NULL" guard: it stamps an already revoked row again. */
  function RevokeToken(rows: Rows, token: Token, now: int): Rows {
    if token in rows then rows[token := rows[token].(revokedAt := Some(now))] else rows
  }

  function RevokeUser(rows: Rows, user: User, now: int): Rows {
    map t | t in rows ::
      if rows[t].user == user && rows[t].Unrevoked() then rows[t].(revokedAt := Some(now)) else rows[t]
  }

  function UnrevokedOf(rows: Rows, user: User): set<Token> {
    set t | t in rows && rows[t].user == user && rows[t].Unrevoked()
  }

  function PurgeExpired(rows: Rows, now: int): Rows {
    map t | t in rows && !(rows[t].expiresAt < now) :: rows[t]
  }

  function FreshRow(user: User, family: Family, now: int, expiresAt: int): Row {
    Row(user, Some(family), now, expiresAt, None)
  }

  /** What the query for a family's live session may return: a live row with the latest creation time,
      or nothing when there is none. Which of several equally late rows comes first is left open. */
  ghost predicate IsTip(rows: Rows, family: Option<Family>, now: int, tip: Option<Token>) {
    match tip
    case None => family.None? || forall t :: t in rows ==> !rows[t].LiveIn(family.value, now)
    case Some(t) =>
      && family.Some?
      && t in rows && rows[t].LiveIn(family.value, now)
      && forall u :: u in rows && rows[u].LiveIn(family.value, now) ==> rows[u].createdAt <= rows[t].createdAt
  }

  // ----- Deciding a refresh -----

  datatype Verdict = NoCookie | Reject | Reuse(family: Option<Family>) | Rotate(from: Token)

  /** What a refresh request comes to, before anything is written. */
  function Decide(s: State, cfg: Config, cookie: Option<Token>, tip: Option<Token>): Verdict {
    if cookie.None? then NoCookie
    else if cookie.value !in s.rows then Reject
    else
      var row := s.rows[cookie.value];
      if !Active(s.users, row.user) || !row.Unexpired(s.now) then Reject
      else if row.Unrevoked() then Rotate(cookie.value)
      else if tip.None? then Reject
      else if s.now - row.revokedAt.value <= cfg.grace then Rotate(tip.value)
      else Reuse(row.family)
  }

  predicate Active(users: map<User, bool>, user: User) { user in users && users[user] }

  /** A refresh request as a change of state and an answer. */
  function RefreshStep(s: State, cfg: Config, cookie: Option<Token>, tip: Option<Token>, token: Token, family: Family)
    : (State, Answer)
  {
    match Decide(s, cfg, cookie, tip)
    case NoCookie => (s, Denied(401, MISSING))
    case Reject => (s, Denied(401, INVALID))
    case Reuse(f) => (s.(rows := RevokeFamily(s.rows, f, s.now)), Denied(401, INVALID))
    case Rotate(from) =>
      var row := s.rows[cookie.value];
      var target := if row.family.Some? then row.family.value else family;
      (Issue(s.(rows := RevokeToken(s.rows, from, s.now)), cfg, row.user, token, target),
       Rotated(row.user, token, from))
  }

  /** A new session row; its family is recorded whether it is new or not. */
  function Issue(s: State, cfg: Config, user: User, token: Token, family: Family): State {
    IssueUntil(s, s.now + cfg.ttl, user, token, family)
  }

  function IssueUntil(s: State, expiresAt: int, user: User, token: Token, family: Family): State {
    s.(rows := s.rows[token := FreshRow(user, family, s.now, expiresAt)],
       issued := s.issued[token := Some(family)],
       families := s.families + {family})
  }

  function Step(s: State, cfg: Config, ev: Event): (State, Answer) {
    match ev
    case Tick(seconds) => (s.(now := s.now + seconds), Silent)
    case AddUser(user) => (if user in s.users then s else s.(users := s.users[user := true]), Silent)
    case SetActive(user, active) =>
      (if user in s.users then s.(users := s.users[user := active]) else s, Silent)
    case Setup(user, newOk, token, family) =>
      if !newOk then (s, Denied(400, "Password must be at least 8 characters long."))
      else if s.users != map[] then
        (s, Denied(409, "Setup has already been completed. A user already exists."))
      else
        (Issue(s.(users := map[user := true]), cfg, user, token, family), SignedIn(user, token))
    case Login(user, passwordOk, token, family) =>
      if user !in s.users || !passwordOk then (s, Denied(401, "Invalid credentials."))
      else if !s.users[user] then (s, Denied(403, "Account is disabled."))
      else (Issue(s, cfg, user, token, family), SignedIn(user, token))
    case Refresh(cookie, tip, token, family) => RefreshStep(s, cfg, cookie, tip, token, family)
    case Logout(cookie) =>
      (if cookie.Some? then s.(rows := RevokeToken(s.rows, cookie.value, s.now)) else s, LoggedOut)
    case LogoutAll(user) =>
      if !Active(s.users, user) then (s, Denied(401, "Not authenticated"))
      else (s.(rows := RevokeUser(s.rows, user, s.now)), SessionsRevoked(|UnrevokedOf(s.rows, user)|))
    case ChangePassword(user, newOk, currentOk) =>
      if !Active(s.users, user) then (s, Denied(401, "Not authenticated"))
      else if !newOk then (s, Denied(400, "Password must be at least 8 characters long."))
      else if !currentOk then (s, Denied(400, "Current password is incorrect."))
      else (s.(rows := s.rows - UnrevokedOf(s.rows, user)), PasswordChanged)
    case Purge => (s.(rows := PurgeExpired(s.rows, s.now)), Silent)
  }

  /** Random tokens and families are new, and a tip is one the query may return. */
  ghost predicate Enabled(s: State, ev: Event) {
    match ev
    case Setup(_, _, token, family) => token !in s.issued && family !in s.families
    case Login(_, _, token, family) => token !in s.issued && family !in s.families
    case Refresh(cookie, tip, token, family) =>
      && token !in s.issued && family !in s.families
      && (ConsultsTip(s, cookie) ==> IsTip(s.rows, s.rows[cookie.value].family, s.now, tip))
    case _ => true
  }

  /** The live session is looked up only for a presented token that is revoked but otherwise good. */
  predicate ConsultsTip(s: State, cookie: Option<Token>) {
    && cookie.Some? && cookie.value in s.rows
    && var row := s.rows[cookie.value];
       Active(s.users, row.user) && row.Unexpired(s.now) && !row.Unrevoked()
  }

  // ----- Runs -----

  /** The state after each event in turn. */
  function Run(s: State, cfg: Config, evs: seq<Event>): State
    decreases |evs|
  {
    if evs == [] then s else Run(Step(s, cfg, evs[0]).0, cfg, evs[1..])
  }

  ghost predicate EnabledRun(s: State, cfg: Config, evs: seq<Event>)
    decreases |evs|
  {
    evs == [] || (Enabled(s, evs[0]) && EnabledRun(Step(s, cfg, evs[0]).0, cfg, evs[1..]))
  }

  /** A table on its first day: nothing issued, no sessions. */
  predicate Initial(s: State) { s.rows == map[] && s.issued == map[] && s.families == {} }

  /** What every reachable state satisfies: rows were issued in the family they carry, a family is one
      user's, and a family has at most one unrevoked session. */
  ghost predicate Inv(s: State) {
    && (forall t :: t in s.rows ==> t in s.issued && s.issued[t] == s.rows[t].family && s.rows[t].user in s.users)
    && (forall t :: t in s.issued && s.issued[t].Some? ==> s.issued[t].value in s.families)
    && (forall t, u :: SameFamily(s.rows, t, u) ==> s.rows[t].user == s.rows[u].user)
    && (forall t, u :: SameFamily(s.rows, t, u) && s.rows[t].Unrevoked() && s.rows[u].Unrevoked() ==> t == u)
  }

  predicate SameFamily(rows: Rows, t: Token, u: Token) {
    t in rows && u in rows && rows[t].family.Some? && rows[t].family == rows[u].family
  }
}
