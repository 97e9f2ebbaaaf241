/** The two grains of the session protocol agree: a refresh whose statements run without interruption is the
    handler's one step. */
module RefreshSessionRefinement {
  import opened Wrappers
  import opened RefreshSessions
  import opened Statements = RefreshSessionStatements

  lemma AloneIsAtomic(w: World, cfg: Config, request: Request, cookie: Token, tip: Option<Token>, token: Token,
                      family: Family) returns (worlds: seq<World>, sts: seq<Statement>)
    requires request !in w.inFlight
    requires RefreshSessions.Enabled(w.state, Refresh(Some(cookie), tip, token, family))
    ensures Execution(worlds, cfg, sts) && worlds[0] == w
    ensures worlds[|sts|] == World(RefreshStep(w.state, cfg, Some(cookie), tip, token, family).0, w.inFlight)
  {
    hide Execution;
    worlds, sts := Read(w, cfg, request, cookie, tip, token, family);
    hide Decide;
    match Decide(w.state, cfg, Some(cookie), tip) {
      case Reuse(_) =>
        worlds, sts := Do(worlds, cfg, sts, UpdateFamily(request));
      case Rotate(from) =>
        worlds, sts := Do(worlds, cfg, sts, UpdateToken(request));
        worlds, sts := Do(worlds, cfg, sts, InsertRotated(request, token, family));
      case _ =>
    }
    assert worlds[|sts|].inFlight == w.inFlight;
  }

  /** The reads come to the handler's verdict, and what is left to write goes with it. */
  lemma Read(w: World, cfg: Config, request: Request, cookie: Token, tip: Option<Token>, token: Token, family: Family)
    returns (worlds: seq<World>, sts: seq<Statement>)
    requires request !in w.inFlight
    requires RefreshSessions.Enabled(w.state, Refresh(Some(cookie), tip, token, family))
    ensures Execution(worlds, cfg, sts) && |worlds| == |sts| + 1 && worlds[0] == w
    ensures match Decide(w.state, cfg, Some(cookie), tip)
            case Rotate(from) =>
              && cookie in w.state.rows
              && worlds[|sts|] ==
                 w.(inFlight := w.inFlight[request := RevokeThenInsert(w.state.rows[cookie], w.state.now, from)])
            case Reuse(f) =>
              && cookie in w.state.rows && f == w.state.rows[cookie].family
              && worlds[|sts|] ==
                 w.(inFlight := w.inFlight[request := PunishReuse(w.state.rows[cookie], w.state.now)])
            case _ => worlds[|sts|] == w
  {
    worlds, sts := Do([w], cfg, [], SelectSession(request, cookie));
    hide Execution;
    if ConsultsTip(w.state, Some(cookie)) {
      worlds, sts := Do(worlds, cfg, sts, SelectTip(request, tip));
    }
    assert worlds[|sts|].inFlight - {request} == w.inFlight;
  }
}
