/** The web client's single-flight refresh, and its composition with the session machine: one
    tab that owns a session, whose responses are not lost. */
module SingleFlight {
  import opened Optional
  import opened Auth
  import opened AuthInvariant
  import opened AuthRuns

  /** The refresh cookie, and the request behind refreshPromise. */
  datatype Client = Client(cookie: TokenId, flight: Option<HandlerId>)

  /** Calling refreshSession: join the request in flight, or start one. */
  function Call(c: Client, h: HandlerId): Client {
    if c.flight.None? then c.(flight := Some(h)) else c
  }

  /** The promise settles: a new cookie came with an issued session. */
  function Settle(c: Client, outcome: Outcome): Client {
    Client(if outcome.Issued? then outcome.id else c.cookie, None)
  }

  class ApiClient {
    var cookie: TokenId
    var refreshPromise: Option<HandlerId>

    constructor (cookie: TokenId)
      ensures View() == Client(cookie, None)
    {
      this.cookie, refreshPromise := cookie, None;
    }

    function View(): Client
      reads this
    {
      Client(cookie, refreshPromise)
    }

    /** `request` is the one that doRefreshSession would send. */
    method RefreshSession(request: HandlerId) returns (promise: HandlerId)
      modifies this
      ensures View() == Call(old(View()), request)
      ensures refreshPromise == Some(promise) && cookie == old(cookie)
      ensures old(refreshPromise).Some? ==> refreshPromise == old(refreshPromise)
    {
      if refreshPromise.None? {
        refreshPromise := Some(request);
      }
      promise := refreshPromise.value;
    }

    method OnSettled(outcome: Outcome)
      modifies this
      ensures View() == Settle(old(View()), outcome)
      ensures refreshPromise == None && cookie == if outcome.Issued? then outcome.id else old(cookie)
    {
      if outcome.Issued? {
        cookie := outcome.id;
      }
      refreshPromise := None;
    }
  }

  // ---------- Composition ----------

  datatype World = World(s: State, c: Client)

  datatype Move =
    | Refresh(h: HandlerId)
    | Receive
    | Server(step: Step)

  /** Everybody else may do anything but present this session's refresh tokens for rotation, and
      the tab's request is not cut off. Logging the session out stays allowed. */
  predicate Allowed(w: World, sid: SessionId, step: Step) {
    && Auth.Enabled(w.s, step)
    && (step.StartRefresh? ==> step.tok in w.s.db.tokens && w.s.db.tokens[step.tok].sessionId != sid)
    && (step.Abort? ==> w.c.flight != Some(step.h))
  }

  predicate Enabled(w: World, sid: SessionId, m: Move) {
    match m
    case Refresh(h) => h !in w.s.handlers
    case Receive => w.c.flight.Some? && w.c.flight.value in w.s.handlers && w.s.handlers[w.c.flight.value].Finished?
    case Server(step) => Allowed(w, sid, step)
  }

  function Next(w: World, sid: SessionId, m: Move): World
    requires Enabled(w, sid, m)
  {
    match m
    case Refresh(h) =>
      World(if w.c.flight.None? then Auth.Next(w.s, StartRefresh(h, w.c.cookie)) else w.s, Call(w.c, h))
    case Receive => w.(c := Settle(w.c, w.s.handlers[w.c.flight.value].outcome))
    case Server(step) => w.(s := Auth.Next(w.s, step))
  }

  ghost predicate Run(w: World, sid: SessionId, moves: seq<Move>, v: World)
    decreases |moves|
  {
    if moves == [] then w == v
    else Enabled(w, sid, moves[0]) && Run(Next(w, sid, moves[0]), sid, moves[1..], v)
  }

  // ---------- Invariant ----------

  /** A handler that does not rotate a token of the session, nor punish its reuse. */
  predicate Foreign(db: Db, hd: Handler, sid: SessionId) {
    match hd
    case FindToken(tok) => tok in db.tokens && db.tokens[tok].sessionId != sid
    case FindSession(_, stored) => stored.sessionId != sid
    case FindSuccessor(_, stored, _, _) => stored.sessionId != sid
    case FindUser(_, stored, _) => stored.sessionId != sid
    case CreateToken(_, stored, _, _) => stored.sessionId != sid
    case EndTokens(_, ended, why) => ended != sid || why == Logout
    case EndSession(_, ended, why) => ended != sid || why == Logout
    case MarkOld(_, ended) => ended != sid
    case _ => true
  }

  /** The newest token of the session. */
  predicate Newest(db: Db, id: TokenId, sid: SessionId) {
    id in db.tokens && db.tokens[id].sessionId == sid && !HasSuccessor(db.tokens, id)
  }

  /** Why a refresh of the newest token may be refused. */
  ghost predicate RefusedForCause(s: State, tok: TokenId, reason: Reason) {
    && tok in s.db.tokens
    && (reason == Inactive || SessionOver(s, tok) || s.db.tokens[tok].revoked || s.db.tokens[tok].expiresAt <= s.now)
  }

  ghost predicate FlightOk(s: State, hd: Handler, cookie: TokenId, sid: SessionId) {
    match hd
    case FindToken(tok) => tok == cookie && Newest(s.db, cookie, sid)
    case FindSession(tok, _) => tok == cookie && Newest(s.db, cookie, sid)
    case FindSuccessor(tok, _, _, readAt) => tok == cookie && Newest(s.db, cookie, sid) && readAt <= s.now
    case FindUser(tok, _, _) => tok == cookie && Newest(s.db, cookie, sid)
    case CreateToken(tok, _, _, _) => tok == cookie && Newest(s.db, cookie, sid)
    case RevokeOld(tok, issued) => tok == cookie && Newest(s.db, issued, sid)
    case EndTokens(tok, _, why) =>
      tok == cookie && Newest(s.db, cookie, sid) && why == Expired && SessionOver(s, cookie)
    case EndSession(tok, _, why) =>
      tok == cookie && Newest(s.db, cookie, sid) && why == Expired && SessionOver(s, cookie)
    case Finished(outcome) =>
      if outcome.Issued? then Newest(s.db, outcome.id, sid) && HasSuccessor(s.db.tokens, cookie)
      else outcome.Rejected? && Newest(s.db, cookie, sid) && RefusedForCause(s, cookie, outcome.reason)
    case _ => false
  }

  ghost predicate TabInv(w: World, sid: SessionId) {
    && Inv(w.s) && sid in w.s.db.sessions
    && (forall g | g in w.s.handlers && w.c.flight != Some(g) :: Foreign(w.s.db, w.s.handlers[g], sid))
    && (match w.c.flight
        case None => Newest(w.s.db, w.c.cookie, sid)
        case Some(h) => h in w.s.handlers && FlightOk(w.s, w.s.handlers[h], w.c.cookie, sid))
  }

  /** A tab that has just logged in: nobody has presented its token yet. */
  ghost predicate LoggedInTab(w: World, sid: SessionId) {
    && Reachable(w.s) && sid in w.s.db.sessions && w.c.flight.None? && Newest(w.s.db, w.c.cookie, sid)
    && forall g | g in w.s.handlers :: Foreign(w.s.db, w.s.handlers[g], sid)
  }

  /** Any login opens such a tab, as long as no request carries a token that does not exist yet. */
  lemma LoginOpensTab(s: State, step: Step)
    requires Reachable(s) && step.Advance? && Auth.Enabled(s, step) && s.handlers[step.h].CreateFirstToken?
    requires forall g | g in s.handlers && s.handlers[g].FindToken? :: s.handlers[g].tok in s.db.tokens
    ensures LoggedInTab(World(Auth.Next(s, step), Client(step.newId, None)), s.handlers[step.h].sid)
  {
    ReachableInv(s);
    var hd, t := s.handlers[step.h], Auth.Next(s, step);
    assert HandlerOk(s.db, hd);
    forall g | g in t.handlers ensures Foreign(t.db, t.handlers[g], hd.sid) {
      assert HandlerOk(s.db, s.handlers[g]);
    }
    assert Newest(t.db, step.newId, hd.sid) by {
      forall x | x in s.db.tokens ensures s.db.tokens[x].rotatedFrom != Some(step.newId) {
        assert s.db.tokens[x].sessionId in s.db.sessions;
        if s.db.tokens[x].rotatedFrom.Some? { RotatedWithin(s.db, x); }
      }
    }
    var steps :| Auth.Run(Init, steps, s);
    RunSnoc(Init, steps, s, step);
  }

  /** Other handlers neither become dangerous nor rotate the session's newest token. */
  lemma ForeignExec(s: State, step: Step, sid: SessionId)
    requires Inv(s) && Auth.Enabled(s, step) && step.Advance? && Foreign(s.db, s.handlers[step.h], sid)
    requires sid in s.db.sessions
    ensures Foreign(Auth.Next(s, step).db, Auth.Next(s, step).handlers[step.h], sid)
  {
    assert HandlerOk(s.db, s.handlers[step.h]);
  }

  lemma ForeignKeepsNewest(s: State, step: Step, sid: SessionId, id: TokenId)
    requires Inv(s) && Auth.Enabled(s, step) && Newest(s.db, id, sid)
    requires step.Advance? ==> Foreign(s.db, s.handlers[step.h], sid)
    ensures Newest(Auth.Next(s, step).db, id, sid)
  {
    var t := Auth.Next(s, step);
    StepEvolves(s, step);
    if step.Advance? {
      assert HandlerOk(s.db, s.handlers[step.h]);
      forall x | x in t.db.tokens ensures t.db.tokens[x].rotatedFrom != Some(id) {
        if x in s.db.tokens { assert s.db.tokens[x].rotatedFrom != Some(id); }
      }
    } else {
      OtherStepsFlags(s, step);
      forall x | x in t.db.tokens ensures t.db.tokens[x].rotatedFrom != Some(id) {
        assert x in s.db.tokens && s.db.tokens[x].rotatedFrom != Some(id);
      }
    }
  }

  lemma ForeignStays(a: Db, b: Db, hd: Handler, sid: SessionId)
    requires Foreign(a, hd, sid) && TokensEvolve(a.tokens, b.tokens)
    ensures Foreign(b, hd, sid)
  {}

  /** The tab's own request, one statement on. */
  lemma FlightFinds(s: State, step: Step, cookie: TokenId, sid: SessionId)
    requires Inv(s) && Auth.Enabled(s, step) && step.Advance? && FlightOk(s, s.handlers[step.h], cookie, sid)
    requires s.handlers[step.h].FindToken? || s.handlers[step.h].FindSession?
    ensures FlightOk(Auth.Next(s, step), Auth.Next(s, step).handlers[step.h], cookie, sid)
  {
    assert HandlerOk(s.db, s.handlers[step.h]);
    assert s.db.tokens[cookie].sessionId in s.db.sessions;
  }

  lemma FlightChecks(s: State, step: Step, cookie: TokenId, sid: SessionId)
    requires Inv(s) && Auth.Enabled(s, step) && step.Advance? && FlightOk(s, s.handlers[step.h], cookie, sid)
    requires s.handlers[step.h].FindSuccessor? || s.handlers[step.h].FindUser?
    ensures FlightOk(Auth.Next(s, step), Auth.Next(s, step).handlers[step.h], cookie, sid)
  {
    assert HandlerOk(s.db, s.handlers[step.h]);
    assert s.db.tokens[cookie].sessionId in s.db.sessions;
  }

  lemma FlightCreates(s: State, step: Step, cookie: TokenId, sid: SessionId)
    requires Inv(s) && Auth.Enabled(s, step) && step.Advance? && FlightOk(s, s.handlers[step.h], cookie, sid)
    requires s.handlers[step.h].CreateToken?
    ensures FlightOk(Auth.Next(s, step), Auth.Next(s, step).handlers[step.h], cookie, sid)
  {
    assert HandlerOk(s.db, s.handlers[step.h]);
    var t := Auth.Next(s, step);
    forall x | x in t.db.tokens ensures t.db.tokens[x].rotatedFrom != Some(step.newId) {
      if x in s.db.tokens && s.db.tokens[x].rotatedFrom.Some? {
        assert s.db.tokens[x].sessionId in s.db.sessions;
        RotatedWithin(s.db, x);
      }
    }
  }

  lemma FlightWrites(s: State, step: Step, cookie: TokenId, sid: SessionId)
    requires Inv(s) && Auth.Enabled(s, step) && step.Advance? && FlightOk(s, s.handlers[step.h], cookie, sid)
    requires var hd := s.handlers[step.h]; hd.RevokeOld? || hd.EndTokens? || hd.EndSession?
    ensures FlightOk(Auth.Next(s, step), Auth.Next(s, step).handlers[step.h], cookie, sid)
  {
    assert HandlerOk(s.db, s.handlers[step.h]);
    var t := Auth.Next(s, step);
    StepEvolves(s, step);
    assert t.db.tokens.Keys == s.db.tokens.Keys;
    forall x | x in t.db.tokens ensures t.db.tokens[x].rotatedFrom == s.db.tokens[x].rotatedFrom {}
    if SessionOver(s, cookie) { SessionStaysOver(s, t, cookie); }
    if s.handlers[step.h].RevokeOld? {
      assert HasSuccessor(s.db.tokens, cookie);
      SuccessorsStay(s.db.tokens, t.db.tokens, cookie);
    }
  }

  /** The tab's request while others move. */
  lemma FlightWaits(s: State, step: Step, h: HandlerId, cookie: TokenId, sid: SessionId)
    requires Inv(s) && Auth.Enabled(s, step) && h in s.handlers && FlightOk(s, s.handlers[h], cookie, sid)
    requires step.Advance? ==> step.h != h && Foreign(s.db, s.handlers[step.h], sid)
    requires step.Abort? ==> step.h != h
    ensures h in Auth.Next(s, step).handlers
            && FlightOk(Auth.Next(s, step), Auth.Next(s, step).handlers[h], cookie, sid)
  {
    var t := Auth.Next(s, step);
    StepEvolves(s, step);
    assert t.handlers[h] == s.handlers[h];
    if Newest(s.db, cookie, sid) { ForeignKeepsNewest(s, step, sid, cookie); }
    var hd := s.handlers[h];
    if hd.RevokeOld? { ForeignKeepsNewest(s, step, sid, hd.issued); }
    if hd.Finished? && hd.outcome.Issued? {
      ForeignKeepsNewest(s, step, sid, hd.outcome.id);
      SuccessorsStay(s.db.tokens, t.db.tokens, cookie);
    }
    if SessionOver(s, cookie) { SessionStaysOver(s, t, cookie); }
  }

  lemma OthersStayForeign(w: World, sid: SessionId, step: Step)
    requires TabInv(w, sid) && Allowed(w, sid, step)
    ensures forall g | g in Auth.Next(w.s, step).handlers && w.c.flight != Some(g) ::
              Foreign(Auth.Next(w.s, step).db, Auth.Next(w.s, step).handlers[g], sid)
  {
    var t := Auth.Next(w.s, step);
    StepEvolves(w.s, step);
    forall g | g in t.handlers && w.c.flight != Some(g) ensures Foreign(t.db, t.handlers[g], sid) {
      if step.Advance? {
        if g == step.h { ForeignExec(w.s, step, sid); } else { ForeignStays(w.s.db, t.db, w.s.handlers[g], sid); }
      } else {
        OtherStepsHandlers(w.s, step, g);
        if g in w.s.handlers && t.handlers[g] == w.s.handlers[g] { ForeignStays(w.s.db, t.db, w.s.handlers[g], sid); }
      }
    }
  }

  lemma ServerKeepsTabInv(w: World, sid: SessionId, step: Step)
    requires TabInv(w, sid) && Allowed(w, sid, step)
    ensures TabInv(w.(s := Auth.Next(w.s, step)), sid)
  {
    StepKeepsInv(w.s, step);
    StepEvolves(w.s, step);
    OthersStayForeign(w, sid, step);
    match w.c.flight
    case None => ForeignKeepsNewest(w.s, step, sid, w.c.cookie);
    case Some(h) =>
      if step.Advance? && step.h == h {
        var hd := w.s.handlers[h];
        if hd.FindToken? || hd.FindSession? {
          FlightFinds(w.s, step, w.c.cookie, sid);
        } else if hd.FindSuccessor? || hd.FindUser? {
          FlightChecks(w.s, step, w.c.cookie, sid);
        } else if hd.CreateToken? {
          FlightCreates(w.s, step, w.c.cookie, sid);
        } else {
          FlightWrites(w.s, step, w.c.cookie, sid);
        }
      } else {
        FlightWaits(w.s, step, h, w.c.cookie, sid);
      }
  }

  lemma MoveKeepsTabInv(w: World, sid: SessionId, m: Move)
    requires TabInv(w, sid) && Enabled(w, sid, m)
    ensures TabInv(Next(w, sid, m), sid)
  {
    match m
    case Refresh(h) => if w.c.flight.None? { StepKeepsInv(w.s, StartRefresh(h, w.c.cookie)); }
    case Receive =>
    case Server(step) => ServerKeepsTabInv(w, sid, step);
  }

  lemma {:induction false} RunKeepsTabInv(w: World, sid: SessionId, moves: seq<Move>, v: World)
    requires TabInv(w, sid) && Run(w, sid, moves, v)
    ensures TabInv(v, sid)
    decreases |moves|
  {
    if moves != [] {
      MoveKeepsTabInv(w, sid, moves[0]);
      RunKeepsTabInv(Next(w, sid, moves[0]), sid, moves[1..], v);
    }
  }

  // ---------- Results ----------

  /** A handler that took the reuse or the concurrent-refresh branch. */
  predicate Punishes(hd: Handler, sid: SessionId) {
    match hd
    case EndTokens(_, ended, why) => ended == sid && (why == Reuse || why == Conflict)
    case EndSession(_, ended, why) => ended == sid && (why == Reuse || why == Conflict)
    case MarkOld(_, ended) => ended == sid
    case _ => false
  }

  /** However requests, logins, logouts and the clock interleave, a single-flight tab never sends
      its session into the reuse or the concurrent-refresh branch. */
  lemma SingleFlightNeverPunished(w: World, sid: SessionId, moves: seq<Move>, v: World)
    requires LoggedInTab(w, sid) && Run(w, sid, moves, v)
    ensures forall h | h in v.s.handlers :: !Punishes(v.s.handlers[h], sid)
  {
    ReachableInv(w.s);
    RunKeepsTabInv(w, sid, moves, v);
    forall h | h in v.s.handlers ensures !Punishes(v.s.handlers[h], sid) {
      if v.c.flight != Some(h) { assert Foreign(v.s.db, v.s.handlers[h], sid); }
    }
  }

  lemma FlightRefusedForCause(s: State, hd: Handler, cookie: TokenId, sid: SessionId)
    requires Inv(s) && FlightOk(s, hd, cookie, sid) && hd.Finished?
    ensures hd.outcome.Issued? || (hd.outcome.Rejected? && RefusedForCause(s, cookie, hd.outcome.reason))
  {}

  /** A refresh the tab is refused was refused for a cause of its own: an inactive account, a
      session that is over, a token that expired or was logged out. */
  lemma RefusedOnlyForCause(w: World, sid: SessionId, moves: seq<Move>, v: World)
    requires LoggedInTab(w, sid) && Run(w, sid, moves, v)
    requires v.c.flight.Some? && v.c.flight.value in v.s.handlers && v.s.handlers[v.c.flight.value].Finished?
    ensures var outcome := v.s.handlers[v.c.flight.value].outcome;
            outcome.Issued? || (outcome.Rejected? && RefusedForCause(v.s, v.c.cookie, outcome.reason))
  {
    ReachableInv(w.s);
    RunKeepsTabInv(w, sid, moves, v);
    FlightRefusedForCause(v.s, v.s.handlers[v.c.flight.value], v.c.cookie, sid);
  }

  /** Between two refreshes the cookie is the newest token of the session. */
  lemma CookieIsNewest(w: World, sid: SessionId, moves: seq<Move>, v: World)
    requires LoggedInTab(w, sid) && Run(w, sid, moves, v) && v.c.flight.None?
    ensures v.c.cookie in v.s.db.tokens && !HasSuccessor(v.s.db.tokens, v.c.cookie)
    ensures v.s.db.tokens[v.c.cookie].sessionId == sid
  {
    ReachableInv(w.s);
    RunKeepsTabInv(w, sid, moves, v);
  }

  // ---------- Presentations ----------

  /** The move sends the token for rotation. */
  predicate Presents(w: World, m: Move, tok: TokenId) { m.Refresh? && w.c.flight.None? && w.c.cookie == tok }

  /** How often the tab does so in a run. */
  function Presentations(w: World, sid: SessionId, moves: seq<Move>, tok: TokenId): nat
    decreases |moves|
  {
    if moves == [] || !Enabled(w, sid, moves[0]) then 0
    else (if Presents(w, moves[0], tok) then 1 else 0) + Presentations(Next(w, sid, moves[0]), sid, moves[1..], tok)
  }

  /** The move tells the tab that its refresh with the token was refused. */
  predicate Refuses(w: World, m: Move, tok: TokenId) {
    && m.Receive? && w.c.cookie == tok && w.c.flight.Some? && w.c.flight.value in w.s.handlers
    && w.s.handlers[w.c.flight.value].Finished? && !w.s.handlers[w.c.flight.value].outcome.Issued?
  }

  function Refusals(w: World, sid: SessionId, moves: seq<Move>, tok: TokenId): nat
    decreases |moves|
  {
    if moves == [] || !Enabled(w, sid, moves[0]) then 0
    else (if Refuses(w, moves[0], tok) then 1 else 0) + Refusals(Next(w, sid, moves[0]), sid, moves[1..], tok)
  }

  /** A request with the token is under way. */
  predicate Flying(w: World, tok: TokenId) { w.c.flight.Some? && w.c.cookie == tok }

  predicate Rotated(w: World, tok: TokenId) { HasSuccessor(w.s.db.tokens, tok) }

  lemma RotatedStays(w: World, sid: SessionId, m: Move, tok: TokenId)
    requires Enabled(w, sid, m) && Rotated(w, tok)
    ensures Rotated(Next(w, sid, m), tok)
  {
    if m.Server? {
      StepEvolves(w.s, m.step);
      SuccessorsStay(w.s.db.tokens, Next(w, sid, m).s.db.tokens, tok);
    }
  }

  /** A presentation puts an unrotated token under way; from there only a refusal or a rotation leads on. */
  lemma MovePresents(w: World, sid: SessionId, m: Move, tok: TokenId)
    requires TabInv(w, sid) && Enabled(w, sid, m)
    ensures Presents(w, m, tok) ==> !Flying(w, tok) && !Rotated(w, tok) && Flying(Next(w, sid, m), tok)
    ensures Flying(w, tok) ==> Flying(Next(w, sid, m), tok) || Refuses(w, m, tok) || Rotated(Next(w, sid, m), tok)
  {}

  /** A request under way with the token uses up one presentation, a successor all of them. */
  lemma {:induction false} PresentationsBounded(w: World, sid: SessionId, moves: seq<Move>, v: World, tok: TokenId)
    requires TabInv(w, sid) && Run(w, sid, moves, v)
    ensures Presentations(w, sid, moves, tok) <= Refusals(w, sid, moves, tok) + if Flying(w, tok) then 0 else 1
    ensures Rotated(w, tok) ==> Presentations(w, sid, moves, tok) == 0
    decreases |moves|
  {
    if moves != [] {
      var m := moves[0];
      MoveKeepsTabInv(w, sid, m);
      PresentationsBounded(Next(w, sid, m), sid, moves[1..], v, tok);
      MovePresents(w, sid, m, tok);
      if Rotated(w, tok) { RotatedStays(w, sid, m, tok); }
    }
  }

  /** A single-flight tab presents a token at most once more than it is refused with it: in a run
      without a refused refresh, each token at most once. */
  lemma PresentedAtMostOnce(w: World, sid: SessionId, moves: seq<Move>, v: World, tok: TokenId)
    requires LoggedInTab(w, sid) && Run(w, sid, moves, v)
    ensures Presentations(w, sid, moves, tok) <= Refusals(w, sid, moves, tok) + 1
    ensures Refusals(w, sid, moves, tok) == 0 ==> Presentations(w, sid, moves, tok) <= 1
  {
    ReachableInv(w.s);
    PresentationsBounded(w, sid, moves, v, tok);
  }

  /** Refreshing never ends a live session: the tab's request revokes it only after it expired. */
  lemma RefreshingNeverRevokes(w: World, sid: SessionId, moves: seq<Move>, v: World, step: Step)
    requires LoggedInTab(w, sid) && Run(w, sid, moves, v)
    requires step.Advance? && v.c.flight == Some(step.h) && Allowed(v, sid, step)
    requires sid in v.s.db.sessions && v.s.now < v.s.db.sessions[sid].expiresAt
    ensures Auth.Next(v.s, step).db.sessions[sid].revoked == v.s.db.sessions[sid].revoked
  {
    ReachableInv(w.s);
    RunKeepsTabInv(w, sid, moves, v);
    assert HandlerOk(v.s.db, v.s.handlers[step.h]);
  }
}
