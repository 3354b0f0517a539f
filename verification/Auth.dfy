/** Sessions and rotating refresh tokens. Every database statement is a function on the tables,
    and a request handler is a program counter between two statements, so that any number of
    logins, refreshes and logouts interleave. Of revokedAt, reusedAt and usedAt only their
    being set is ever read, so they are booleans here. */
module Auth {
  import opened Optional

  type UserId = nat
  type SessionId = nat
  type TokenId = nat
  type ResetId = nat
  type HandlerId = nat
  type Time = int

  datatype Session = Session(userId: UserId, expiresAt: Time, revoked: bool)
  /** Hashes are unique, so a token's id stands for its secret. */
  datatype Token = Token(userId: UserId, sessionId: SessionId, expiresAt: Time,
                         rotatedFrom: Option<TokenId>, reused: bool, revoked: bool)
  datatype Reset = Reset(userId: UserId, expiresAt: Time, used: bool)

  type Sessions = map<SessionId, Session>
  type Tokens = map<TokenId, Token>

  datatype Db = Db(users: map<UserId, bool>, sessions: Sessions, tokens: Tokens, resets: map<ResetId, Reset>)

  // ---------- Statements ----------

  /** Also false for an unknown user: users maps a user to "active and not deleted". */
  predicate UserActive(db: Db, u: UserId) { u in db.users && db.users[u] }

  predicate IsSessionActive(db: Db, u: UserId, sid: SessionId, now: Time) {
    && sid in db.sessions && db.sessions[sid].userId == u
    && !db.sessions[sid].revoked && now < db.sessions[sid].expiresAt
    && UserActive(db, u)
  }

  predicate HasSuccessor(tokens: Tokens, tok: TokenId) {
    exists id | id in tokens :: tokens[id].rotatedFrom == Some(tok)
  }

  function RevokeToken(db: Db, tok: TokenId): Db
    requires tok in db.tokens
  {
    db.(tokens := db.tokens[tok := db.tokens[tok].(revoked := true)])
  }

  function RevokeTokensOf(db: Db, sid: SessionId): Db {
    db.(tokens := map id | id in db.tokens ::
      if db.tokens[id].sessionId == sid then db.tokens[id].(revoked := true) else db.tokens[id])
  }

  function RevokeSession(db: Db, sid: SessionId): Db
    requires sid in db.sessions
  {
    db.(sessions := db.sessions[sid := db.sessions[sid].(revoked := true)])
  }

  function RevokeAllSessions(db: Db, u: UserId): Db {
    db.(sessions := map sid | sid in db.sessions ::
      if db.sessions[sid].userId == u then db.sessions[sid].(revoked := true) else db.sessions[sid])
  }

  function MarkReused(db: Db, tok: TokenId): Db
    requires tok in db.tokens
  {
    db.(tokens := db.tokens[tok := db.tokens[tok].(reused := true)])
  }

  predicate ResetUsable(db: Db, id: ResetId, now: Time) {
    id in db.resets && !db.resets[id].used && now < db.resets[id].expiresAt
  }

  /** The claim and the revocations are one transaction. */
  function ConsumeReset(db: Db, id: ResetId): Db
    requires id in db.resets
  {
    RevokeAllSessions(db, db.resets[id].userId).(resets := db.resets[id := db.resets[id].(used := true)])
  }

  // ---------- Handlers ----------

  datatype Why = Expired | Reuse | Conflict | Logout
  datatype Outcome = Issued(id: TokenId) | Rejected(reason: Reason) | LoggedIn(id: TokenId) | LoggedOut | Aborted
  datatype Reason = Unknown | Refused | Inactive | TooLate

  /** The statement a handler runs next, with what it has read so far. */
  datatype Handler =
    | CreateSession(user: UserId, expiresAt: Time)
    | CreateFirstToken(user: UserId, sid: SessionId, expiresAt: Time)
    | FindToken(tok: TokenId)
    | FindSession(tok: TokenId, stored: Token)
    | FindSuccessor(tok: TokenId, stored: Token, session: Session, readAt: Time)
    | FindUser(tok: TokenId, stored: Token, session: Session)
    | CreateToken(tok: TokenId, stored: Token, session: Session, expiresAt: Time)
    | RevokeOld(tok: TokenId, issued: TokenId)
    | EndTokens(tok: TokenId, sid: SessionId, why: Why)
    | EndSession(tok: TokenId, sid: SessionId, why: Why)
    | MarkOld(tok: TokenId, sid: SessionId)
    | FindForLogout(tok: TokenId)
    | Finished(outcome: Outcome)

  datatype State = State(db: Db, now: Time, handlers: map<HandlerId, Handler>)

  /** Fresh ids and the requested expiry are the environment's choice. */
  datatype Step =
    | StartLogin(h: HandlerId, user: UserId, expiresAt: Time)
    | StartRefresh(h: HandlerId, tok: TokenId)
    | StartLogout(h: HandlerId, tok: TokenId)
    | Advance(h: HandlerId, newId: nat, requested: Time)
    | Abort(h: HandlerId)
    | Tick(now: Time)
    | SetUser(user: UserId, active: bool)
    | LogoutAll(user: UserId)
    | IssueReset(id: ResetId, user: UserId, expiresAt: Time)
    | ResetPassword(id: ResetId)

  const Init := State(Db(map[], map[], map[], map[]), 0, map[])

  predicate Enabled(s: State, step: Step) {
    match step
    case StartLogin(h, user, expiresAt) => h !in s.handlers && s.now < expiresAt
    case StartRefresh(h, _) => h !in s.handlers
    case StartLogout(h, _) => h !in s.handlers
    case Advance(h, newId, requested) =>
      h in s.handlers && !s.handlers[h].Finished?
      && newId !in s.db.tokens && newId !in s.db.sessions && s.now < requested
    case Abort(h) => h in s.handlers && !s.handlers[h].Finished?
    case Tick(now) => s.now <= now
    case SetUser(_, _) => true
    case LogoutAll(_) => true
    case IssueReset(id, _, _) => id !in s.db.resets
    case ResetPassword(id) => id in s.db.resets
  }

  function Earlier(a: Time, b: Time): Time { if a < b then a else b }

  /** The checks that follow the two reads of findRefreshTokenByHash. */
  function AfterFind(tok: TokenId, stored: Token, session: Session, now: Time): Handler {
    if session.expiresAt <= now then EndTokens(tok, stored.sessionId, Expired)
    else if stored.reused then Finished(Rejected(Refused))
    else FindSuccessor(tok, stored, session, now)
  }

  function AfterSuccessor(tok: TokenId, stored: Token, session: Session, readAt: Time, successor: bool): Handler {
    if stored.revoked || stored.expiresAt <= readAt || session.revoked then
      if successor then EndTokens(tok, stored.sessionId, Reuse) else Finished(Rejected(Refused))
    else FindUser(tok, stored, session)
  }

  /** A new token never outlives its session. */
  function AfterUser(tok: TokenId, stored: Token, session: Session, active: bool, now: Time, requested: Time): Handler {
    var expiresAt := Earlier(session.expiresAt, requested);
    if !active then Finished(Rejected(Inactive))
    else if expiresAt <= now then Finished(Rejected(TooLate))
    else CreateToken(tok, stored, session, expiresAt)
  }

  /** rotatedFromId is unique: a second successor is refused with P2002. */
  function AfterCreate(db: Db, tok: TokenId, stored: Token, session: Session, expiresAt: Time,
                       newId: TokenId): (Db, Handler) {
    if HasSuccessor(db.tokens, tok) then (db, EndTokens(tok, stored.sessionId, Conflict))
    else
      var token := Token(session.userId, stored.sessionId, expiresAt, Some(tok), false, false);
      (db.(tokens := db.tokens[newId := token]), RevokeOld(tok, newId))
  }

  /** One statement of a handler. Rows a foreign key guarantees are checked only so that the
      function is total. */
  function Exec(db: Db, now: Time, hd: Handler, newId: nat, requested: Time): (Db, Handler)
    requires !hd.Finished?
  {
    match hd
    case CreateSession(user, expiresAt) =>
      (db.(sessions := db.sessions[newId := Session(user, expiresAt, false)]), CreateFirstToken(user, newId, expiresAt))
    case CreateFirstToken(user, sid, expiresAt) =>
      (db.(tokens := db.tokens[newId := Token(user, sid, expiresAt, None, false, false)]), Finished(LoggedIn(newId)))
    case FindToken(tok) =>
      (db, if tok in db.tokens then FindSession(tok, db.tokens[tok]) else Finished(Rejected(Unknown)))
    case FindSession(tok, stored) =>
      (db, if stored.sessionId in db.sessions then AfterFind(tok, stored, db.sessions[stored.sessionId], now)
           else Finished(Rejected(Unknown)))
    case FindSuccessor(tok, stored, session, readAt) =>
      (db, AfterSuccessor(tok, stored, session, readAt, HasSuccessor(db.tokens, tok)))
    case FindUser(tok, stored, session) =>
      (db, AfterUser(tok, stored, session, UserActive(db, session.userId), now, requested))
    case CreateToken(tok, stored, session, expiresAt) => AfterCreate(db, tok, stored, session, expiresAt, newId)
    case RevokeOld(tok, issued) =>
      (if tok in db.tokens then RevokeToken(db, tok) else db, Finished(Issued(issued)))
    case EndTokens(tok, sid, why) => (RevokeTokensOf(db, sid), EndSession(tok, sid, why))
    case EndSession(tok, sid, why) =>
      (if sid in db.sessions then RevokeSession(db, sid) else db,
       if why == Reuse then MarkOld(tok, sid) else Finished(if why == Logout then LoggedOut else Rejected(Refused)))
    case MarkOld(tok, _) => (if tok in db.tokens then MarkReused(db, tok) else db, Finished(Rejected(Refused)))
    case FindForLogout(tok) =>
      (db, if tok in db.tokens then EndTokens(tok, db.tokens[tok].sessionId, Logout) else Finished(LoggedOut))
  }

  function Next(s: State, step: Step): State
    requires Enabled(s, step)
  {
    match step
    case StartLogin(h, user, expiresAt) => s.(handlers := s.handlers[h := CreateSession(user, expiresAt)])
    case StartRefresh(h, tok) => s.(handlers := s.handlers[h := FindToken(tok)])
    case StartLogout(h, tok) => s.(handlers := s.handlers[h := FindForLogout(tok)])
    case Advance(h, newId, requested) =>
      var r := Exec(s.db, s.now, s.handlers[h], newId, requested);
      s.(db := r.0, handlers := s.handlers[h := r.1])
    case Abort(h) => s.(handlers := s.handlers[h := Finished(Aborted)])
    case Tick(now) => s.(now := now)
    case SetUser(user, active) => s.(db := s.db.(users := s.db.users[user := active]))
    case LogoutAll(user) => s.(db := RevokeAllSessions(s.db, user))
    case IssueReset(id, user, expiresAt) =>
      s.(db := s.db.(resets := s.db.resets[id := Reset(user, expiresAt, false)]))
    case ResetPassword(id) => if ResetUsable(s.db, id, s.now) then s.(db := ConsumeReset(s.db, id)) else s
  }

  ghost predicate Run(s: State, steps: seq<Step>, t: State)
    decreases |steps|
  {
    if steps == [] then s == t
    else Enabled(s, steps[0]) && Run(Next(s, steps[0]), steps[1..], t)
  }

  lemma {:induction false} RunSnoc(s: State, steps: seq<Step>, t: State, last: Step)
    requires Run(s, steps, t) && Enabled(t, last)
    ensures Run(s, steps + [last], Next(t, last))
    decreases |steps|
  {
    if steps == [] {
      assert Run(Next(t, last), [], Next(t, last));
      assert (steps + [last])[1..] == [];
    } else {
      RunSnoc(Next(s, steps[0]), steps[1..], t, last);
      assert (steps + [last])[1..] == steps[1..] + [last];
    }
  }

  ghost predicate Reachable(s: State) { exists steps :: Run(Init, steps, s) }

  // ---------- How the tables may change ----------

  /** Existing sessions keep everything but the revocation, which is never undone. */
  ghost predicate SessionsEvolve(a: Sessions, b: Sessions) {
    forall sid | sid in a ::
      sid in b && b[sid].userId == a[sid].userId && b[sid].expiresAt == a[sid].expiresAt
      && (a[sid].revoked ==> b[sid].revoked)
  }

  /** Existing tokens keep everything but two flags, which are never cleared. */
  ghost predicate TokensEvolve(a: Tokens, b: Tokens) {
    forall id | id in a ::
      id in b && b[id] == a[id].(revoked := b[id].revoked, reused := b[id].reused)
      && (a[id].revoked ==> b[id].revoked) && (a[id].reused ==> b[id].reused)
  }

  lemma ExecEvolves(db: Db, now: Time, hd: Handler, newId: nat, requested: Time)
    requires !hd.Finished? && newId !in db.tokens && newId !in db.sessions
    ensures var db' := Exec(db, now, hd, newId, requested).0;
            SessionsEvolve(db.sessions, db'.sessions) && TokensEvolve(db.tokens, db'.tokens)
  {}

  lemma StepEvolves(s: State, step: Step)
    requires Enabled(s, step)
    ensures SessionsEvolve(s.db.sessions, Next(s, step).db.sessions)
    ensures TokensEvolve(s.db.tokens, Next(s, step).db.tokens)
    ensures s.now <= Next(s, step).now
  {
    if step.Advance? { ExecEvolves(s.db, s.now, s.handlers[step.h], step.newId, step.requested); }
  }

  lemma {:induction false} RunEvolves(s: State, steps: seq<Step>, t: State)
    requires Run(s, steps, t)
    ensures SessionsEvolve(s.db.sessions, t.db.sessions)
    ensures TokensEvolve(s.db.tokens, t.db.tokens)
    ensures s.now <= t.now
    decreases |steps|
  {
    if steps != [] {
      StepEvolves(s, steps[0]);
      RunEvolves(Next(s, steps[0]), steps[1..], t);
    }
  }

  lemma SuccessorsStay(a: Tokens, b: Tokens, tok: TokenId)
    requires TokensEvolve(a, b) && HasSuccessor(a, tok)
    ensures HasSuccessor(b, tok)
  {
    var id :| id in a && a[id].rotatedFrom == Some(tok);
    assert id in b && b[id].rotatedFrom == Some(tok);
  }
}
