/** The invariant of the session machine. */
module AuthInvariant {
  import opened Optional
  import opened Auth

  /** Every token hangs off a session of its user, dies no later than it, and is only marked as
      reused once that session is revoked. */
  ghost predicate TokensOk(db: Db) {
    forall id | id in db.tokens ::
      var t := db.tokens[id];
      && t.sessionId in db.sessions
      && t.userId == db.sessions[t.sessionId].userId
      && t.expiresAt <= db.sessions[t.sessionId].expiresAt
      && (t.reused ==> db.sessions[t.sessionId].revoked)
  }

  /** `p` lists all tokens of a session, the login token first, each rotated from the one before. */
  ghost predicate IsPath(tokens: Tokens, sid: SessionId, p: seq<TokenId>) {
    && (forall i | 0 <= i < |p| :: p[i] in tokens && tokens[p[i]].sessionId == sid)
    && (p != [] ==> tokens[p[0]].rotatedFrom == None)
    && (forall i, j | 0 <= i < j < |p| && j == i + 1 :: tokens[p[j]].rotatedFrom == Some(p[i]))
    && (forall i, j | 0 <= i < j < |p| :: p[i] != p[j])
    && (forall id | id in tokens && tokens[id].sessionId == sid :: id in p)
  }

  ghost predicate HasPath(tokens: Tokens, sid: SessionId) { exists p :: IsPath(tokens, sid, p) }

  ghost predicate PathsOk(db: Db) { forall sid | sid in db.sessions :: HasPath(db.tokens, sid) }

  ghost predicate NoTokens(tokens: Tokens, sid: SessionId) {
    forall id | id in tokens :: tokens[id].sessionId != sid
  }

  /** `stored` was read from the table at some earlier time. */
  ghost predicate OldToken(db: Db, tok: TokenId, stored: Token) {
    && tok in db.tokens
    && db.tokens[tok] == stored.(revoked := db.tokens[tok].revoked, reused := db.tokens[tok].reused)
    && (stored.reused ==> db.tokens[tok].reused) && (stored.revoked ==> db.tokens[tok].revoked)
  }

  ghost predicate OldSession(db: Db, sid: SessionId, session: Session) {
    && sid in db.sessions
    && db.sessions[sid].userId == session.userId && db.sessions[sid].expiresAt == session.expiresAt
    && (session.revoked ==> db.sessions[sid].revoked)
  }

  ghost predicate InSession(db: Db, tok: TokenId, sid: SessionId) {
    tok in db.tokens && db.tokens[tok].sessionId == sid && sid in db.sessions
  }

  ghost predicate HandlerOk(db: Db, hd: Handler) {
    match hd
    case CreateSession(_, _) => true
    case CreateFirstToken(user, sid, expiresAt) =>
      && sid in db.sessions && db.sessions[sid].userId == user && db.sessions[sid].expiresAt == expiresAt
      && NoTokens(db.tokens, sid)
    case FindToken(_) => true
    case FindSession(tok, stored) => OldToken(db, tok, stored)
    case FindSuccessor(tok, stored, session, _) =>
      OldToken(db, tok, stored) && OldSession(db, stored.sessionId, session)
    case FindUser(tok, stored, session) => OldToken(db, tok, stored) && OldSession(db, stored.sessionId, session)
    case CreateToken(tok, stored, session, expiresAt) =>
      OldToken(db, tok, stored) && OldSession(db, stored.sessionId, session) && expiresAt <= session.expiresAt
    case RevokeOld(tok, issued) =>
      tok in db.tokens && issued in db.tokens && db.tokens[issued].rotatedFrom == Some(tok)
    case EndTokens(tok, sid, why) =>
      InSession(db, tok, sid) && (why == Reuse || why == Conflict ==> HasSuccessor(db.tokens, tok))
    case EndSession(tok, sid, why) =>
      InSession(db, tok, sid) && (why == Reuse || why == Conflict ==> HasSuccessor(db.tokens, tok))
    case MarkOld(tok, sid) => InSession(db, tok, sid) && db.sessions[sid].revoked
    case FindForLogout(_) => true
    case Finished(_) => true
  }

  ghost predicate HandlersOk(s: State) { forall h | h in s.handlers :: HandlerOk(s.db, s.handlers[h]) }

  /** A session is waiting for its first token in at most one handler. */
  ghost predicate LoginsOk(s: State) {
    forall g, h | g in s.handlers && h in s.handlers && g != h
                  && s.handlers[g].CreateFirstToken? && s.handlers[h].CreateFirstToken? ::
      s.handlers[g].sid != s.handlers[h].sid
  }

  predicate Issues(hd: Handler, id: TokenId) {
    (hd.RevokeOld? && hd.issued == id) || hd == Finished(Issued(id))
  }

  ghost predicate IssuesOk(s: State) {
    && (forall h, id | h in s.handlers && Issues(s.handlers[h], id) ::
          id in s.db.tokens && s.db.tokens[id].rotatedFrom.Some?)
    && (forall g, h, id | g in s.handlers && h in s.handlers && g != h && Issues(s.handlers[g], id) ::
          !Issues(s.handlers[h], id))
  }

  ghost predicate Inv(s: State) {
    TokensOk(s.db) && PathsOk(s.db) && HandlersOk(s) && LoginsOk(s) && IssuesOk(s)
  }

  // ---------- Tables ----------

  /** Only flags change, and a mark of reuse needs a revoked session. */
  ghost predicate FlagsOnly(a: Db, b: Db) {
    && SessionsEvolve(a.sessions, b.sessions) && TokensEvolve(a.tokens, b.tokens)
    && b.sessions.Keys == a.sessions.Keys && b.tokens.Keys == a.tokens.Keys
    && forall id | id in a.tokens && b.tokens[id].reused && !a.tokens[id].reused ::
         b.tokens[id].sessionId in b.sessions && b.sessions[b.tokens[id].sessionId].revoked
  }

  lemma FlagsKeepTables(a: Db, b: Db)
    requires TokensOk(a) && PathsOk(a) && FlagsOnly(a, b)
    ensures TokensOk(b) && PathsOk(b)
  {
    forall sid | sid in b.sessions ensures HasPath(b.tokens, sid) {
      assert HasPath(a.tokens, sid);
      var p :| IsPath(a.tokens, sid, p);
      assert IsPath(b.tokens, sid, p);
    }
  }

  lemma NewSessionKeepsTables(a: Db, sid: SessionId, session: Session)
    requires TokensOk(a) && PathsOk(a) && sid !in a.sessions
    ensures var b := a.(sessions := a.sessions[sid := session]); TokensOk(b) && PathsOk(b) && NoTokens(b.tokens, sid)
  {
    var b := a.(sessions := a.sessions[sid := session]);
    assert NoTokens(b.tokens, sid) by {
      forall id | id in a.tokens ensures a.tokens[id].sessionId != sid { assert a.tokens[id].sessionId in a.sessions; }
    }
    forall s | s in b.sessions ensures HasPath(b.tokens, s) {
      if s == sid { assert IsPath(b.tokens, sid, []); } else { assert HasPath(a.tokens, s); }
    }
  }

  /** The token a login or a rotation may add: the first of its session, or after the last. */
  ghost predicate Extends(tokens: Tokens, token: Token) {
    match token.rotatedFrom
    case None => NoTokens(tokens, token.sessionId)
    case Some(tok) => tok in tokens && tokens[tok].sessionId == token.sessionId && !HasSuccessor(tokens, tok)
  }

  lemma LastOfPath(tokens: Tokens, token: Token, p: seq<TokenId>)
    requires Extends(tokens, token) && IsPath(tokens, token.sessionId, p)
    ensures token.rotatedFrom == if p == [] then None else Some(p[|p| - 1])
  {
    assert p != [] ==> p[0] in tokens && tokens[p[0]].sessionId == token.sessionId;
    forall i | 0 <= i < |p| - 1 ensures HasSuccessor(tokens, p[i]) {
      assert p[i + 1] in tokens && tokens[p[i + 1]].rotatedFrom == Some(p[i]);
    }
    if token.rotatedFrom.Some? {
      var k :| 0 <= k < |p| && p[k] == token.rotatedFrom.value;
      assert k == |p| - 1;
    }
  }

  lemma PathExtends(tokens: Tokens, id: TokenId, token: Token, p: seq<TokenId>)
    requires id !in tokens && Extends(tokens, token) && IsPath(tokens, token.sessionId, p)
    ensures HasPath(tokens[id := token], token.sessionId)
  {
    var q := p + [id];
    LastOfPath(tokens, token, p);
    var tokens' := tokens[id := token];
    forall i | 0 <= i < |q| ensures q[i] in tokens' && tokens'[q[i]].sessionId == token.sessionId {
      if i < |p| { assert q[i] == p[i] && p[i] in tokens; }
    }
    forall i, j | 0 <= i < j < |q| && j == i + 1 ensures tokens'[q[j]].rotatedFrom == Some(q[i]) {
      assert q[i] == p[i];
      if j < |p| { assert q[j] == p[j] && p[j] in tokens; }
    }
    forall i, j | 0 <= i < j < |q| ensures q[i] != q[j] {
      assert q[i] == p[i] && p[i] in tokens;
      if j < |p| { assert q[j] == p[j]; }
    }
    forall x | x in tokens' && tokens'[x].sessionId == token.sessionId ensures x in q {
      if x != id { assert x in tokens && x in p; } else { assert q[|p|] == id; }
    }
    assert IsPath(tokens', token.sessionId, q);
  }

  lemma NewTokenKeepsTables(a: Db, id: TokenId, token: Token)
    requires TokensOk(a) && PathsOk(a) && id !in a.tokens && Extends(a.tokens, token)
    requires token.sessionId in a.sessions && token.userId == a.sessions[token.sessionId].userId
    requires token.expiresAt <= a.sessions[token.sessionId].expiresAt && !token.reused
    ensures var b := a.(tokens := a.tokens[id := token]); TokensOk(b) && PathsOk(b)
  {
    var b := a.(tokens := a.tokens[id := token]);
    forall sid | sid in b.sessions ensures HasPath(b.tokens, sid) {
      assert HasPath(a.tokens, sid);
      var p :| IsPath(a.tokens, sid, p);
      if sid == token.sessionId { PathExtends(a.tokens, id, token, p); }
      else { assert IsPath(b.tokens, sid, p); }
    }
  }

  // ---------- One statement of a handler ----------

  lemma ExecKeepsTables(db: Db, now: Time, hd: Handler, newId: nat, requested: Time)
    requires TokensOk(db) && PathsOk(db) && HandlerOk(db, hd)
    requires !hd.Finished? && newId !in db.tokens && newId !in db.sessions
    ensures var db' := Exec(db, now, hd, newId, requested).0; TokensOk(db') && PathsOk(db')
  {
    var db' := Exec(db, now, hd, newId, requested).0;
    match hd
    case CreateSession(user, expiresAt) => NewSessionKeepsTables(db, newId, Session(user, expiresAt, false));
    case CreateFirstToken(user, sid, expiresAt) =>
      NewTokenKeepsTables(db, newId, Token(user, sid, expiresAt, None, false, false));
    case CreateToken(tok, stored, session, expiresAt) =>
      if !HasSuccessor(db.tokens, tok) {
        NewTokenKeepsTables(db, newId, Token(session.userId, stored.sessionId, expiresAt, Some(tok), false, false));
      }
    case _ =>
      ExecFlags(db, now, hd, newId, requested);
      FlagsKeepTables(db, db');
  }

  lemma ExecFlags(db: Db, now: Time, hd: Handler, newId: nat, requested: Time)
    requires HandlerOk(db, hd) && newId !in db.tokens && newId !in db.sessions
    requires !hd.Finished? && !hd.CreateSession? && !hd.CreateFirstToken? && !hd.CreateToken?
    ensures FlagsOnly(db, Exec(db, now, hd, newId, requested).0)
  {
    match hd
    case RevokeOld(_, _) =>
    case EndTokens(_, sid, _) =>
    case EndSession(_, sid, _) =>
    case MarkOld(tok, sid) =>
    case _ =>
  }

  /** The handler's own next program point is in order. */
  lemma ReadKeepsHandler(db: Db, now: Time, hd: Handler, newId: nat, requested: Time)
    requires TokensOk(db) && HandlerOk(db, hd)
    requires hd.FindToken? || hd.FindSession? || hd.FindSuccessor? || hd.FindUser? || hd.FindForLogout?
    ensures Exec(db, now, hd, newId, requested).0 == db
    ensures HandlerOk(db, Exec(db, now, hd, newId, requested).1)
  {
    match hd
    case FindToken(tok) =>
    case FindSession(tok, stored) => assert db.tokens[tok].sessionId in db.sessions;
    case FindSuccessor(tok, stored, _, _) =>
    case FindUser(_, _, _) =>
    case FindForLogout(tok) => if tok in db.tokens { assert db.tokens[tok].sessionId in db.sessions; }
  }

  lemma WriteKeepsHandler(db: Db, now: Time, hd: Handler, newId: nat, requested: Time)
    requires TokensOk(db) && HandlerOk(db, hd) && newId !in db.tokens && newId !in db.sessions
    requires hd.CreateSession? || hd.CreateFirstToken? || hd.CreateToken? || hd.RevokeOld?
             || hd.EndTokens? || hd.EndSession? || hd.MarkOld?
    ensures var (db', hd') := Exec(db, now, hd, newId, requested); HandlerOk(db', hd')
  {
    var (db', hd') := Exec(db, now, hd, newId, requested);
    match hd
    case CreateSession(_, _) =>
      forall id | id in db.tokens ensures db.tokens[id].sessionId != newId {
        assert db.tokens[id].sessionId in db.sessions;
      }
    case EndTokens(tok, sid, why) =>
      ExecEvolves(db, now, hd, newId, requested);
      if HasSuccessor(db.tokens, tok) { SuccessorsStay(db.tokens, db'.tokens, tok); }
    case _ =>
  }

  lemma OwnStep(db: Db, now: Time, hd: Handler, newId: nat, requested: Time)
    requires TokensOk(db) && HandlerOk(db, hd) && !hd.Finished? && newId !in db.tokens && newId !in db.sessions
    ensures var (db', hd') := Exec(db, now, hd, newId, requested); HandlerOk(db', hd')
  {
    if hd.FindToken? || hd.FindSession? || hd.FindSuccessor? || hd.FindUser? || hd.FindForLogout? {
      ReadKeepsHandler(db, now, hd, newId, requested);
    } else {
      WriteKeepsHandler(db, now, hd, newId, requested);
    }
  }

  /** Everybody else's program point survives a change of the tables. */
  lemma OthersStable(a: Db, b: Db, hd: Handler)
    requires HandlerOk(a, hd) && SessionsEvolve(a.sessions, b.sessions) && TokensEvolve(a.tokens, b.tokens)
    requires hd.CreateFirstToken? ==> NoTokens(b.tokens, hd.sid)
    ensures HandlerOk(b, hd)
  {
    match hd
    case EndTokens(tok, _, _) => if HasSuccessor(a.tokens, tok) { SuccessorsStay(a.tokens, b.tokens, tok); }
    case EndSession(tok, _, _) => if HasSuccessor(a.tokens, tok) { SuccessorsStay(a.tokens, b.tokens, tok); }
    case _ =>
  }

  /** No statement adds a token to a session that waits for its first one elsewhere. */
  lemma WaitingSessionsStay(s: State, step: Step, g: HandlerId)
    requires Inv(s) && Enabled(s, step) && step.Advance? && g in s.handlers && g != step.h
    requires s.handlers[g].CreateFirstToken?
    ensures NoTokens(Next(s, step).db.tokens, s.handlers[g].sid)
  {
    var hd := s.handlers[step.h];
    var sid := s.handlers[g].sid;
    assert HandlerOk(s.db, s.handlers[g]) && HandlerOk(s.db, hd);
    var tokens := Next(s, step).db.tokens;
    forall id | id in tokens ensures tokens[id].sessionId != sid {
      if id in s.db.tokens {
        ExecEvolves(s.db, s.now, hd, step.newId, step.requested);
      } else if hd.CreateToken? {
        assert s.db.tokens[hd.tok].sessionId != sid;
      }
    }
  }

  lemma AdvanceKeepsHandlers(s: State, step: Step)
    requires Inv(s) && Enabled(s, step) && step.Advance?
    ensures HandlersOk(Next(s, step))
  {
    var t := Next(s, step);
    ExecEvolves(s.db, s.now, s.handlers[step.h], step.newId, step.requested);
    forall g | g in t.handlers ensures HandlerOk(t.db, t.handlers[g]) {
      if g == step.h {
        assert HandlerOk(s.db, s.handlers[g]);
        OwnStep(s.db, s.now, s.handlers[g], step.newId, step.requested);
      } else {
        assert HandlerOk(s.db, s.handlers[g]);
        if s.handlers[g].CreateFirstToken? { WaitingSessionsStay(s, step, g); }
        OthersStable(s.db, t.db, s.handlers[g]);
      }
    }
  }

  lemma AdvanceKeepsLogins(s: State, step: Step)
    requires HandlersOk(s) && LoginsOk(s) && Enabled(s, step) && step.Advance?
    ensures LoginsOk(Next(s, step))
  {
    var hd := Next(s, step).handlers[step.h];
    assert hd.CreateFirstToken? ==> hd.sid == step.newId;
    forall g | g in s.handlers && s.handlers[g].CreateFirstToken? ensures s.handlers[g].sid != step.newId {
      assert HandlerOk(s.db, s.handlers[g]);
    }
  }

  /** A handler starts issuing an id only when it creates that token. */
  lemma IssuesAfter(s: State, step: Step, id: TokenId)
    requires Enabled(s, step) && step.Advance? && Issues(Next(s, step).handlers[step.h], id)
    ensures Issues(s.handlers[step.h], id)
            || (id == step.newId && id in Next(s, step).db.tokens && Next(s, step).db.tokens[id].rotatedFrom.Some?)
  {}

  /** The issuing handlers after a step: the old ones, and perhaps one with a new id. */
  ghost predicate IssuesGrow(s: State, t: State, h: HandlerId, newId: TokenId) {
    && newId !in s.db.tokens && TokensEvolve(s.db.tokens, t.db.tokens)
    && h in s.handlers && t.handlers.Keys == s.handlers.Keys
    && (forall g | g in s.handlers && g != h :: t.handlers[g] == s.handlers[g])
    && (forall id | Issues(t.handlers[h], id) ::
          Issues(s.handlers[h], id)
          || (id == newId && id in t.db.tokens && t.db.tokens[id].rotatedFrom.Some?))
  }

  lemma IssuesGrowOk(s: State, t: State, h: HandlerId, newId: TokenId)
    requires IssuesOk(s) && IssuesGrow(s, t, h, newId)
    ensures IssuesOk(t)
  {
    forall g, id | g in t.handlers && Issues(t.handlers[g], id)
      ensures id in t.db.tokens && t.db.tokens[id].rotatedFrom.Some?
      ensures id == newId ==> g == h
      ensures id != newId ==> Issues(s.handlers[g], id)
    {}
  }

  lemma AdvanceKeepsIssues(s: State, step: Step)
    requires IssuesOk(s) && Enabled(s, step) && step.Advance?
    ensures IssuesOk(Next(s, step))
  {
    var t := Next(s, step);
    StepEvolves(s, step);
    forall id | Issues(t.handlers[step.h], id)
      ensures Issues(s.handlers[step.h], id)
              || (id == step.newId && id in t.db.tokens && t.db.tokens[id].rotatedFrom.Some?)
    {
      IssuesAfter(s, step, id);
    }
    IssuesGrowOk(s, t, step.h, step.newId);
  }

  lemma StepKeepsInv(s: State, step: Step)
    requires Inv(s) && Enabled(s, step)
    ensures Inv(Next(s, step))
  {
    if step.Advance? {
      assert HandlerOk(s.db, s.handlers[step.h]);
      ExecKeepsTables(s.db, s.now, s.handlers[step.h], step.newId, step.requested);
      AdvanceKeepsHandlers(s, step);
      AdvanceKeepsLogins(s, step);
      AdvanceKeepsIssues(s, step);
    } else {
      OtherStepsKeepInv(s, step);
    }
  }

  /** Steps outside a running handler: they add no session and no token. */
  lemma OtherStepsFlags(s: State, step: Step)
    requires Enabled(s, step) && !step.Advance?
    ensures FlagsOnly(s.db, Next(s, step).db)
  {
    StepEvolves(s, step);
  }

  /** They leave every handler where it is, or put one at a harmless point. */
  lemma OtherStepsHandlers(s: State, step: Step, g: HandlerId)
    requires Enabled(s, step) && !step.Advance? && g in Next(s, step).handlers
    ensures var hd := Next(s, step).handlers[g];
            (g in s.handlers && hd == s.handlers[g])
            || hd.CreateSession? || hd.FindToken? || hd.FindForLogout? || hd == Finished(Aborted)
  {}

  lemma OtherStepsKeepInv(s: State, step: Step)
    requires Inv(s) && Enabled(s, step) && !step.Advance?
    ensures Inv(Next(s, step))
  {
    var t := Next(s, step);
    OtherStepsFlags(s, step);
    FlagsKeepTables(s.db, t.db);
    forall g | g in t.handlers
      ensures (g in s.handlers && t.handlers[g] == s.handlers[g]) || t.handlers[g].CreateSession?
              || t.handlers[g].FindToken? || t.handlers[g].FindForLogout? || t.handlers[g] == Finished(Aborted)
    {
      OtherStepsHandlers(s, step, g);
    }
    CalmKeepsHandlers(s, t);
    CalmKeepsIds(s, t);
  }

  ghost predicate Calm(s: State, t: State) {
    && FlagsOnly(s.db, t.db)
    && forall g | g in t.handlers ::
         (g in s.handlers && t.handlers[g] == s.handlers[g]) || t.handlers[g].CreateSession?
         || t.handlers[g].FindToken? || t.handlers[g].FindForLogout? || t.handlers[g] == Finished(Aborted)
  }

  lemma CalmKeepsHandlers(s: State, t: State)
    requires HandlersOk(s) && Calm(s, t)
    ensures HandlersOk(t)
  {
    forall g | g in t.handlers ensures HandlerOk(t.db, t.handlers[g]) {
      if g in s.handlers && t.handlers[g] == s.handlers[g] {
        assert HandlerOk(s.db, s.handlers[g]);
        OthersStable(s.db, t.db, s.handlers[g]);
      }
    }
  }

  lemma CalmKeepsIds(s: State, t: State)
    requires LoginsOk(s) && IssuesOk(s) && Calm(s, t)
    ensures LoginsOk(t) && IssuesOk(t)
  {
    forall g, id | g in t.handlers && Issues(t.handlers[g], id)
      ensures g in s.handlers && Issues(s.handlers[g], id) {}
  }

  lemma {:induction false} RunKeepsInv(s: State, steps: seq<Step>, t: State)
    requires Inv(s) && Run(s, steps, t)
    ensures Inv(t)
    decreases |steps|
  {
    if steps != [] {
      StepKeepsInv(s, steps[0]);
      RunKeepsInv(Next(s, steps[0]), steps[1..], t);
    }
  }

  lemma ReachableInv(s: State)
    requires Reachable(s)
    ensures Inv(s)
  {
    var steps :| Run(Init, steps, s);
    RunKeepsInv(Init, steps, s);
  }
}
