/** What holds over whole runs of the session machine. */
module AuthRuns {
  import opened Optional
  import opened Auth
  import opened AuthInvariant

  // ---------- The shape of a session ----------

  /** In every reachable state the refresh tokens of a session are one path from its login
      token, all of one user and none outliving the session. */
  lemma TokensFormOnePath(s: State, sid: SessionId) returns (p: seq<TokenId>)
    requires Reachable(s) && sid in s.db.sessions
    ensures IsPath(s.db.tokens, sid, p)
    ensures forall id | id in p :: s.db.tokens[id].userId == s.db.sessions[sid].userId
    ensures forall id | id in p :: s.db.tokens[id].expiresAt <= s.db.sessions[sid].expiresAt
  {
    ReachableInv(s);
    assert HasPath(s.db.tokens, sid);
    p :| IsPath(s.db.tokens, sid, p);
  }

  /** Where a token of the session stands: its index follows from what it was rotated from. */
  lemma IndexOf(tokens: Tokens, sid: SessionId, p: seq<TokenId>, id: TokenId) returns (k: nat)
    requires IsPath(tokens, sid, p) && id in tokens && tokens[id].sessionId == sid
    ensures k < |p| && p[k] == id
    ensures if k == 0 then tokens[id].rotatedFrom == None else tokens[id].rotatedFrom == Some(p[k - 1])
  {
    assert id in p;
    k :| 0 <= k < |p| && p[k] == id;
  }

  /** A rotated token stays in the session of its predecessor. */
  lemma RotatedWithin(db: Db, id: TokenId)
    requires PathsOk(db) && id in db.tokens && db.tokens[id].sessionId in db.sessions
    requires db.tokens[id].rotatedFrom.Some?
    ensures var tok := db.tokens[id].rotatedFrom.value;
            tok in db.tokens && db.tokens[tok].sessionId == db.tokens[id].sessionId
  {
    var sid := db.tokens[id].sessionId;
    assert HasPath(db.tokens, sid);
    var p :| IsPath(db.tokens, sid, p);
    var k := IndexOf(db.tokens, sid, p, id);
    assert p[k - 1] in db.tokens;
  }

  lemma RotatedOnce(tokens: Tokens, sid: SessionId, a: TokenId, b: TokenId)
    requires HasPath(tokens, sid) && a in tokens && b in tokens
    requires tokens[a].sessionId == sid && tokens[b].sessionId == sid
    requires tokens[a].rotatedFrom == tokens[b].rotatedFrom
    ensures a == b
  {
    var p :| IsPath(tokens, sid, p);
    var i := IndexOf(tokens, sid, p, a);
    var j := IndexOf(tokens, sid, p, b);
    if i > 0 { assert p[i - 1] == p[j - 1]; }
  }

  lemma RotatedFromInjective(db: Db, a: TokenId, b: TokenId)
    requires TokensOk(db) && PathsOk(db) && a in db.tokens && b in db.tokens
    requires db.tokens[a].rotatedFrom == db.tokens[b].rotatedFrom && db.tokens[a].rotatedFrom.Some?
    ensures a == b
  {
    RotatedWithin(db, a);
    RotatedWithin(db, b);
    RotatedOnce(db.tokens, db.tokens[a].sessionId, a, b);
  }

  lemma IssuesDiffer(s: State, g: HandlerId, h: HandlerId, a: TokenId, b: TokenId)
    requires TokensOk(s.db) && PathsOk(s.db) && IssuesOk(s)
    requires g in s.handlers && h in s.handlers && Issues(s.handlers[g], a) && Issues(s.handlers[h], b)
    ensures a in s.db.tokens && b in s.db.tokens
    ensures s.db.tokens[a].rotatedFrom == s.db.tokens[b].rotatedFrom ==> g == h
  {
    if s.db.tokens[a].rotatedFrom == s.db.tokens[b].rotatedFrom { RotatedFromInjective(s.db, a, b); }
  }

  /** Each token yields at most one successful refresh, whichever handlers race for it. */
  lemma OneSuccessPerToken(s: State, g: HandlerId, h: HandlerId, a: TokenId, b: TokenId)
    requires Reachable(s) && g in s.handlers && h in s.handlers
    requires s.handlers[g] == Finished(Issued(a)) && s.handlers[h] == Finished(Issued(b))
    ensures a in s.db.tokens && b in s.db.tokens
    ensures s.db.tokens[a].rotatedFrom == s.db.tokens[b].rotatedFrom ==> g == h
  {
    ReachableInv(s);
    IssuesDiffer(s, g, h, a, b);
  }

  // ---------- Replay ----------

  ghost predicate SessionOver(s: State, tok: TokenId) {
    && tok in s.db.tokens && s.db.tokens[tok].sessionId in s.db.sessions
    && var session := s.db.sessions[s.db.tokens[tok].sessionId];
       session.revoked || session.expiresAt <= s.now
  }

  ghost predicate SessionRevoked(s: State, tok: TokenId) {
    && tok in s.db.tokens && s.db.tokens[tok].sessionId in s.db.sessions
    && s.db.sessions[s.db.tokens[tok].sessionId].revoked
  }

  /** A handler that was given a token which already has a successor. */
  ghost predicate Replaying(s: State, h: HandlerId, tok: TokenId) {
    && h in s.handlers && tok in s.db.tokens && HasSuccessor(s.db.tokens, tok)
    && match s.handlers[h]
       case FindToken(t) => t == tok
       case FindSession(t, _) => t == tok
       case FindSuccessor(t, _, _, _) => t == tok
       case FindUser(t, _, _) => t == tok
       case CreateToken(t, _, _, _) => t == tok
       case EndTokens(t, _, why) => t == tok && why != Logout
       case EndSession(t, _, why) => t == tok && why != Logout
       case MarkOld(t, _) => t == tok
       case Finished(outcome) =>
         || outcome == Aborted || outcome == Rejected(Inactive)
         || (outcome == Rejected(Refused) && SessionRevoked(s, tok))
         || (outcome == Rejected(TooLate) && SessionOver(s, tok))
       case _ => false
  }

  lemma SessionStaysOver(s: State, t: State, tok: TokenId)
    requires SessionOver(s, tok) && s.now <= t.now
    requires SessionsEvolve(s.db.sessions, t.db.sessions) && TokensEvolve(s.db.tokens, t.db.tokens)
    ensures SessionOver(t, tok)
  {}

  lemma ReplayFinds(s: State, step: Step, tok: TokenId)
    requires Inv(s) && Enabled(s, step) && step.Advance? && Replaying(s, step.h, tok)
    requires s.handlers[step.h].FindToken? || s.handlers[step.h].FindSession?
    ensures Replaying(Next(s, step), step.h, tok)
  {
    assert HandlerOk(s.db, s.handlers[step.h]);
    assert s.db.tokens[tok].sessionId in s.db.sessions;
  }

  lemma ReplayChecks(s: State, step: Step, tok: TokenId)
    requires Inv(s) && Enabled(s, step) && step.Advance? && Replaying(s, step.h, tok)
    requires s.handlers[step.h].FindSuccessor? || s.handlers[step.h].FindUser?
    ensures Replaying(Next(s, step), step.h, tok)
  {
    assert HandlerOk(s.db, s.handlers[step.h]);
    assert s.db.tokens[tok].sessionId in s.db.sessions;
  }

  lemma ReplayWrites(s: State, step: Step, tok: TokenId)
    requires Inv(s) && Enabled(s, step) && step.Advance? && Replaying(s, step.h, tok)
    requires var hd := s.handlers[step.h]; hd.CreateToken? || hd.EndTokens? || hd.EndSession? || hd.MarkOld?
    ensures Replaying(Next(s, step), step.h, tok)
  {
    assert HandlerOk(s.db, s.handlers[step.h]);
    StepEvolves(s, step);
    SuccessorsStay(s.db.tokens, Next(s, step).db.tokens, tok);
  }

  lemma ReplayWaits(s: State, t: State, h: HandlerId, tok: TokenId)
    requires Replaying(s, h, tok) && s.now <= t.now && h in t.handlers
    requires SessionsEvolve(s.db.sessions, t.db.sessions) && TokensEvolve(s.db.tokens, t.db.tokens)
    requires t.handlers[h] == s.handlers[h] || t.handlers[h] == Finished(Aborted)
    ensures Replaying(t, h, tok)
  {
    SuccessorsStay(s.db.tokens, t.db.tokens, tok);
    if SessionOver(s, tok) { SessionStaysOver(s, t, tok); }
  }

  lemma ReplayStep(s: State, step: Step, h: HandlerId, tok: TokenId)
    requires Inv(s) && Enabled(s, step) && Replaying(s, h, tok)
    ensures Replaying(Next(s, step), h, tok)
  {
    if step.Advance? && step.h == h {
      var hd := s.handlers[h];
      if hd.FindToken? || hd.FindSession? { ReplayFinds(s, step, tok); }
      else if hd.FindSuccessor? || hd.FindUser? { ReplayChecks(s, step, tok); }
      else { ReplayWrites(s, step, tok); }
    } else {
      StepEvolves(s, step);
      ReplayWaits(s, Next(s, step), h, tok);
    }
  }

  lemma {:induction false} ReplayRun(s: State, steps: seq<Step>, t: State, h: HandlerId, tok: TokenId)
    requires Inv(s) && Run(s, steps, t) && Replaying(s, h, tok)
    ensures Replaying(t, h, tok)
    decreases |steps|
  {
    if steps != [] {
      ReplayStep(s, steps[0], h, tok);
      StepKeepsInv(s, steps[0]);
      ReplayRun(Next(s, steps[0]), steps[1..], t, h, tok);
    }
  }

  /** Replay detection: presenting a token that already has a successor never issues anything,
      under any interleaving. A handler that has run to its end has left the session revoked, unless
      the account was inactive or the session had expired by the time of issuing. */
  lemma ReplayNeverIssues(s: State, steps: seq<Step>, t: State, h: HandlerId, tok: TokenId)
    requires Reachable(s) && Run(s, steps, t)
    requires h in s.handlers && s.handlers[h] == FindToken(tok)
    requires tok in s.db.tokens && HasSuccessor(s.db.tokens, tok)
    ensures h in t.handlers && !t.handlers[h].RevokeOld? && forall id :: !Issues(t.handlers[h], id)
    ensures t.handlers[h].Finished? && t.handlers[h].outcome != Aborted ==>
              || t.handlers[h].outcome == Rejected(Inactive)
              || (t.handlers[h].outcome == Rejected(Refused) && SessionRevoked(t, tok))
              || (t.handlers[h].outcome == Rejected(TooLate) && SessionOver(t, tok))
  {
    ReachableInv(s);
    ReplayRun(s, steps, t, h, tok);
  }

  /** A replay that is past its last check, on its way to revoke the session. */
  predicate Ending(hd: Handler) {
    hd.CreateToken? || hd.EndTokens? || hd.EndSession? || hd.MarkOld?
    || hd == Finished(Rejected(Refused)) || hd == Finished(Aborted)
  }

  lemma {:induction false} EndingRun(s: State, steps: seq<Step>, t: State, h: HandlerId, tok: TokenId)
    requires Inv(s) && Run(s, steps, t) && Replaying(s, h, tok) && Ending(s.handlers[h])
    ensures Replaying(t, h, tok) && Ending(t.handlers[h])
    decreases |steps|
  {
    if steps != [] {
      ReplayStep(s, steps[0], h, tok);
      StepKeepsInv(s, steps[0]);
      EndingStep(s, steps[0], h, tok);
      EndingRun(Next(s, steps[0]), steps[1..], t, h, tok);
    }
  }

  lemma EndingStep(s: State, step: Step, h: HandlerId, tok: TokenId)
    requires Enabled(s, step) && Replaying(s, h, tok) && Ending(s.handlers[h])
    ensures h in Next(s, step).handlers && Ending(Next(s, step).handlers[h])
  {
    if step.Advance? && step.h == h {
      EndingAdvances(s.db, s.now, s.handlers[h], step.newId, step.requested, tok);
    }
  }

  lemma EndingAdvances(db: Db, now: Time, hd: Handler, newId: nat, requested: Time, tok: TokenId)
    requires Ending(hd) && !hd.Finished? && hd.tok == tok && HasSuccessor(db.tokens, tok)
    requires hd.EndTokens? || hd.EndSession? ==> hd.why != Logout
    ensures Ending(Exec(db, now, hd, newId, requested).1)
  {}

  lemma {:induction false} FinishedStays(s: State, steps: seq<Step>, t: State, h: HandlerId)
    requires Run(s, steps, t) && h in s.handlers && s.handlers[h].Finished?
    ensures h in t.handlers && t.handlers[h] == s.handlers[h]
    decreases |steps|
  {
    if steps != [] { FinishedStays(Next(s, steps[0]), steps[1..], t, h); }
  }

  /** The statement at which a replay by an active user comes to issue. */
  ghost predicate ReplayIssues(s: State, step: Step, h: HandlerId, tok: TokenId) {
    && Inv(s) && Replaying(s, h, tok) && s.handlers[h].FindUser? && UserActive(s.db, s.handlers[h].session.userId)
    && step.Advance? && step.h == h && Enabled(s, step)
  }

  /** Issuing reads the session's end and the account, and writes nothing yet. */
  lemma UserCheck(db: Db, now: Time, hd: Handler, newId: nat, requested: Time)
    requires hd.FindUser? && UserActive(db, hd.session.userId) && now < requested
    ensures Exec(db, now, hd, newId, requested).0 == db
    ensures Exec(db, now, hd, newId, requested).1
            == if hd.session.expiresAt <= now then Finished(Rejected(TooLate))
               else CreateToken(hd.tok, hd.stored, hd.session, Earlier(hd.session.expiresAt, requested))
  {}

  lemma ReplayIssuing(s: State, step: Step, h: HandlerId, tok: TokenId)
    requires ReplayIssues(s, step, h, tok)
    ensures Next(s, step).db == s.db && h in Next(s, step).handlers
    ensures if s.handlers[h].session.expiresAt <= s.now then Next(s, step).handlers[h] == Finished(Rejected(TooLate))
            else Ending(Next(s, step).handlers[h])
  {
    UserCheck(s.db, s.now, s.handlers[h], step.newId, step.requested);
  }

  /** The one way around the revocation: a replay that passed the checks of an active user ends
      with nothing written if and only if the session has expired when it comes to issue. Otherwise
      it ends in the refusal by the unique index, with the session revoked. */
  lemma ReplayLateExactlyWhen(s: State, step: Step, steps: seq<Step>, t: State, h: HandlerId, tok: TokenId)
    requires ReplayIssues(s, step, h, tok) && Run(Next(s, step), steps, t)
    ensures h in t.handlers
    ensures t.handlers[h].Finished? && t.handlers[h].outcome != Aborted ==>
              if s.handlers[h].session.expiresAt <= s.now
              then t.handlers[h].outcome == Rejected(TooLate) && Next(s, step).db == s.db
              else t.handlers[h].outcome == Rejected(Refused) && SessionRevoked(t, tok)
  {
    ReplayIssuing(s, step, h, tok);
    if s.handlers[h].session.expiresAt <= s.now {
      FinishedStays(Next(s, step), steps, t, h);
    } else {
      ReplayStep(s, step, h, tok);
      StepKeepsInv(s, step);
      EndingRun(Next(s, step), steps, t, h, tok);
    }
  }

  // ---------- A late replay ----------

  lemma ReachableNext(s: State, step: Step)
    requires Reachable(s) && Enabled(s, step)
    ensures Reachable(Next(s, step))
  {
    var steps :| Run(Init, steps, s);
    RunSnoc(Init, steps, s, step);
  }

  /** One session until 10 with its login token 1. */
  ghost const LoginDb :=
    Db(map[0 := true], map[0 := Session(0, 10, false)], map[1 := Token(0, 0, 10, None, false, false)], map[])

  lemma LoginReachable()
    ensures Reachable(State(LoginDb, 0, map[0 := Finished(LoggedIn(1))]))
  {
    assert Run(Init, [], Init);
    ReachableNext(Init, SetUser(0, true));
    var a := Next(Init, SetUser(0, true));
    ReachableNext(a, StartLogin(0, 0, 10));
    var b := Next(a, StartLogin(0, 0, 10));
    ReachableNext(b, Advance(0, 0, 1));
    var c := Next(b, Advance(0, 0, 1));
    ReachableNext(c, Advance(0, 1, 1));
    var d := Next(c, Advance(0, 1, 1));
    assert d.db == LoginDb && d.handlers == map[0 := Finished(LoggedIn(1))];
  }

  /** A refresh of token 1 up to the issuing. */
  lemma ReadingAdvances(s: State, h: HandlerId) returns (steps: seq<Step>, t: State)
    requires h in s.handlers && s.handlers[h] == FindToken(1) && s.now == 0
    requires 1 in s.db.tokens && s.db.tokens[1] == LoginDb.tokens[1]
    requires 0 in s.db.sessions && s.db.sessions[0] == LoginDb.sessions[0]
    requires 5 !in s.db.tokens && 5 !in s.db.sessions
    ensures Run(s, steps, t)
    ensures t == s.(handlers := s.handlers[h := FindUser(1, LoginDb.tokens[1], LoginDb.sessions[0])])
  {
    var step := Advance(h, 5, 1);
    var a := Next(s, step);
    var b := Next(a, step);
    t := Next(b, step);
    steps := [step] + [step] + [step];
    assert Run(s, [], s);
    RunSnoc(s, [], s, step);
    assert [] + [step] == [step];
    RunSnoc(s, [step], a, step);
    RunSnoc(s, [step] + [step], b, step);
    assert t.handlers == s.handlers[h := FindUser(1, LoginDb.tokens[1], LoginDb.sessions[0])];
  }

  lemma {:induction false} RunReachable(s: State, steps: seq<Step>, t: State)
    requires Reachable(s) && Run(s, steps, t)
    ensures Reachable(t)
    decreases |steps|
  {
    if steps != [] {
      ReachableNext(s, steps[0]);
      RunReachable(Next(s, steps[0]), steps[1..], t);
    }
  }

  lemma PresentedReachable() returns (s: State)
    ensures Reachable(s) && s.db == LoginDb && s.now == 0
    ensures s.handlers == map[0 := Finished(LoggedIn(1)), 1 := FindUser(1, LoginDb.tokens[1], LoginDb.sessions[0])]
  {
    LoginReachable();
    var l, start := State(LoginDb, 0, map[0 := Finished(LoggedIn(1))]), StartRefresh(1, 1);
    ReachableNext(l, start);
    var steps, u := ReadingAdvances(Next(l, start), 1);
    RunReachable(Next(l, start), steps, u);
    s := u;
  }

  /** Token 1 rotated into token 2, and not yet revoked. */
  lemma RotatedReachable() returns (s: State)
    ensures Reachable(s) && s.now == 0 && 2 !in s.handlers
    ensures s.db == LoginDb.(tokens := LoginDb.tokens[2 := Token(0, 0, 10, Some(1), false, false)])
  {
    var u := PresentedReachable();
    var check, create := Advance(1, 5, 11), Advance(1, 2, 11);
    var v := Next(u, check);
    ReachableNext(u, check);
    assert v.db == LoginDb && v.handlers[1] == CreateToken(1, LoginDb.tokens[1], LoginDb.sessions[0], 10);
    ReachableNext(v, create);
    s := Next(v, create);
  }

  /** The session expires before the request comes to issue. */
  lemma ExpiresFirst(s: State, steps: seq<Step>, x: State) returns (all: seq<Step>, t: State)
    requires Run(s, steps, x) && 2 in x.handlers && x.handlers[2] == FindUser(1, LoginDb.tokens[1], LoginDb.sessions[0])
    requires x.now == 0 && UserActive(x.db, 0) && 5 !in x.db.tokens && 5 !in x.db.sessions
    ensures Run(s, all, t) && t.db == x.db && 2 in t.handlers && t.handlers[2] == Finished(Rejected(TooLate))
  {
    RunSnoc(s, steps, x, Tick(10));
    var y := Next(x, Tick(10));
    RunSnoc(s, steps + [Tick(10)], y, Advance(2, 5, 11));
    all, t := steps + [Tick(10)] + [Advance(2, 5, 11)], Next(y, Advance(2, 5, 11));
  }

  /** Such a replay exists: token 1 has been rotated but not yet revoked when it is presented again,
      and the session expires before the second request comes to issue. */
  lemma LateReplayExists() returns (s: State, steps: seq<Step>, t: State)
    ensures Reachable(s) && Run(s, steps, t)
    ensures 2 in s.handlers && s.handlers[2] == FindToken(1) && 1 in s.db.tokens && HasSuccessor(s.db.tokens, 1)
    ensures 2 in t.handlers && t.handlers[2] == Finished(Rejected(TooLate)) && !SessionRevoked(t, 1)
  {
    var w := RotatedReachable();
    ReachableNext(w, StartRefresh(2, 1));
    s := Next(w, StartRefresh(2, 1));
    assert 2 in s.db.tokens && s.db.tokens[2].rotatedFrom == Some(1);
    var checks, x := ReadingAdvances(s, 2);
    steps, t := ExpiresFirst(s, checks, x);
  }

  // ---------- Revocation ----------

  ghost predicate Revoked(s: State, sid: SessionId) { sid in s.db.sessions && s.db.sessions[sid].revoked }

  /** A handler that had not read the session `sid` yet when it was revoked. */
  ghost predicate Doomed(s: State, h: HandlerId, sid: SessionId) {
    && Revoked(s, sid) && h in s.handlers
    && match s.handlers[h]
       case FindToken(_) => true
       case FindSession(_, _) => true
       case FindSuccessor(_, stored, session, _) => stored.sessionId == sid ==> session.revoked
       case FindUser(_, stored, _) => stored.sessionId != sid
       case CreateToken(_, stored, _, _) => stored.sessionId != sid
       case RevokeOld(_, issued) => issued in s.db.tokens && s.db.tokens[issued].sessionId != sid
       case EndTokens(_, _, _) => true
       case EndSession(_, _, _) => true
       case MarkOld(_, _) => true
       case Finished(outcome) =>
         && !outcome.LoggedIn?
         && (outcome.Issued? ==> outcome.id in s.db.tokens && s.db.tokens[outcome.id].sessionId != sid)
       case _ => false
  }

  lemma DoomedAdvance(s: State, step: Step, sid: SessionId)
    requires Enabled(s, step) && step.Advance? && Doomed(s, step.h, sid)
    ensures Doomed(Next(s, step), step.h, sid)
  {
    StepEvolves(s, step);
  }

  lemma DoomedStep(s: State, step: Step, h: HandlerId, sid: SessionId)
    requires Enabled(s, step) && Doomed(s, h, sid)
    ensures Doomed(Next(s, step), h, sid)
  {
    if step.Advance? && step.h == h {
      DoomedAdvance(s, step, sid);
    } else {
      StepEvolves(s, step);
      assert Next(s, step).handlers[h] == s.handlers[h] || Next(s, step).handlers[h] == Finished(Aborted);
    }
  }

  lemma {:induction false} DoomedRun(s: State, steps: seq<Step>, t: State, h: HandlerId, sid: SessionId)
    requires Run(s, steps, t) && Doomed(s, h, sid)
    ensures Doomed(t, h, sid)
    decreases |steps|
  {
    if steps != [] {
      DoomedStep(s, steps[0], h, sid);
      DoomedRun(Next(s, steps[0]), steps[1..], t, h, sid);
    }
  }

  /** Revocation is final: the session is never active again, for any user and at any time. */
  lemma RevokedForever(s: State, steps: seq<Step>, t: State, sid: SessionId, u: UserId, at: Time)
    requires Revoked(s, sid) && Run(s, steps, t)
    ensures Revoked(t, sid) && !IsSessionActive(t.db, u, sid, at)
  {
    RunEvolves(s, steps, t);
  }

  /** No refresh that starts after a revocation ever issues a token of that session, not even
      from a token that a refresh in flight at the time creates later. */
  lemma NoRefreshAfterRevocation(s: State, steps: seq<Step>, t: State, h: HandlerId, tok: TokenId, sid: SessionId)
    requires Revoked(s, sid) && h in s.handlers && s.handlers[h] == FindToken(tok) && Run(s, steps, t)
    ensures h in t.handlers
    ensures forall id | Issues(t.handlers[h], id) :: id in t.db.tokens && t.db.tokens[id].sessionId != sid
  {
    DoomedRun(s, steps, t, h, sid);
  }

  /** Logging out everywhere and resetting a password both revoke every session the user has. */
  lemma BulkRevocation(s: State, step: Step, sid: SessionId)
    requires Enabled(s, step) && sid in s.db.sessions
    requires || (step.LogoutAll? && s.db.sessions[sid].userId == step.user)
             || (step.ResetPassword? && ResetUsable(s.db, step.id, s.now)
                 && s.db.sessions[sid].userId == s.db.resets[step.id].userId)
    ensures Revoked(Next(s, step), sid)
  {}

  /** A refresh with a token of a revoked session, which it had not read yet when it was revoked. */
  ghost predicate Turned(s: State, h: HandlerId, sid: SessionId) {
    && Revoked(s, sid) && h in s.handlers
    && match s.handlers[h]
       case FindToken(tok) => tok in s.db.tokens && s.db.tokens[tok].sessionId == sid
       case FindSession(_, stored) => stored.sessionId == sid
       case FindSuccessor(_, stored, session, _) => stored.sessionId == sid && session.revoked
       case EndTokens(_, _, why) => why != Logout
       case EndSession(_, _, why) => why != Logout
       case MarkOld(_, _) => true
       case Finished(outcome) => outcome.Rejected? || outcome == Aborted
       case _ => false
  }

  lemma TurnedStep(s: State, step: Step, h: HandlerId, sid: SessionId)
    requires Enabled(s, step) && Turned(s, h, sid)
    ensures Turned(Next(s, step), h, sid)
  {
    StepEvolves(s, step);
    if !(step.Advance? && step.h == h) {
      assert Next(s, step).handlers[h] == s.handlers[h] || Next(s, step).handlers[h] == Finished(Aborted);
    }
  }

  lemma {:induction false} TurnedRun(s: State, steps: seq<Step>, t: State, h: HandlerId, sid: SessionId)
    requires Run(s, steps, t) && Turned(s, h, sid)
    ensures Turned(t, h, sid)
    decreases |steps|
  {
    if steps != [] {
      TurnedStep(s, steps[0], h, sid);
      TurnedRun(Next(s, steps[0]), steps[1..], t, h, sid);
    }
  }

  /** A refresh that presents a token of a revoked session is rejected, in every interleaving. */
  lemma RevokedRefused(s: State, steps: seq<Step>, t: State, h: HandlerId, tok: TokenId)
    requires tok in s.db.tokens && Revoked(s, s.db.tokens[tok].sessionId)
    requires h in s.handlers && s.handlers[h] == FindToken(tok) && Run(s, steps, t)
    ensures h in t.handlers && forall id :: !Issues(t.handlers[h], id)
    ensures t.handlers[h].Finished? ==> t.handlers[h].outcome.Rejected? || t.handlers[h].outcome == Aborted
  {
    TurnedRun(s, steps, t, h, s.db.tokens[tok].sessionId);
  }

  /** A step that ends every session of a user: logging out everywhere, or a password reset. */
  predicate EndsSessionsOf(s: State, step: Step, user: UserId) {
    || (step.LogoutAll? && step.user == user)
    || (step.ResetPassword? && ResetUsable(s.db, step.id, s.now) && s.db.resets[step.id].userId == user)
  }

  /** After such a step, whatever follows: the user's sessions of that time are never active again,
      and every refresh that then starts with a token of one, even a token created meanwhile by a
      refresh in flight, is rejected. */
  lemma BulkRevocationIsFinal(s: State, step: Step, before: seq<Step>, u: State, h: HandlerId, tok: TokenId,
                              after: seq<Step>, t: State, user: UserId, sid: SessionId, at: Time)
    requires Enabled(s, step) && EndsSessionsOf(s, step, user)
    requires sid in s.db.sessions && s.db.sessions[sid].userId == user
    requires Run(Next(s, step), before, u) && Run(u, after, t)
    requires tok in u.db.tokens && u.db.tokens[tok].sessionId == sid
    requires h in u.handlers && u.handlers[h] == FindToken(tok)
    ensures !IsSessionActive(u.db, user, sid, at) && !IsSessionActive(t.db, user, sid, at)
    ensures h in t.handlers && forall id :: !Issues(t.handlers[h], id)
    ensures t.handlers[h].Finished? ==> t.handlers[h].outcome.Rejected? || t.handlers[h].outcome == Aborted
  {
    BulkRevocation(s, step, sid);
    RevokedForever(Next(s, step), before, u, sid, user, at);
    RevokedForever(u, after, t, sid, user, at);
    RevokedRefused(u, after, t, h, tok);
  }

  // ---------- Logout ----------

  /** A logout request for a known token. */
  ghost predicate LoggingOut(s: State, h: HandlerId, tok: TokenId) {
    && h in s.handlers && tok in s.db.tokens
    && match s.handlers[h]
       case FindForLogout(t) => t == tok
       case EndTokens(_, sid, why) => sid == s.db.tokens[tok].sessionId && why == Logout
       case EndSession(_, sid, why) => sid == s.db.tokens[tok].sessionId && why == Logout
       case Finished(outcome) => outcome == Aborted || (outcome == LoggedOut && SessionRevoked(s, tok))
       case _ => false
  }

  lemma LogoutStep(s: State, step: Step, h: HandlerId, tok: TokenId)
    requires Inv(s) && Enabled(s, step) && LoggingOut(s, h, tok)
    ensures LoggingOut(Next(s, step), h, tok)
  {
    StepEvolves(s, step);
    if step.Advance? && step.h == h { LogoutAdvances(s, step, tok); }
  }

  lemma LogoutAdvances(s: State, step: Step, tok: TokenId)
    requires Inv(s) && Enabled(s, step) && step.Advance? && LoggingOut(s, step.h, tok)
    ensures LoggingOut(Next(s, step), step.h, tok)
  {
    assert HandlerOk(s.db, s.handlers[step.h]);
  }

  lemma {:induction false} LogoutRun(s: State, steps: seq<Step>, t: State, h: HandlerId, tok: TokenId)
    requires Inv(s) && Run(s, steps, t) && LoggingOut(s, h, tok)
    ensures LoggingOut(t, h, tok)
    decreases |steps|
  {
    if steps != [] {
      LogoutStep(s, steps[0], h, tok);
      StepKeepsInv(s, steps[0]);
      LogoutRun(Next(s, steps[0]), steps[1..], t, h, tok);
    }
  }

  /** A logout that ran to its end has revoked the session, whatever ran in between. */
  lemma LogoutRevokes(s: State, steps: seq<Step>, t: State, h: HandlerId, tok: TokenId)
    requires Reachable(s) && Run(s, steps, t)
    requires h in s.handlers && s.handlers[h] == FindForLogout(tok) && tok in s.db.tokens
    ensures h in t.handlers && tok in t.db.tokens
    ensures t.handlers[h].Finished? && t.handlers[h].outcome != Aborted ==>
              t.handlers[h].outcome == LoggedOut && Revoked(t, s.db.tokens[tok].sessionId)
  {
    ReachableInv(s);
    LogoutRun(s, steps, t, h, tok);
    RunEvolves(s, steps, t);
  }

  /** Rotation never extends a session: over a run its end stays where the login put it. */
  lemma RotationNeverExtends(s: State, steps: seq<Step>, t: State, sid: SessionId)
    requires Reachable(s) && Run(s, steps, t) && sid in s.db.sessions
    ensures sid in t.db.sessions && t.db.sessions[sid].expiresAt == s.db.sessions[sid].expiresAt
    ensures forall id | id in t.db.tokens && t.db.tokens[id].sessionId == sid ::
              t.db.tokens[id].expiresAt <= s.db.sessions[sid].expiresAt
  {
    ReachableInv(s);
    RunKeepsInv(s, steps, t);
    RunEvolves(s, steps, t);
  }

  // ---------- Password resets ----------

  /** How often a reset link works in a run. */
  function Resets(s: State, steps: seq<Step>, id: ResetId): nat
    decreases |steps|
  {
    if steps == [] || !Enabled(s, steps[0]) then 0
    else (if steps[0] == ResetPassword(id) && ResetUsable(s.db, id, s.now) then 1 else 0)
         + Resets(Next(s, steps[0]), steps[1..], id)
  }

  lemma ResetsStep(s: State, step: Step, id: ResetId)
    requires Enabled(s, step) && id in s.db.resets && s.db.resets[id].used
    ensures id in Next(s, step).db.resets && Next(s, step).db.resets[id].used
  {
    if step.Advance? {
      assert Exec(s.db, s.now, s.handlers[step.h], step.newId, step.requested).0.resets == s.db.resets;
    }
  }

  /** A reset link works at most once, and never after it has been used. */
  lemma {:induction false} ResetOnce(s: State, steps: seq<Step>, id: ResetId)
    ensures Resets(s, steps, id) <= 1
    ensures id in s.db.resets && s.db.resets[id].used ==> Resets(s, steps, id) == 0
    decreases |steps|
  {
    if steps != [] && Enabled(s, steps[0]) {
      ResetOnce(Next(s, steps[0]), steps[1..], id);
      if id in s.db.resets && s.db.resets[id].used { ResetsStep(s, steps[0], id); }
    }
  }
}
