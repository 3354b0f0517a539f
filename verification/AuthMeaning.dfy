/** What the outcomes of the session machine mean: why a refresh succeeded, and what a request does
    when nothing comes in between. */
module AuthMeaning {
  import opened Optional
  import opened Auth
  import opened AuthInvariant
  import opened AuthRuns
  import opened AuthServices

  /** The first statement a waiting handler executes in a run. */
  lemma {:induction false} NextAdvance(s: State, steps: seq<Step>, t: State, h: HandlerId)
    returns (pre: seq<Step>, u: State, step: Step, post: seq<Step>)
    requires Run(s, steps, t) && h in s.handlers && h in t.handlers
    requires t.handlers[h] != s.handlers[h] && t.handlers[h] != Finished(Aborted)
    ensures Run(s, pre, u) && h in u.handlers && u.handlers[h] == s.handlers[h]
    ensures step.Advance? && step.h == h && Enabled(u, step) && Run(Next(u, step), post, t)
    decreases |steps|
  {
    step, post := steps[0], steps[1..];
    if step.Advance? && step.h == h {
      pre, u := [], s;
    } else {
      var next := Next(s, step);
      if step.Abort? && step.h == h { FinishedStays(next, post, t, h); }
      pre, u, step, post := NextAdvance(next, post, t, h);
      pre := [steps[0]] + pre;
    }
  }

  ghost predicate Leads(s: State, t: State) { exists steps :: Run(s, steps, t) }

  lemma LeadsOn(u: State, step: Step, pre: seq<Step>, v: State)
    requires Enabled(u, step) && Run(Next(u, step), pre, v)
    ensures Leads(u, v)
  {
    assert ([step] + pre)[1..] == pre;
    assert Run(u, [step] + pre, v);
  }

  /** What the handler of a successful refresh saw: it read the token at `a`, the session and the clock
      at `b`, the account and the clock at `d`, and issued at `e`. */
  ghost predicate Earned(s: State, tok: TokenId, a: State, b: State, d: State, e: State, t: State, id: TokenId) {
    && Leads(s, a) && Leads(a, b) && Leads(b, d) && Leads(d, e) && Leads(e, t)
    && tok in a.db.tokens && !a.db.tokens[tok].revoked && !a.db.tokens[tok].reused
    && var sid := a.db.tokens[tok].sessionId;
       && sid in b.db.sessions && !b.db.sessions[sid].revoked
       && b.now < b.db.sessions[sid].expiresAt && b.now < a.db.tokens[tok].expiresAt
       && b.db.sessions[sid].userId in d.db.users && d.db.users[b.db.sessions[sid].userId]
       && d.now < b.db.sessions[sid].expiresAt
       && id !in e.db.tokens && (forall x | x in e.db.tokens :: e.db.tokens[x].rotatedFrom != Some(tok))
       && id in t.db.tokens && t.db.tokens[id].rotatedFrom == Some(tok)
       && t.db.tokens[id].sessionId == sid && t.db.tokens[id].userId == b.db.sessions[sid].userId
       && t.db.tokens[id].expiresAt <= b.db.sessions[sid].expiresAt
       && tok in t.db.tokens && t.db.tokens[tok].revoked
  }

  /** A handler on its way to revoke a session or past that: it never issues a token. */
  predicate Closing(hd: Handler) {
    hd.EndTokens? || hd.EndSession? || hd.MarkOld? || (hd.Finished? && !hd.outcome.Issued?)
  }

  lemma {:induction false} ClosingStays(s: State, steps: seq<Step>, t: State, h: HandlerId)
    requires Run(s, steps, t) && h in s.handlers && Closing(s.handlers[h])
    ensures h in t.handlers && Closing(t.handlers[h])
    decreases |steps|
  {
    if steps != [] {
      ClosingStep(s, steps[0], h);
      ClosingStays(Next(s, steps[0]), steps[1..], t, h);
    }
  }

  lemma ClosingStep(s: State, step: Step, h: HandlerId)
    requires Enabled(s, step) && h in s.handlers && Closing(s.handlers[h])
    ensures h in Next(s, step).handlers && Closing(Next(s, step).handlers[h])
  {}

  /** The next statement of a refresh that will have issued a token. */
  lemma Executes(s: State, steps: seq<Step>, t: State, h: HandlerId, id: TokenId)
    returns (u: State, step: Step, rest: seq<Step>)
    requires Run(s, steps, t) && h in s.handlers && !s.handlers[h].Finished?
    requires h in t.handlers && t.handlers[h] == Finished(Issued(id))
    ensures Leads(s, u) && h in u.handlers && u.handlers[h] == s.handlers[h]
    ensures step.Advance? && step.h == h && Enabled(u, step) && Run(Next(u, step), rest, t)
    ensures Next(u, step).db == Exec(u.db, u.now, s.handlers[h], step.newId, step.requested).0
    ensures Next(u, step).handlers[h] == Exec(u.db, u.now, s.handlers[h], step.newId, step.requested).1
    ensures !Closing(Next(u, step).handlers[h])
    ensures Next(u, step).handlers[h].Finished? ==> Next(u, step).handlers[h] == Finished(Issued(id))
  {
    var pre;
    pre, u, step, rest := NextAdvance(s, steps, t, h);
    var v := Next(u, step);
    if Closing(v.handlers[h]) {
      ClosingStays(v, rest, t, h);
    } else if v.handlers[h].Finished? {
      FinishedStays(v, rest, t, h);
    }
  }

  lemma Joins(s: State, step: Step, v: State)
    requires Enabled(s, step) && Leads(Next(s, step), v)
    ensures Leads(s, v)
  {
    var pre :| Run(Next(s, step), pre, v);
    LeadsOn(s, step, pre, v);
  }

  lemma {:induction false} RunJoins(s: State, steps: seq<Step>, u: State, v: State)
    requires Run(s, steps, u) && Leads(u, v)
    ensures Leads(s, v)
    decreases |steps|
  {
    if steps != [] {
      RunJoins(Next(s, steps[0]), steps[1..], u, v);
      Joins(s, steps[0], v);
    }
  }

  lemma LeadsVia(s: State, u: State, v: State)
    requires Leads(s, u) && Leads(u, v)
    ensures Leads(s, v)
  {
    var steps :| Run(s, steps, u);
    RunJoins(s, steps, u, v);
  }

  /** The first half: reading the token, the session and the successors. */
  lemma ReadsGoodToken(s: State, steps: seq<Step>, t: State, h: HandlerId, tok: TokenId, id: TokenId)
    returns (a: State, b: State, u: State, rest: seq<Step>)
    requires Run(s, steps, t) && h in s.handlers && s.handlers[h] == FindToken(tok)
    requires h in t.handlers && t.handlers[h] == Finished(Issued(id))
    ensures Leads(s, a) && Leads(a, b) && Leads(b, u) && Run(u, rest, t)
    ensures tok in a.db.tokens && !a.db.tokens[tok].revoked && !a.db.tokens[tok].reused
    ensures var stored := a.db.tokens[tok];
            && stored.sessionId in b.db.sessions
            && var session := b.db.sessions[stored.sessionId];
               && !session.revoked && b.now < session.expiresAt && b.now < stored.expiresAt
               && h in u.handlers && u.handlers[h] == FindUser(tok, stored, session)
  {
    var x, y, z, r1, r2, c;
    a, x, r1 := Executes(s, steps, t, h, id);
    b, y, r2 := Executes(Next(a, x), r1, t, h, id);
    Joins(a, x, b);
    c, z, rest := Executes(Next(b, y), r2, t, h, id);
    u := Next(c, z);
    Joins(b, y, c);
    assert Run(u, [], u) && Leads(u, u);
    Joins(c, z, u);
    LeadsVia(b, c, u);
  }

  /** Then it reads the account, and goes on only for an active one. */
  lemma ReadsAccount(u: State, steps: seq<Step>, t: State, h: HandlerId, tok: TokenId, stored: Token,
                     session: Session, id: TokenId)
    returns (d: State, v: State, expiresAt: Time, rest: seq<Step>)
    requires Run(u, steps, t) && h in u.handlers && u.handlers[h] == FindUser(tok, stored, session)
    requires h in t.handlers && t.handlers[h] == Finished(Issued(id))
    ensures Leads(u, d) && Leads(d, v) && Run(v, rest, t)
    ensures session.userId in d.db.users && d.db.users[session.userId] && d.now < session.expiresAt
    ensures h in v.handlers && v.handlers[h] == CreateToken(tok, stored, session, expiresAt)
    ensures expiresAt <= session.expiresAt
  {
    var x;
    d, x, rest := Executes(u, steps, t, h, id);
    v := Next(d, x);
    expiresAt := v.handlers[h].expiresAt;
    LeadsOn(d, x, [], v);
  }

  /** Then it writes the new token, and revokes the old one. */
  lemma WritesToken(v: State, steps: seq<Step>, t: State, h: HandlerId, tok: TokenId, stored: Token,
                    session: Session, expiresAt: Time, id: TokenId)
    returns (e: State, w: State, rest: seq<Step>)
    requires Run(v, steps, t) && h in v.handlers && v.handlers[h] == CreateToken(tok, stored, session, expiresAt)
    requires h in t.handlers && t.handlers[h] == Finished(Issued(id))
    ensures Leads(v, e) && Leads(e, w) && Run(w, rest, t)
    ensures h in w.handlers && w.handlers[h] == RevokeOld(tok, id)
    ensures id !in e.db.tokens && forall x | x in e.db.tokens :: e.db.tokens[x].rotatedFrom != Some(tok)
    ensures id in w.db.tokens
    ensures w.db.tokens[id] == Token(session.userId, stored.sessionId, expiresAt, Some(tok), false, false)
  {
    var y, z, r, f;
    e, y, rest := Executes(v, steps, t, h, id);
    w := Next(e, y);
    LeadsOn(e, y, [], w);
    f, z, r := Executes(w, rest, t, h, id);
  }

  lemma RevokesOld(w: State, steps: seq<Step>, t: State, h: HandlerId, tok: TokenId, id: TokenId)
    requires Run(w, steps, t) && h in w.handlers && w.handlers[h] == RevokeOld(tok, id)
    requires h in t.handlers && t.handlers[h] == Finished(Issued(id)) && tok in w.db.tokens
    ensures tok in t.db.tokens && t.db.tokens[tok].revoked && TokensEvolve(w.db.tokens, t.db.tokens)
  {
    var f, z, rest := Executes(w, steps, t, h, id);
    LeadsEvolve(w, f);
    RunEvolves(Next(f, z), rest, t);
    RunEvolves(w, steps, t);
  }

  lemma LeadsEvolve(s: State, t: State)
    requires Leads(s, t)
    ensures SessionsEvolve(s.db.sessions, t.db.sessions) && TokensEvolve(s.db.tokens, t.db.tokens)
  {
    var steps :| Run(s, steps, t);
    RunEvolves(s, steps, t);
  }

  /** A refresh that issued a token had earned it, in every interleaving: the token was good when it
      was read, its session live when it was checked, the account active and the session not over
      when it came to issue, and nobody had rotated the token before. */
  lemma IssuedMeans(s: State, steps: seq<Step>, t: State, h: HandlerId, tok: TokenId, id: TokenId)
    returns (a: State, b: State, d: State, e: State)
    requires Run(s, steps, t) && h in s.handlers && s.handlers[h] == FindToken(tok)
    requires h in t.handlers && t.handlers[h] == Finished(Issued(id))
    ensures Earned(s, tok, a, b, d, e, t, id)
  {
    var u, v, w, expiresAt, rest;
    a, b, u, rest := ReadsGoodToken(s, steps, t, h, tok, id);
    var stored := a.db.tokens[tok];
    var session := b.db.sessions[stored.sessionId];
    d, v, expiresAt, rest := ReadsAccount(u, rest, t, h, tok, stored, session, id);
    e, w, rest := WritesToken(v, rest, t, h, tok, stored, session, expiresAt, id);
    LeadsVia(b, u, d);
    LeadsVia(d, v, e);
    LeadsVia(a, b, d);
    LeadsVia(a, d, e);
    LeadsVia(a, e, w);
    LeadsEvolve(a, w);
    RevokesOld(w, rest, t, h, tok, id);
    LeadsVia(e, w, t);
  }

  /** An account that is not active when the request reads it gets no token, whatever follows. */
  lemma InactiveRefused(s: State, step: Step, steps: seq<Step>, t: State, h: HandlerId)
    requires h in s.handlers && s.handlers[h].FindUser? && step.Advance? && step.h == h && Enabled(s, step)
    requires var u := s.handlers[h].session.userId; u !in s.db.users || !s.db.users[u]
    requires Run(Next(s, step), steps, t)
    ensures h in t.handlers && t.handlers[h] == Finished(Rejected(Inactive)) && Next(s, step).db == s.db
  {
    FinishedStays(Next(s, step), steps, t, h);
  }

  // ---------- Sessions ----------

  /** A login that completes makes a session for its user, and a token that is good for a refresh,
      for as long as was asked. */
  lemma LoginMeans(s: State, step: Step, v: UserId, at: Time)
    requires Inv(s) && step.Advance? && Enabled(s, step) && s.handlers[step.h].CreateFirstToken?
    ensures var hd, t := s.handlers[step.h], Next(s, step);
            && hd.sid in t.db.sessions && t.handlers[step.h] == Finished(LoggedIn(step.newId))
            && (t.db.sessions[hd.sid].revoked <==> hd.sid in s.db.sessions && s.db.sessions[hd.sid].revoked)
            && (IsSessionActive(t.db, v, hd.sid, at) <==>
                  && v == hd.user && at < hd.expiresAt && !t.db.sessions[hd.sid].revoked
                  && v in t.db.users && t.db.users[v])
            && (MayRefresh(t.db, step.newId, at) <==>
                  && at < hd.expiresAt && !t.db.sessions[hd.sid].revoked
                  && hd.user in t.db.users && t.db.users[hd.user])
  {
    assert HandlerOk(s.db, s.handlers[step.h]);
    var t := Next(s, step);
    NoSuccessorYet(s.db, step.newId);
    assert !HasSuccessor(t.db.tokens, step.newId) by {
      forall x | x in t.db.tokens ensures t.db.tokens[x].rotatedFrom != Some(step.newId) {}
    }
  }

  /** A login begins with a session of its own that nobody has revoked. */
  lemma LoginBegins(s: State, step: Step)
    requires step.Advance? && Enabled(s, step) && s.handlers[step.h].CreateSession?
    ensures var hd, t := s.handlers[step.h], Next(s, step);
            && t.handlers[step.h] == CreateFirstToken(hd.user, step.newId, hd.expiresAt)
            && t.db == s.db.(sessions := s.db.sessions[step.newId := Session(hd.user, hd.expiresAt, false)])
  {}

  /** Deactivating an account switches all its sessions off; activating it switches on exactly those
      that are neither revoked nor over, and only for their own user. */
  lemma AccountSwitches(s: State, sid: SessionId, v: UserId, at: Time)
    requires sid in s.db.sessions
    ensures var u := s.db.sessions[sid].userId;
            && !IsSessionActive(Next(s, SetUser(u, false)).db, v, sid, at)
            && (IsSessionActive(Next(s, SetUser(u, true)).db, v, sid, at) <==>
                  v == u && !s.db.sessions[sid].revoked && at < s.db.sessions[sid].expiresAt)
  {}

  /** Logging out everywhere or resetting a password leaves other users' sessions and all tokens
      alone; a used or expired reset link does nothing at all. */
  lemma BulkSparesOthers(s: State, step: Step, user: UserId, sid: SessionId)
    requires Enabled(s, step) && EndsSessionsOf(s, step, user)
    requires sid in s.db.sessions && s.db.sessions[sid].userId != user
    ensures var t := Next(s, step);
            && sid in t.db.sessions && t.db.sessions[sid] == s.db.sessions[sid]
            && t.db.tokens == s.db.tokens && t.db.users == s.db.users && t.handlers == s.handlers
  {}

  lemma DeadResetDoesNothing(s: State, id: ResetId)
    requires id in s.db.resets && (s.db.resets[id].used || s.db.resets[id].expiresAt <= s.now)
    ensures Next(s, ResetPassword(id)) == s
  {}
}
