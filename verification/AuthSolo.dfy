/** A refresh request that nothing interrupts, statement by statement in the machine: it does what
    the refresh endpoint does as a program. */
module AuthSolo {
  import opened Optional
  import opened Auth
  import opened AuthInvariant
  import opened AuthRuns
  import opened AuthServices

  /** A request under way in a run, with ids that are free. */
  ghost predicate Solo(s: State, steps: seq<Step>, t: State, h: HandlerId, requested: Time, free: nat) {
    && Run(s, steps, t) && h in t.handlers
    && t.now < requested && free !in t.db.tokens && free !in t.db.sessions
  }

  lemma Executed(s: State, steps: seq<Step>, t: State, h: HandlerId, requested: Time, free: nat)
    returns (more: seq<Step>, u: State)
    requires Solo(s, steps, t, h, requested, free) && !t.handlers[h].Finished?
    ensures Run(s, more, u) && h in u.handlers && u.now == t.now
    ensures u.db == Exec(t.db, t.now, t.handlers[h], free, requested).0
    ensures u.handlers[h] == Exec(t.db, t.now, t.handlers[h], free, requested).1
  {
    var step := Advance(h, free, requested);
    RunSnoc(s, steps, t, step);
    more, u := steps + [step], Next(t, step);
  }

  /** The statements that revoke a session, and the mark on the token that gave it away. */
  lemma SoloEnds(s: State, steps: seq<Step>, t: State, h: HandlerId, requested: Time, free: nat,
                 tok: TokenId, sid: SessionId, why: Why)
    returns (more: seq<Step>, u: State)
    requires Solo(s, steps, t, h, requested, free) && t.handlers[h] == EndTokens(tok, sid, why) && why != Logout
    requires sid in t.db.sessions && tok in t.db.tokens
    ensures Run(s, more, u) && h in u.handlers && u.handlers[h] == Finished(Rejected(Refused))
    ensures u.db == if why == Reuse then MarkReused(Ended(t.db, sid), tok) else Ended(t.db, sid)
  {
    more, u := Executed(s, steps, t, h, requested, free);
    more, u := Executed(s, more, u, h, requested, free);
    if why == Reuse { more, u := Executed(s, more, u, h, requested, free); }
  }

  /** The first reads: the token and its session. */
  lemma SoloFinds(s: State, h: HandlerId, tok: TokenId, requested: Time, free: nat)
    returns (steps: seq<Step>, t: State)
    requires h !in s.handlers && s.now < requested && free !in s.db.tokens && free !in s.db.sessions
    requires TablesOk(s.db)
    ensures Run(s, steps, t) && h in t.handlers && t.db == s.db && t.now == s.now
    ensures tok !in s.db.tokens ==> t.handlers[h] == Finished(Rejected(Unknown))
    ensures tok in s.db.tokens ==>
              && s.db.tokens[tok].sessionId in s.db.sessions
              && t.handlers[h] == AfterFind(tok, s.db.tokens[tok], s.db.sessions[s.db.tokens[tok].sessionId], s.now)
  {
    assert Run(s, [], s);
    RunSnoc(s, [], s, StartRefresh(h, tok));
    t := Next(s, StartRefresh(h, tok));
    steps, t := Executed(s, [] + [StartRefresh(h, tok)], t, h, requested, free);
    if tok in s.db.tokens {
      assert s.db.tokens[tok].sessionId in s.db.sessions;
      steps, t := Executed(s, steps, t, h, requested, free);
    }
  }

  /** The account check and the session's end, at a later time. */
  lemma SoloAccount(s: State, steps: seq<Step>, t: State, h: HandlerId, requested: Time, issuing: Time,
                    tok: TokenId, session: Session, newId: nat)
    returns (more: seq<Step>, u: State)
    requires Solo(s, steps, t, h, requested, newId) && t.now <= issuing < requested && tok in t.db.tokens
    requires t.handlers[h] == FindUser(tok, t.db.tokens[tok], session)
    ensures Run(s, more, u) && h in u.handlers && u.db == t.db && u.now == issuing
    ensures u.handlers[h] == if !UserActive(t.db, session.userId) then Finished(Rejected(Inactive))
                             else if session.expiresAt <= issuing then Finished(Rejected(TooLate))
                             else CreateToken(tok, t.db.tokens[tok], session, Earlier(session.expiresAt, requested))
  {
    RunSnoc(s, steps, t, Tick(issuing));
    more, u := Executed(s, steps + [Tick(issuing)], Next(t, Tick(issuing)), h, requested, newId);
  }

  /** The writes. */
  lemma SoloWrites(s: State, steps: seq<Step>, t: State, h: HandlerId, requested: Time,
                   tok: TokenId, newId: nat, spare: nat)
    returns (more: seq<Step>, u: State)
    requires Solo(s, steps, t, h, requested, newId)
    requires spare !in t.db.tokens && spare !in t.db.sessions && spare != newId
    requires tok in t.db.tokens && t.db.tokens[tok].sessionId in t.db.sessions
    requires var session := t.db.sessions[t.db.tokens[tok].sessionId];
             t.handlers[h] == CreateToken(tok, t.db.tokens[tok], session, Earlier(session.expiresAt, requested))
    ensures Run(s, more, u) && h in u.handlers
    ensures if HasSuccessor(t.db.tokens, tok) then
              u.handlers[h] == Finished(Rejected(Refused)) && u.db == Ended(t.db, t.db.tokens[tok].sessionId)
            else
              && u.handlers[h] == Finished(Issued(newId))
              && u.db == RevokeToken(RotatedDb(t.db, tok, newId, requested), tok)
  {
    more, u := Executed(s, steps, t, h, requested, newId);
    if u.handlers[h].EndTokens? {
      more, u := SoloEnds(s, more, u, h, requested, newId, tok, t.db.tokens[tok].sessionId, Conflict);
    } else {
      assert u.db == RotatedDb(t.db, tok, newId, requested);
      more, u := Executed(s, more, u, h, requested, spare);
    }
  }

  /** From the account check on. */
  lemma SoloIssues(s: State, steps: seq<Step>, t: State, h: HandlerId, requested: Time, issuing: Time,
                   tok: TokenId, newId: nat, spare: nat)
    returns (more: seq<Step>, u: State)
    requires Solo(s, steps, t, h, requested, newId) && t.now <= issuing < requested
    requires spare !in t.db.tokens && spare !in t.db.sessions && spare != newId
    requires tok in t.db.tokens && t.db.tokens[tok].sessionId in t.db.sessions
    requires t.handlers[h] == FindUser(tok, t.db.tokens[tok], t.db.sessions[t.db.tokens[tok].sessionId])
    ensures Run(s, more, u) && h in u.handlers
    ensures var sid := t.db.tokens[tok].sessionId;
            if !UserActive(t.db, t.db.sessions[sid].userId) then
              u.handlers[h] == Finished(Rejected(Inactive)) && u.db == t.db
            else if t.db.sessions[sid].expiresAt <= issuing then
              u.handlers[h] == Finished(Rejected(TooLate)) && u.db == t.db
            else if HasSuccessor(t.db.tokens, tok) then
              u.handlers[h] == Finished(Rejected(Refused)) && u.db == Ended(t.db, sid)
            else
              && u.handlers[h] == Finished(Issued(newId))
              && u.db == RevokeToken(RotatedDb(t.db, tok, newId, requested), tok)
  {
    var session := t.db.sessions[t.db.tokens[tok].sessionId];
    more, u := SoloAccount(s, steps, t, h, requested, issuing, tok, session, newId);
    if u.handlers[h].CreateToken? { more, u := SoloWrites(s, more, u, h, requested, tok, newId, spare); }
  }

  /** From the read of the successors on. */
  lemma SoloChecks(s: State, steps: seq<Step>, t: State, h: HandlerId, requested: Time, issuing: Time,
                   tok: TokenId, newId: nat, spare: nat)
    returns (more: seq<Step>, u: State)
    requires Solo(s, steps, t, h, requested, newId) && TablesOk(t.db) && t.now <= issuing < requested
    requires spare !in t.db.tokens && spare !in t.db.sessions && spare != newId
    requires tok in t.db.tokens && t.db.tokens[tok].sessionId in t.db.sessions
    requires t.handlers[h] == FindSuccessor(tok, t.db.tokens[tok], t.db.sessions[t.db.tokens[tok].sessionId], t.now)
    requires !t.db.tokens[tok].reused && t.now < t.db.sessions[t.db.tokens[tok].sessionId].expiresAt
    ensures Run(s, more, u) && Result(t.db, tok, t.now, issuing, requested, newId, u, h)
  {
    var sid := t.db.tokens[tok].sessionId;
    more, u := Executed(s, steps, t, h, requested, newId);
    if u.handlers[h].EndTokens? {
      more, u := SoloEnds(s, more, u, h, requested, newId, tok, sid, Reuse);
    } else if u.handlers[h].FindUser? {
      more, u := SoloIssues(s, more, u, h, requested, issuing, tok, newId, spare);
    }
  }

  /** What becomes of a refresh of a known token, in terms of the tables it found. */
  ghost predicate Result(db: Db, tok: TokenId, now: Time, issuing: Time, requested: Time, newId: TokenId,
                         u: State, h: HandlerId)
    requires tok in db.tokens && db.tokens[tok].sessionId in db.sessions
  {
    && h in u.handlers && u.handlers[h].Finished?
    && (u.handlers[h] == Finished(Issued(newId)) <==> MayRefresh(db, tok, now) && issuing < SessionEnd(db, tok))
    && (u.handlers[h] == Finished(Issued(newId)) ==> u.db == RevokeToken(RotatedDb(db, tok, newId, requested), tok))
    && (u.handlers[h] != Finished(Issued(newId)) ==>
          u.handlers[h].outcome.Rejected? && RefusalCosts(db, tok, now, issuing, u.db))
  }

  /** Uninterrupted, the machine's refresh meets the contract of the endpoint: it issues exactly for
      the newest token of a live session of an active account, with exactly that effect on the
      tables, and a token that was rotated before costs its session. */
  lemma SoloRefresh(s: State, h: HandlerId, tok: TokenId, issuing: Time, requested: Time, newId: nat, spare: nat)
    returns (steps: seq<Step>, t: State)
    requires TablesOk(s.db) && h !in s.handlers && s.now <= issuing < requested && newId != spare
    requires newId !in s.db.tokens && newId !in s.db.sessions && spare !in s.db.tokens && spare !in s.db.sessions
    ensures Run(s, steps, t) && h in t.handlers && t.handlers[h].Finished?
    ensures tok !in s.db.tokens ==> t.handlers[h].outcome.Rejected? && t.db == s.db
    ensures tok in s.db.tokens ==>
              && s.db.tokens[tok].sessionId in s.db.sessions
              && Result(s.db, tok, s.now, issuing, requested, newId, t, h)
  {
    steps, t := SoloFinds(s, h, tok, requested, newId);
    if tok in s.db.tokens {
      var sid := s.db.tokens[tok].sessionId;
      if t.handlers[h].EndTokens? {
        steps, t := SoloEnds(s, steps, t, h, requested, newId, tok, sid, Expired);
      } else if t.handlers[h].FindSuccessor? {
        steps, t := SoloChecks(s, steps, t, h, requested, issuing, tok, newId, spare);
      }
    }
  }
}
