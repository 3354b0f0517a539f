/** The auth repository and the refresh endpoint as objects: one request on its own, with the
    statements in program order. */
module AuthServices {
  import opened Optional
  import opened Auth
  import opened AuthInvariant

  /** The refresh a client is entitled to: the newest token of a live session. */
  predicate MayRefresh(db: Db, tok: TokenId, now: Time) {
    && tok in db.tokens && db.tokens[tok].sessionId in db.sessions
    && var stored, session := db.tokens[tok], db.sessions[db.tokens[tok].sessionId];
       && !stored.reused && !stored.revoked && now < stored.expiresAt
       && !session.revoked && now < session.expiresAt
       && UserActive(db, session.userId)
       && !HasSuccessor(db.tokens, tok)
  }

  /** Flags say nothing about who was rotated from whom. */
  lemma SameSuccessors(a: Tokens, b: Tokens, tok: TokenId)
    requires a.Keys == b.Keys && forall id | id in a :: b[id].rotatedFrom == a[id].rotatedFrom
    ensures HasSuccessor(b, tok) <==> HasSuccessor(a, tok)
  {
    if id :| id in a && a[id].rotatedFrom == Some(tok) { assert id in b; }
    if id :| id in b && b[id].rotatedFrom == Some(tok) { assert id in a; }
  }

  /** Revoking a token bars it from refreshes for good, and touches no other token and no session. */
  lemma RevokedTokenBarred(db: Db, id: TokenId, tok: TokenId, u: UserId, sid: SessionId, at: Time)
    requires id in db.tokens
    ensures var after := RevokeToken(db, id);
            && (MayRefresh(after, tok, at) <==> tok != id && MayRefresh(db, tok, at))
            && (IsSessionActive(after, u, sid, at) <==> IsSessionActive(db, u, sid, at))
  {
    SameSuccessors(db.tokens, RevokeToken(db, id).tokens, tok);
  }

  /** Marking a token as reused bars it for good as well, whatever else its row says. */
  lemma ReusedTokenBarred(db: Db, id: TokenId, tok: TokenId, u: UserId, sid: SessionId, at: Time)
    requires id in db.tokens
    ensures var after := MarkReused(db, id);
            && (MayRefresh(after, tok, at) <==> tok != id && MayRefresh(db, tok, at))
            && (IsSessionActive(after, u, sid, at) <==> IsSessionActive(db, u, sid, at))
  {
    SameSuccessors(db.tokens, MarkReused(db, id).tokens, tok);
  }

  /** Ending a session: it is active for nobody and none of its tokens refreshes; all others go on. */
  lemma EndedSessionBarred(db: Db, ended: SessionId, tok: TokenId, u: UserId, sid: SessionId, at: Time)
    requires ended in db.sessions
    ensures var after := RevokeSession(RevokeTokensOf(db, ended), ended);
            && (IsSessionActive(after, u, sid, at) <==> sid != ended && IsSessionActive(db, u, sid, at))
            && (MayRefresh(after, tok, at) <==> MayRefresh(db, tok, at) && db.tokens[tok].sessionId != ended)
  {
    SameSuccessors(db.tokens, RevokeTokensOf(db, ended).tokens, tok);
  }

  class AuthRepository {
    var db: Db

    constructor ()
      ensures db == Init.db
    {
      db := Init.db;
    }

    /** The unique index refuses a second successor; a login token is nobody's successor. */
    method CreateRefreshToken(id: TokenId, token: Token) returns (created: bool)
      requires id !in db.tokens
      modifies this
      ensures created <==> token.rotatedFrom.None? || !HasSuccessor(old(db).tokens, token.rotatedFrom.value)
      ensures db == if created then old(db).(tokens := old(db).tokens[id := token]) else old(db)
    {
      created := token.rotatedFrom.None? || !HasSuccessor(db.tokens, token.rotatedFrom.value);
      if created {
        db := db.(tokens := db.tokens[id := token]);
      }
    }

    method CreateSession(id: SessionId, session: Session)
      requires id !in db.sessions
      modifies this
      ensures db == old(db).(sessions := old(db).sessions[id := session])
    {
      db := db.(sessions := db.sessions[id := session]);
    }

    method RevokeRefreshToken(id: TokenId)
      requires id in db.tokens
      modifies this
      ensures db == RevokeToken(old(db), id)
    {
      db := db.(tokens := db.tokens[id := db.tokens[id].(revoked := true)]);
    }

    method RevokeSessionTokens(sid: SessionId)
      requires sid in db.sessions
      modifies this
      ensures db == RevokeSession(RevokeTokensOf(old(db), sid), sid)
    {
      db := RevokeTokensOf(db, sid);
      db := db.(sessions := db.sessions[sid := db.sessions[sid].(revoked := true)]);
    }

    method MarkAsReused(id: TokenId)
      requires id in db.tokens
      modifies this
      ensures db == MarkReused(old(db), id)
    {
      db := db.(tokens := db.tokens[id := db.tokens[id].(reused := true)]);
    }

    method ConsumePasswordResetToken(id: ResetId, now: Time) returns (user: Option<UserId>)
      modifies this
      ensures user.Some? <==> id in old(db).resets && !old(db).resets[id].used && now < old(db).resets[id].expiresAt
      ensures user.Some? ==> user == Some(old(db).resets[id].userId) && db == ConsumeReset(old(db), id)
      ensures user.Some? ==>
                && db.users == old(db).users && db.tokens == old(db).tokens && db.sessions.Keys == old(db).sessions.Keys
                && db.resets == old(db).resets[id := old(db).resets[id].(used := true)]
                && forall sid | sid in old(db).sessions :: db.sessions[sid] == old(db).sessions[sid].(
                     revoked := old(db).sessions[sid].revoked || old(db).sessions[sid].userId == user.value)
      ensures user.None? ==> db == old(db)
    {
      if !ResetUsable(db, id, now) {
        return None;
      }
      user := Some(db.resets[id].userId);
      db := db.(resets := db.resets[id := db.resets[id].(used := true)]);
      db := RevokeAllSessions(db, user.value);
    }
  }

  ghost predicate TablesOk(db: Db) { TokensOk(db) && PathsOk(db) }

  /** When the session of a token ends. */
  function SessionEnd(db: Db, tok: TokenId): Time
    requires tok in db.tokens && db.tokens[tok].sessionId in db.sessions
  {
    db.sessions[db.tokens[tok].sessionId].expiresAt
  }

  /** The token after a rotation. */
  function Rotated(db: Db, tok: TokenId, requested: Time): Token
    requires tok in db.tokens && db.tokens[tok].sessionId in db.sessions
  {
    var session := db.sessions[db.tokens[tok].sessionId];
    Token(session.userId, db.tokens[tok].sessionId, Earlier(session.expiresAt, requested), Some(tok), false, false)
  }

  /** A new session with its login token. */
  function LoggedInDb(db: Db, user: UserId, sid: SessionId, id: TokenId, expiresAt: Time): Db {
    db.(sessions := db.sessions[sid := Session(user, expiresAt, false)],
        tokens := db.tokens[id := Token(user, sid, expiresAt, None, false, false)])
  }

  /** The tokens of a rotation whose predecessor is `tok`. */
  function RotatedDb(db: Db, tok: TokenId, id: TokenId, requested: Time): Db
    requires tok in db.tokens && db.tokens[tok].sessionId in db.sessions
  {
    db.(tokens := db.tokens[id := Rotated(db, tok, requested)])
  }

  lemma RotatedTablesOk(db: Db, tok: TokenId, id: TokenId, requested: Time)
    requires TablesOk(db) && tok in db.tokens && id !in db.tokens && !HasSuccessor(db.tokens, tok)
    ensures db.tokens[tok].sessionId in db.sessions && TablesOk(RotatedDb(db, tok, id, requested))
  {
    assert db.tokens[tok].sessionId in db.sessions;
    NewTokenKeepsTables(db, id, Rotated(db, tok, requested));
  }

  lemma LoggedInTablesOk(db: Db, user: UserId, sid: SessionId, id: TokenId, expiresAt: Time)
    requires TablesOk(db) && sid !in db.sessions && id !in db.tokens
    ensures TablesOk(LoggedInDb(db, user, sid, id, expiresAt))
  {
    NewSessionKeepsTables(db, sid, Session(user, expiresAt, false));
    NewTokenKeepsTables(db.(sessions := db.sessions[sid := Session(user, expiresAt, false)]), id,
                        Token(user, sid, expiresAt, None, false, false));
  }

  /** A rotation goes on: its new token is good for a refresh, until it or the session ends. */
  lemma RotationContinues(db: Db, tok: TokenId, now: Time, id: TokenId, requested: Time, at: Time)
    requires TablesOk(db) && MayRefresh(db, tok, now) && id !in db.tokens
    ensures var after := RevokeToken(RotatedDb(db, tok, id, requested), tok);
            MayRefresh(after, id, at) <==> at < requested && at < SessionEnd(db, tok)
  {
    var after := RevokeToken(RotatedDb(db, tok, id, requested), tok);
    NoSuccessorYet(db, id);
    assert !HasSuccessor(after.tokens, id) by {
      forall x | x in after.tokens ensures after.tokens[x].rotatedFrom != Some(id) {
        if x in db.tokens { assert after.tokens[x].rotatedFrom == db.tokens[x].rotatedFrom; }
      }
    }
  }

  lemma NoSuccessorYet(db: Db, id: TokenId)
    requires TablesOk(db) && id !in db.tokens
    ensures !HasSuccessor(db.tokens, id)
  {
    if x :| x in db.tokens && db.tokens[x].rotatedFrom == Some(id) {
      assert db.tokens[x].sessionId in db.sessions;
      RotatedFromKnown(db, x);
    }
  }

  lemma RotatedFromKnown(db: Db, x: TokenId)
    requires TablesOk(db) && x in db.tokens && db.tokens[x].rotatedFrom.Some?
    ensures db.tokens[x].rotatedFrom.value in db.tokens
  {
    var sid := db.tokens[x].sessionId;
    assert HasPath(db.tokens, sid);
    var p :| IsPath(db.tokens, sid, p);
    var k :| 0 <= k < |p| && p[k] == x;
    if k > 0 { assert db.tokens[p[k]].rotatedFrom == Some(p[k - 1]); }
  }

  function Ended(db: Db, sid: SessionId): Db
    requires sid in db.sessions
  {
    RevokeSession(RevokeTokensOf(db, sid), sid)
  }

  /** What a refused refresh leaves behind. A session that is over is ended for good. While it lasts, a
      token that was never rotated costs nothing, a dead one that was rotated ends its session and is
      marked, and any rotated one ends the session if the account is active and issuing is in time. */
  ghost predicate RefusalCosts(db: Db, tok: TokenId, now: Time, issuing: Time, after: Db)
    requires tok in db.tokens && db.tokens[tok].sessionId in db.sessions
  {
    var stored, sid := db.tokens[tok], db.tokens[tok].sessionId;
    var session := db.sessions[sid];
    && (after == db || after == Ended(db, sid) || after == MarkReused(Ended(db, sid), tok))
    && (session.expiresAt <= now ==> after == Ended(db, sid))
    && (now < session.expiresAt && (!HasSuccessor(db.tokens, tok) || stored.reused) ==> after == db)
    && (&& now < session.expiresAt && !stored.reused && HasSuccessor(db.tokens, tok)
        && (stored.revoked || stored.expiresAt <= now || session.revoked)
        ==> after == MarkReused(Ended(db, sid), tok))
    && (HasSuccessor(db.tokens, tok) && UserActive(db, session.userId) && issuing < session.expiresAt ==>
          sid in after.sessions && after.sessions[sid].revoked)
  }

  datatype Issue = NewTokens(id: TokenId) | SessionExpired | AlreadyRotated

  class AuthService {
    const repository: AuthRepository

    constructor (repository: AuthRepository)
      ensures this.repository == repository
    {
      this.repository := repository;
    }

    /** `now` is when the request checks, `issuing` when it comes to issue. */
    method Refresh(refreshToken: Option<TokenId>, now: Time, issuing: Time, requested: Time, newId: TokenId)
      returns (issued: Option<TokenId>)
      requires TablesOk(repository.db) && newId !in repository.db.tokens && now <= issuing < requested
      modifies repository
      ensures TablesOk(repository.db)
      // Exactly the newest token of a session that lives on is rotated, and nothing else changes with it.
      ensures issued.Some? <==> && refreshToken.Some? && MayRefresh(old(repository.db), refreshToken.value, now)
                                && issuing < SessionEnd(old(repository.db), refreshToken.value)
      ensures issued.Some? ==>
                var tok := refreshToken.value;
                issued == Some(newId)
                && repository.db == RevokeToken(RotatedDb(old(repository.db), tok, newId, requested), tok)
      ensures issued.None? ==>
                if refreshToken.Some? && refreshToken.value in old(repository.db).tokens
                then RefusalCosts(old(repository.db), refreshToken.value, now, issuing, repository.db)
                else repository.db == old(repository.db)
      // A token that was rotated before costs its session, unless that ends before the issuing.
      ensures refreshToken.Some? ==>
                var tok := refreshToken.value;
                tok in old(repository.db).tokens && HasSuccessor(old(repository.db).tokens, tok) ==>
                  var sid := old(repository.db).tokens[tok].sessionId;
                  sid in repository.db.sessions
                  && (repository.db.sessions[sid].revoked
                      || !UserActive(old(repository.db), old(repository.db).sessions[sid].userId)
                      || old(repository.db).sessions[sid].expiresAt <= issuing)
      // Nobody else's session is touched.
      ensures forall sid | sid in old(repository.db).sessions ::
                sid in repository.db.sessions
                && (repository.db.sessions[sid] == old(repository.db).sessions[sid]
                    || (refreshToken.Some? && refreshToken.value in old(repository.db).tokens
                        && old(repository.db).tokens[refreshToken.value].sessionId == sid))
    {
      if refreshToken.None? || refreshToken.value !in repository.db.tokens {
        return None;
      }
      var tok := refreshToken.value;
      ghost var before := repository.db;
      var stored := repository.db.tokens[tok];
      assert stored.sessionId in repository.db.sessions;
      var session := repository.db.sessions[stored.sessionId];
      if session.expiresAt <= now {
        repository.RevokeSessionTokens(stored.sessionId);
        EndedTablesOk(before, stored.sessionId);
        return None;
      }
      if stored.reused {
        return None;
      }
      var successor := HasSuccessor(repository.db.tokens, tok);
      if stored.revoked || stored.expiresAt <= now || session.revoked {
        if successor {
          repository.RevokeSessionTokens(stored.sessionId);
          repository.MarkAsReused(tok);
          EndedTablesOk(before, stored.sessionId);
          MarkedTablesOk(RevokeSession(RevokeTokensOf(before, stored.sessionId), stored.sessionId), tok);
        }
        return None;
      }
      if !UserActive(repository.db, session.userId) {
        return None;
      }
      var issue := IssueSession(session.userId, Some(tok), issuing, requested, 0, newId);
      match issue {
        case NewTokens(id) =>
          RevokeKeepsTables(repository.db, tok);
          repository.RevokeRefreshToken(tok);
          issued := Some(id);
        case SessionExpired =>
          issued := None;
        case AlreadyRotated =>
          EndedTablesOk(before, stored.sessionId);
          repository.RevokeSessionTokens(stored.sessionId);
          issued := None;
      }
    }

    /** A login gets a session of its own; a rotation goes on with its session, and only as long. */
    method IssueSession(user: UserId, rotated: Option<TokenId>, now: Time, requested: Time,
                        newSession: SessionId, newId: TokenId) returns (issue: Issue)
      requires TablesOk(repository.db) && newId !in repository.db.tokens
      requires if rotated.Some? then rotated.value in repository.db.tokens
               && repository.db.tokens[rotated.value].userId == user
               else newSession !in repository.db.sessions
      modifies repository
      ensures TablesOk(repository.db)
      ensures issue.SessionExpired? <==>
                requested <= now || (rotated.Some? && SessionEnd(old(repository.db), rotated.value) <= now)
      ensures issue.AlreadyRotated? <==>
                !issue.SessionExpired? && rotated.Some? && HasSuccessor(old(repository.db).tokens, rotated.value)
      ensures issue.NewTokens? ==>
                && issue.id == newId
                && repository.db == if rotated.Some? then RotatedDb(old(repository.db), rotated.value, newId, requested)
                                    else LoggedInDb(old(repository.db), user, newSession, newId, requested)
      ensures !issue.NewTokens? ==> repository.db == old(repository.db)
    {
      var expiresAt, sid := requested, newSession;
      ghost var before := repository.db;
      if rotated.Some? {
        assert repository.db.tokens[rotated.value].sessionId in repository.db.sessions;
        sid := repository.db.tokens[rotated.value].sessionId;
        expiresAt := Earlier(repository.db.sessions[sid].expiresAt, requested);
      }
      if expiresAt <= now {
        return SessionExpired;
      }
      if rotated.None? {
        repository.CreateSession(newSession, Session(user, expiresAt, false));
        LoggedInTablesOk(before, user, newSession, newId, expiresAt);
      } else if !HasSuccessor(repository.db.tokens, rotated.value) {
        RotatedTablesOk(before, rotated.value, newId, requested);
      }
      var created := repository.CreateRefreshToken(newId, Token(user, sid, expiresAt, rotated, false, false));
      issue := if created then NewTokens(newId) else AlreadyRotated;
    }

    method Logout(refreshToken: Option<TokenId>)
      requires TablesOk(repository.db)
      modifies repository
      ensures TablesOk(repository.db)
      ensures refreshToken.Some? && refreshToken.value in old(repository.db).tokens ==>
                var sid := old(repository.db).tokens[refreshToken.value].sessionId;
                sid in repository.db.sessions && repository.db.sessions[sid].revoked
                && forall id | id in repository.db.tokens && repository.db.tokens[id].sessionId == sid ::
                     repository.db.tokens[id].revoked
      ensures refreshToken.None? || refreshToken.value !in old(repository.db).tokens ==>
                repository.db == old(repository.db)
    {
      if refreshToken.None? || refreshToken.value !in repository.db.tokens {
        return;
      }
      var sid := repository.db.tokens[refreshToken.value].sessionId;
      ghost var before := repository.db;
      assert before.tokens[refreshToken.value].sessionId in before.sessions;
      repository.RevokeSessionTokens(sid);
      EndedTablesOk(before, sid);
    }
  }

  lemma EndedTablesOk(db: Db, sid: SessionId)
    requires TablesOk(db) && sid in db.sessions
    ensures TablesOk(RevokeSession(RevokeTokensOf(db, sid), sid))
  {
    FlagsKeepTables(db, RevokeSession(RevokeTokensOf(db, sid), sid));
  }

  lemma RevokeKeepsTables(db: Db, tok: TokenId)
    requires TablesOk(db) && tok in db.tokens
    ensures TablesOk(RevokeToken(db, tok))
  {
    FlagsKeepTables(db, RevokeToken(db, tok));
  }

  lemma MarkedTablesOk(db: Db, tok: TokenId)
    requires TablesOk(db) && tok in db.tokens
    requires db.tokens[tok].sessionId in db.sessions && db.sessions[db.tokens[tok].sessionId].revoked
    ensures TablesOk(MarkReused(db, tok))
  {
    FlagsKeepTables(db, MarkReused(db, tok));
  }
}
