/** What the realtime handlers do to every socket: who joins, who leaves and who is told what. */
module PresenceMeaning {
  import opened Optional
  import opened EventWindow
  import opened Presence

  /** Another socket of the user is in the project's room. */
  predicate ElsewhereIn(h: Hub, s: SocketId, p: ProjectId, user: UserId) {
    exists t | t in h :: t != s && p in h[t].joined && h[t].userId == user
  }

  /** A socket keeps all it had, and is sent some more. */
  predicate OnlyHears(before: Connection, after: Connection, more: seq<Message>) {
    after == before.(inbox := before.inbox + more)
  }

  /** Every event of the socket is counted, in the minute of the first one. */
  predicate Counted(before: Connection, after: Connection, now: Time) {
    after.window == if before.window.startedAt + 60000 <= now then Window(now, 1)
                    else Window(before.window.startedAt, before.window.count + 1)
  }

  /** Why a subscription is refused, the first reason that applies. */
  lemma SubscribeRefusals(h: Hub, s: SocketId, payload: Option<ProjectId>, authorization: Authorization, now: Time)
    requires s in h
    ensures var (after, reply) := Subscribe(h, s, payload, authorization, now);
            var limited := now < h[s].window.startedAt + 60000 && 120 <= h[s].window.count;
            var full := payload.Some? && payload.value !in h[s].subscriptions && 100 <= |h[s].subscriptions|;
            && (reply == RateLimited <==> limited)
            && (reply == InvalidPayload <==> !limited && payload == None)
            && (reply == SubscriptionLimit <==> !limited && full)
            && (reply == InternalError <==> !limited && payload.Some? && !full && authorization == Failing)
            && (reply == Presence.Forbidden <==> !limited && payload.Some? && !full && authorization == Denied)
            && (!reply.Subscribed? ==> && after == h[s := h[s].(window := after[s].window)]
                                       && Counted(h[s], after[s], now))
  {}

  /** An accepted subscription: the socket is in the room once more; everybody in the room, the
      newcomer included, is told of a user who was not there before; and the newcomer is told who
      is there, itself included. */
  lemma SubscribeMeans(h: Hub, s: SocketId, p: ProjectId, now: Time)
    requires s in h && Subscribe(h, s, Some(p), Allowed, now).1.Subscribed?
    ensures var (after, reply) := Subscribe(h, s, Some(p), Allowed, now);
            var user, was := h[s].userId, h[s];
            var news := if p in was.subscriptions || p in was.joined || ElsewhereIn(h, s, p, user) then []
                        else [Event(p, user, true)];
            && after.Keys == h.Keys
            && reply.users == (set t | t in h && p in h[t].joined :: h[t].userId) + {user}
            && Counted(was, after[s], now)
            && after[s] == Connection(
                 user, was.joined + {p}, if p in was.subscriptions then was.subscriptions else was.subscriptions + [p],
                 after[s].window, was.inbox + news + [Ack(p, reply.users)], was.views)
            && forall t | t in h && t != s :: OnlyHears(h[t], after[t], if p in h[t].joined then news else [])
  {
    var counted := Count(h, s, now);
    var user := h[s].userId;
    var wasOnline := user in Online(counted, p);
    CountedRooms(h, s, now, p);
    assert wasOnline <==> p in h[s].joined || ElsewhereIn(h, s, p, user);
    AdmitMeans(counted, s, p, wasOnline);
  }

  lemma CountedRooms(h: Hub, s: SocketId, now: Time, p: ProjectId)
    requires s in h
    ensures Online(Count(h, s, now), p) == Online(h, p)
  {
    var counted := Count(h, s, now);
    assert forall t | t in h :: counted[t].joined == h[t].joined && counted[t].userId == h[t].userId;
    forall u ensures u in Online(counted, p) <==> u in Online(h, p) {}
  }

  lemma JoinedRoom(h: Hub, s: SocketId, p: ProjectId)
    requires s in h
    ensures Online(Join(h, s, p), p) == Online(h, p) + {h[s].userId}
  {
    var joined := Join(h, s, p);
    forall u ensures u in Online(joined, p) <==> u in Online(h, p) || u == h[s].userId {
      if t :| t in h && p in h[t].joined && h[t].userId == u { assert t in joined && p in joined[t].joined; }
      assert s in joined && p in joined[s].joined && joined[s].userId == h[s].userId;
    }
  }

  lemma AdmitMeans(h: Hub, s: SocketId, p: ProjectId, wasOnline: bool)
    requires s in h
    ensures var (after, reply) := Admit(h, s, p, wasOnline);
            var user, was := h[s].userId, h[s];
            var news := if p in was.subscriptions || wasOnline then [] else [Event(p, user, true)];
            && after.Keys == h.Keys && reply.Subscribed?
            && reply.users == Online(h, p) + {user}
            && after[s] == Connection(
                 user, was.joined + {p}, if p in was.subscriptions then was.subscriptions else was.subscriptions + [p],
                 was.window, was.inbox + news + [Ack(p, reply.users)], was.views)
            && forall t | t in h && t != s :: OnlyHears(h[t], after[t], if p in h[t].joined then news else [])
  {
    var joined := Join(h, s, p);
    var announced := if p !in h[s].subscriptions && !wasOnline then Publish(joined, p, h[s].userId, true) else joined;
    JoinedRoom(h, s, p);
    if p !in h[s].subscriptions && !wasOnline {
      PostKeepsRooms(joined, InRoom(joined, p), Event(p, h[s].userId, true), p);
    }
  }

  /** Unsubscribing: the socket is out of the room and forgets the subscription, and everybody left
      in the room is told, unless the user is still there with another socket. */
  lemma UnsubscribeMeans(h: Hub, s: SocketId, payload: Option<ProjectId>, now: Time)
    requires s in h
    ensures var (after, reply) := Unsubscribe(h, s, payload, now);
            var user, was := h[s].userId, h[s];
            var limited := now < was.window.startedAt + 60000 && 120 <= was.window.count;
            && after.Keys == h.Keys && Counted(was, after[s], now)
            && (reply == RateLimited <==> limited)
            && (reply == InvalidPayload <==> !limited && payload == None)
            && (reply == Unsubscribed <==> !limited && payload.Some?)
            && (!(reply == Unsubscribed && payload.value in was.subscriptions) ==>
                  after == h[s := was.(window := after[s].window)])
            && (reply == Unsubscribed && payload.value in was.subscriptions ==>
                  var p := payload.value;
                  var news := if ElsewhereIn(h, s, p, user) then [] else [Event(p, user, false)];
                  && after[s].joined == was.joined - {p}
                  && (forall q :: q in after[s].subscriptions <==> q in was.subscriptions && q != p)
                  && after[s] == was.(joined := after[s].joined, subscriptions := after[s].subscriptions,
                                      window := after[s].window)
                  && forall t | t in h && t != s :: OnlyHears(h[t], after[t], if p in h[t].joined then news else []))
  {
    var counted := Count(h, s, now);
    if payload.Some? && payload.value in h[s].subscriptions {
      var p, user := payload.value, h[s].userId;
      var left := Leave(counted, s, p);
      assert forall t | t in h && t != s :: left[t] == h[t];
      assert p !in left[s].joined;
      assert user in Online(left, p) <==> ElsewhereIn(h, s, p, user);
    }
  }

  /** What the closing of a socket sends to another one, room by room. */
  function Farewells(h: Hub, ps: seq<ProjectId>, user: UserId, t: SocketId): seq<Message>
    requires t in h
  {
    if ps == [] then []
    else (if ps[0] in h[t].joined && user !in Online(h, ps[0]) then [Event(ps[0], user, false)] else [])
         + Farewells(h, ps[1..], user, t)
  }

  lemma {:induction false} FarewellsSame(h: Hub, h': Hub, ps: seq<ProjectId>, user: UserId, t: SocketId)
    requires t in h && h'.Keys == h.Keys && forall v | v in h :: Same(h'[v], h[v])
    ensures Farewells(h', ps, user, t) == Farewells(h, ps, user, t)
    decreases |ps|
  {
    if ps != [] {
      FarewellsSame(h, h', ps[1..], user, t);
      forall u ensures u in Online(h', ps[0]) <==> u in Online(h, ps[0]) {}
    }
  }

  lemma {:induction false} OfflineAllMeans(h: Hub, ps: seq<ProjectId>, user: UserId, t: SocketId)
    requires t in h
    ensures t in OfflineAll(h, ps, user)
    ensures OnlyHears(h[t], OfflineAll(h, ps, user)[t], Farewells(h, ps, user, t))
    decreases |ps|
  {
    if ps == [] {
      assert h[t].inbox + [] == h[t].inbox;
    } else {
      var next := OfflineWhenAbsent(h, ps[0], user);
      OfflineAllMeans(next, ps[1..], user, t);
      FarewellsSame(h, next, ps[1..], user, t);
      var first := if ps[0] in h[t].joined && user !in Online(h, ps[0]) then [Event(ps[0], user, false)] else [];
      assert next[t] == h[t].(inbox := h[t].inbox + first);
      var rest := Farewells(h, ps[1..], user, t);
      assert h[t].inbox + first + rest == h[t].inbox + (first + rest);
    }
  }

  lemma {:induction false} FarewellsMean(h: Hub, ps: seq<ProjectId>, user: UserId, t: SocketId, m: Message)
    requires t in h
    ensures m in Farewells(h, ps, user, t)
            <==> && m.Event? && m.user == user && !m.online && m.project in ps && m.project in h[t].joined
                 && user !in Online(h, m.project)
    decreases |ps|
  {
    if ps != [] { FarewellsMean(h, ps[1..], user, t, m); }
  }

  /** A closed socket is gone, and every other one hears, and only hears, that the user is offline
      in each room they shared in which the user has no other socket. */
  lemma DisconnectMeans(h: Hub, s: SocketId, t: SocketId, m: Message)
    requires s in h && t in h && t != s
    ensures Disconnect(h, s).Keys == h.Keys - {s}
    ensures var before, after := h[t], Disconnect(h, s)[t];
            && before.inbox <= after.inbox && after == before.(inbox := after.inbox)
            && (m in after.inbox[|before.inbox|..] <==>
                  && m.Event? && m.user == h[s].userId && !m.online
                  && m.project in h[s].subscriptions && m.project in before.joined
                  && !ElsewhereIn(h, s, m.project, h[s].userId))
  {
    var rest, ps, user := h - {s}, h[s].subscriptions, h[s].userId;
    OfflineAllKeeps(rest, ps, user);
    OfflineAllMeans(rest, ps, user, t);
    FarewellsMean(rest, ps, user, t, m);
    assert forall v | v in rest :: rest[v] == h[v];
    assert Disconnect(h, s)[t].inbox[|h[t].inbox|..] == Farewells(rest, ps, user, t);
    assert user in Online(rest, m.project) <==> ElsewhereIn(h, s, m.project, user);
  }

  /** The client's part: the oldest message is handled and gone. An acknowledgement replaces what is
      shown for its project, an event adds or drops one user, and no other project is touched. */
  lemma DeliverMeans(h: Hub, s: SocketId, p: ProjectId)
    requires s in h && h[s].inbox != []
    ensures var before, m, after := h[s], h[s].inbox[0], Deliver(h, s);
            && after == h[s := after[s]]
            && after[s] == before.(inbox := before.inbox[1..], views := after[s].views)
            && (m.project != p ==> (p in after[s].views <==> p in before.views)
                                   && (p in before.views ==> after[s].views[p] == before.views[p]))
            && (m.Ack? && m.project == p ==> p in after[s].views && after[s].views[p] == View(m.users, true))
            && (m.Event? && m.project == p ==>
                  var shown := if p in before.views then before.views[p] else View({}, false);
                  && p in after[s].views && after[s].views[p].acknowledged == shown.acknowledged
                  && forall u :: u in after[s].views[p].users
                                 <==> if u == m.user then m.online else u in shown.users)
  {}

  /** A hook that is mounted again shows nobody until it is acknowledged; nothing else changes. */
  lemma RemountMeans(h: Hub, s: SocketId, p: ProjectId)
    requires s in h
    ensures Remount(h, s, p) == h[s := h[s].(views := h[s].views[p := View({}, false)])]
  {}
}
