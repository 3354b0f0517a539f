/** The realtime handlers and the presence hook of the web client as objects. */
module PresenceServices {
  import opened Optional
  import opened EventWindow
  import opened Presence

  class RealtimeService {
    var hub: Hub

    constructor ()
      ensures hub == map[] && Inv(hub)
    {
      hub := map[];
    }

    method OnConnection(s: SocketId, user: UserId, now: Time)
      requires Inv(hub) && s !in hub
      modifies this
      ensures hub == Connect(old(hub), s, user, now) && Inv(hub)
      ensures hub == old(hub)[s := Connection(user, {}, [], Window(now, 0), [], map[])]
    {
      RunKeepsInv(hub, [ConnectStep(s, user, now)], Connect(hub, s, user, now));
      hub := hub[s := Connection(user, {}, [], Window(now, 0), [], map[])];
    }

    method ConsumeSubscriptionEvent(s: SocketId, now: Time) returns (accepted: bool)
      requires s in hub
      modifies this
      ensures hub == Count(old(hub), s, now) && accepted == Consume(old(hub)[s].window, now).1
      // An event is refused when 120 were counted in the minute that began with the first of them.
      ensures var window := old(hub)[s].window;
              && (accepted <==> window.startedAt + 60000 <= now || window.count < 120)
              && hub == old(hub)[s := old(hub)[s].(window :=
                   if window.startedAt + 60000 <= now then Window(now, 1)
                   else Window(window.startedAt, window.count + 1))]
    {
      var window := hub[s].window;
      if now - window.startedAt >= WINDOW_MS {
        window := Window(now, 0);
      }
      window := window.(count := window.count + 1);
      hub := hub[s := hub[s].(window := window)];
      accepted := window.count <= MAX_SUBSCRIPTION_EVENTS_PER_MINUTE;
    }

    method PublishPresence(p: ProjectId, user: UserId, online: bool)
      modifies this
      ensures hub == Publish(old(hub), p, user, online)
    {
      hub := map s | s in hub ::
        if p in hub[s].joined then hub[s].(inbox := hub[s].inbox + [Event(p, user, online)]) else hub[s];
    }

    method PublishOfflineWhenAbsent(p: ProjectId, user: UserId)
      modifies this
      ensures hub == OfflineWhenAbsent(old(hub), p, user)
    {
      if user !in Online(hub, p) {
        PublishPresence(p, user, false);
      }
    }

    method OnSubscribe(s: SocketId, payload: Option<ProjectId>, authorization: Authorization, now: Time)
      returns (reply: Reply)
      requires Inv(hub) && s in hub
      modifies this
      ensures (hub, reply) == Subscribe(old(hub), s, payload, authorization, now)
      ensures Inv(hub)
      ensures reply.Subscribed? <==>
                && Consume(old(hub)[s].window, now).1 && payload.Some? && authorization.Allowed?
                && (payload.value in old(hub)[s].joined
                    || |old(hub)[s].subscriptions| < MAX_PROJECT_SUBSCRIPTIONS_PER_SOCKET)
      ensures reply.Subscribed? ==> Observes(hub, s, payload.value)
    {
      RunKeepsInv(hub, [SubscribeStep(s, payload, authorization, now)],
                  Subscribe(hub, s, payload, authorization, now).0);
      SubscribeObserves(hub, s, payload, authorization, now);
      assert ConnectionOk(hub[s]);
      var accepted := ConsumeSubscriptionEvent(s, now);
      if !accepted {
        return RateLimited;
      }
      if payload.None? {
        return InvalidPayload;
      }
      var p, user, known := payload.value, hub[s].userId, hub[s].subscriptions;
      if p !in known && |known| >= MAX_PROJECT_SUBSCRIPTIONS_PER_SOCKET {
        return SubscriptionLimit;
      }
      if authorization.Failing? {
        return InternalError;
      }
      if authorization.Denied? {
        return Forbidden;
      }
      var wasOnline := user in Online(hub, p);
      reply := JoinProject(s, p, wasOnline);
    }

    /** The rest of the subscribe handler, given what it read before joining. */
    method JoinProject(s: SocketId, p: ProjectId, wasOnline: bool) returns (reply: Reply)
      requires s in hub
      modifies this
      ensures (hub, reply) == Admit(old(hub), s, p, wasOnline)
    {
      var user, isNew := hub[s].userId, p !in hub[s].subscriptions;
      hub := hub[s := hub[s].(joined := hub[s].joined + {p})];
      if isNew {
        hub := hub[s := hub[s].(subscriptions := hub[s].subscriptions + [p])];
      }
      assert hub == Join(old(hub), s, p);
      if isNew && !wasOnline {
        PublishPresence(p, user, true);
      }
      var users := Online(hub, p);
      Emit(s, Ack(p, users));
      reply := Subscribed(users);
    }

    method Emit(s: SocketId, m: Message)
      requires s in hub
      modifies this
      ensures hub == Post(old(hub), {s}, m)
    {
      hub := hub[s := hub[s].(inbox := hub[s].inbox + [m])];
    }

    method OnUnsubscribe(s: SocketId, payload: Option<ProjectId>, now: Time) returns (reply: Reply)
      requires Inv(hub) && s in hub
      modifies this
      ensures (hub, reply) == Unsubscribe(old(hub), s, payload, now)
      ensures Inv(hub)
      ensures reply.Unsubscribed? <==> Consume(old(hub)[s].window, now).1 && payload.Some?
      ensures reply.Unsubscribed? ==> s in hub && payload.value !in hub[s].joined
    {
      RunKeepsInv(hub, [UnsubscribeStep(s, payload, now)], Unsubscribe(hub, s, payload, now).0);
      assert ConnectionOk(hub[s]);
      var accepted := ConsumeSubscriptionEvent(s, now);
      if !accepted {
        return RateLimited;
      }
      if payload.None? {
        return InvalidPayload;
      }
      var p := payload.value;
      if p in hub[s].subscriptions {
        hub := hub[s := hub[s].(joined := hub[s].joined - {p}, subscriptions := Without(hub[s].subscriptions, p))];
        PublishOfflineWhenAbsent(p, hub[s].userId);
      }
      reply := Unsubscribed;
    }

    method OnDisconnect(s: SocketId)
      requires Inv(hub) && s in hub
      modifies this
      ensures hub == Disconnect(old(hub), s)
      ensures Inv(hub) && hub.Keys == old(hub).Keys - {s}
    {
      RunKeepsInv(hub, [DisconnectStep(s)], Disconnect(hub, s));
      OfflineAllKeeps(hub - {s}, hub[s].subscriptions, hub[s].userId);
      var projects, user := hub[s].subscriptions, hub[s].userId;
      hub := hub - {s};
      var i := 0;
      while i < |projects|
        invariant 0 <= i <= |projects|
        invariant OfflineAll(hub, projects[i..], user) == Disconnect(old(hub), s)
      {
        assert projects[i..][1..] == projects[i + 1..];
        PublishOfflineWhenAbsent(projects[i], user);
        i := i + 1;
      }
    }
  }

  /** The state of the presence hook for one project. */
  class ProjectPresence {
    const projectId: ProjectId
    var onlineUserIds: set<UserId>
    ghost var acknowledged: bool

    ghost function Shown(): View
      reads this
    {
      View(onlineUserIds, acknowledged)
    }

    constructor (projectId: ProjectId)
      ensures this.projectId == projectId && Shown() == MOUNTED
      ensures onlineUserIds == {} && !acknowledged
    {
      this.projectId, onlineUserIds, acknowledged := projectId, {}, false;
    }

    method OnPresence(project: ProjectId, user: UserId, online: bool)
      modifies this
      ensures Shown() == Handle(old(Shown()), Event(project, user, online), projectId)
      ensures acknowledged == old(acknowledged)
      ensures forall u :: u in onlineUserIds <==>
                if project == projectId && u == user then online else u in old(onlineUserIds)
    {
      if project != projectId {
        return;
      }
      var users := onlineUserIds;
      if online {
        users := users + {user};
      } else {
        users := users - {user};
      }
      onlineUserIds := users;
    }

    method OnAcknowledged(users: set<UserId>)
      modifies this
      ensures Shown() == Handle(old(Shown()), Ack(projectId, users), projectId)
      ensures onlineUserIds == users && acknowledged
    {
      onlineUserIds, acknowledged := users, true;
    }

    /** Any stretch of what the connection carries: afterwards the hook shows its fold. */
    method OnMessages(inbox: seq<Message>)
      modifies this
      ensures Shown() == Fold(old(Shown()), inbox, projectId)
    {
      var i := 0;
      while i < |inbox|
        invariant 0 <= i <= |inbox|
        invariant Fold(Shown(), inbox[i..], projectId) == Fold(old(Shown()), inbox, projectId)
      {
        assert inbox[i..][1..] == inbox[i + 1..];
        match inbox[i] {
          case Event(project, user, online) => OnPresence(project, user, online);
          case Ack(project, users) => if project == projectId { OnAcknowledged(users); }
        }
        i := i + 1;
      }
    }
  }
}
