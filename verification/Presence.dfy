/** Who is in a project, as the server knows it from the rooms and as every subscribed client folds
    it from an acknowledgement and the presence events after it. A handler is one step; the client
    handles what one connection carries in order, at any later time. */
module Presence {
  import opened Optional
  import opened EventWindow

  type SocketId = nat
  type UserId = nat
  type ProjectId = nat

  const MAX_PROJECT_SUBSCRIPTIONS_PER_SOCKET := 100

  datatype Message =
    | Event(project: ProjectId, user: UserId, online: bool)
    | Ack(project: ProjectId, users: set<UserId>)

  /** What a client shows for a project, and whether it has been acknowledged since it was mounted. */
  datatype View = View(users: set<UserId>, acknowledged: bool)

  const MOUNTED := View({}, false)

  datatype Connection = Connection(
    userId: UserId, joined: set<ProjectId>, subscriptions: seq<ProjectId>, window: Window,
    inbox: seq<Message>, views: map<ProjectId, View>)

  type Hub = map<SocketId, Connection>

  // ---------- The client ----------

  function ViewOf(c: Connection, p: ProjectId): View { if p in c.views then c.views[p] else MOUNTED }

  function Handle(v: View, m: Message, p: ProjectId): View {
    if m.project != p then v
    else match m
      case Event(_, user, online) => v.(users := if online then v.users + {user} else v.users - {user})
      case Ack(_, users) => View(users, true)
  }

  function Fold(v: View, inbox: seq<Message>, p: ProjectId): View
    decreases |inbox|
  {
    if inbox == [] then v else Fold(Handle(v, inbox[0], p), inbox[1..], p)
  }

  /** What the client will show once it has handled all that is under way. */
  function Seen(c: Connection, p: ProjectId): View { Fold(ViewOf(c, p), c.inbox, p) }

  // ---------- The server ----------

  function InRoom(h: Hub, p: ProjectId): set<SocketId> { set s | s in h && p in h[s].joined }

  /** fetchSockets and the distinct users among them. */
  function Online(h: Hub, p: ProjectId): set<UserId> { set s | s in h && p in h[s].joined :: h[s].userId }

  function Post(h: Hub, room: set<SocketId>, m: Message): Hub {
    map s | s in h :: if s in room then h[s].(inbox := h[s].inbox + [m]) else h[s]
  }

  function Publish(h: Hub, p: ProjectId, user: UserId, online: bool): Hub {
    Post(h, InRoom(h, p), Event(p, user, online))
  }

  /** The part of publishOfflineWhenAbsent after the room has been read. */
  function OfflineAfter(h: Hub, p: ProjectId, user: UserId, listed: bool): Hub {
    if listed then h else Publish(h, p, user, false)
  }

  function OfflineWhenAbsent(h: Hub, p: ProjectId, user: UserId): Hub { OfflineAfter(h, p, user, user in Online(h, p)) }

  datatype Reply = Subscribed(users: set<UserId>) | Unsubscribed | RateLimited | InvalidPayload
                 | SubscriptionLimit | Forbidden | InternalError

  datatype Authorization = Allowed | Denied | Failing

  function Join(h: Hub, s: SocketId, p: ProjectId): Hub
    requires s in h
  {
    h[s := h[s].(joined := h[s].joined + {p},
                 subscriptions := if p in h[s].subscriptions then h[s].subscriptions else h[s].subscriptions + [p])]
  }

  /** The part of the subscribe handler after `wasOnline` has been read. */
  function Admit(h: Hub, s: SocketId, p: ProjectId, wasOnline: bool): (Hub, Reply)
    requires s in h
  {
    var joined := Join(h, s, p);
    var announced := if p !in h[s].subscriptions && !wasOnline then Publish(joined, p, h[s].userId, true) else joined;
    (Post(announced, {s}, Ack(p, Online(announced, p))), Subscribed(Online(announced, p)))
  }

  function Count(h: Hub, s: SocketId, now: Time): Hub
    requires s in h
  {
    h[s := h[s].(window := Consume(h[s].window, now).0)]
  }

  function Subscribe(h: Hub, s: SocketId, payload: Option<ProjectId>, authorization: Authorization,
                     now: Time): (Hub, Reply)
    requires s in h
  {
    var counted := Count(h, s, now);
    if !Consume(h[s].window, now).1 then (counted, RateLimited)
    else if payload.None? then (counted, InvalidPayload)
    else if payload.value !in h[s].subscriptions && |h[s].subscriptions| >= MAX_PROJECT_SUBSCRIPTIONS_PER_SOCKET then
      (counted, SubscriptionLimit)
    else match authorization
      case Failing => (counted, InternalError)
      case Denied => (counted, Forbidden)
      case Allowed => Admit(counted, s, payload.value, h[s].userId in Online(counted, payload.value))
  }

  /** Set.delete on an insertion-ordered set. */
  function Without(ps: seq<ProjectId>, p: ProjectId): (r: seq<ProjectId>)
    ensures forall q :: q in r <==> q in ps && q != p
    ensures |r| <= |ps|
  {
    if ps == [] then [] else (if ps[0] == p then [] else [ps[0]]) + Without(ps[1..], p)
  }

  function Leave(h: Hub, s: SocketId, p: ProjectId): Hub
    requires s in h
  {
    h[s := h[s].(joined := h[s].joined - {p}, subscriptions := Without(h[s].subscriptions, p))]
  }

  function Unsubscribe(h: Hub, s: SocketId, payload: Option<ProjectId>, now: Time): (Hub, Reply)
    requires s in h
  {
    var counted := Count(h, s, now);
    if !Consume(h[s].window, now).1 then (counted, RateLimited)
    else if payload.None? then (counted, InvalidPayload)
    else if payload.value !in h[s].subscriptions then (counted, Unsubscribed)
    else (OfflineWhenAbsent(Leave(counted, s, payload.value), payload.value, h[s].userId), Unsubscribed)
  }

  function OfflineAll(h: Hub, ps: seq<ProjectId>, user: UserId): Hub
    decreases |ps|
  {
    if ps == [] then h else OfflineAll(OfflineWhenAbsent(h, ps[0], user), ps[1..], user)
  }

  /** Socket.IO takes the socket out of its rooms before the handler runs. */
  function Disconnect(h: Hub, s: SocketId): Hub
    requires s in h
  {
    OfflineAll(h - {s}, h[s].subscriptions, h[s].userId)
  }

  // ---------- Runs ----------

  datatype Step =
    | ConnectStep(s: SocketId, user: UserId, now: Time)
    | SubscribeStep(s: SocketId, payload: Option<ProjectId>, authorization: Authorization, now: Time)
    | UnsubscribeStep(s: SocketId, payload: Option<ProjectId>, now: Time)
    | DisconnectStep(s: SocketId)
    | DeliverStep(s: SocketId)
    | RemountStep(s: SocketId, project: ProjectId)

  predicate Enabled(h: Hub, step: Step) {
    match step
    case ConnectStep(s, _, _) => s !in h
    case DeliverStep(s) => s in h && h[s].inbox != []
    case _ => step.s in h
  }

  function Connect(h: Hub, s: SocketId, user: UserId, now: Time): Hub {
    h[s := Connection(user, {}, [], Window(now, 0), [], map[])]
  }

  function Deliver(h: Hub, s: SocketId): Hub
    requires s in h && h[s].inbox != []
  {
    var c, m := h[s], h[s].inbox[0];
    h[s := c.(inbox := c.inbox[1..], views := c.views[m.project := Handle(ViewOf(c, m.project), m, m.project)])]
  }

  function Remount(h: Hub, s: SocketId, p: ProjectId): Hub
    requires s in h
  {
    h[s := h[s].(views := h[s].views[p := MOUNTED])]
  }

  function Next(h: Hub, step: Step): Hub
    requires Enabled(h, step)
  {
    match step
    case ConnectStep(s, user, now) => Connect(h, s, user, now)
    case SubscribeStep(s, payload, authorization, now) => Subscribe(h, s, payload, authorization, now).0
    case UnsubscribeStep(s, payload, now) => Unsubscribe(h, s, payload, now).0
    case DisconnectStep(s) => Disconnect(h, s)
    case DeliverStep(s) => Deliver(h, s)
    case RemountStep(s, p) => Remount(h, s, p)
  }

  ghost predicate Run(h: Hub, steps: seq<Step>, t: Hub)
    decreases |steps|
  {
    if steps == [] then h == t
    else Enabled(h, steps[0]) && Run(Next(h, steps[0]), steps[1..], t)
  }

  // ---------- The invariant ----------

  predicate Distinct(ps: seq<ProjectId>) { forall i, j | 0 <= i < j < |ps| :: ps[i] != ps[j] }

  ghost predicate ConnectionOk(c: Connection) {
    && Distinct(c.subscriptions) && |c.subscriptions| <= MAX_PROJECT_SUBSCRIPTIONS_PER_SOCKET
    && forall p :: p in c.joined <==> p in c.subscriptions
  }

  predicate Observes(h: Hub, s: SocketId, p: ProjectId) { s in h && p in h[s].joined && Seen(h[s], p).acknowledged }

  /** Every observer of the project, leaving out some sockets, is about to show these users. */
  ghost predicate AllSee(h: Hub, p: ProjectId, users: set<UserId>, except: set<SocketId>) {
    forall s | s !in except && Observes(h, s, p) :: Seen(h[s], p).users == users
  }

  ghost predicate InSync(h: Hub, p: ProjectId) { AllSee(h, p, Online(h, p), {}) }

  ghost predicate Inv(h: Hub) {
    && (forall s | s in h :: ConnectionOk(h[s]))
    && forall p :: InSync(h, p)
  }

  lemma {:induction false} FoldSnoc(v: View, inbox: seq<Message>, m: Message, p: ProjectId)
    ensures Fold(v, inbox + [m], p) == Handle(Fold(v, inbox, p), m, p)
    decreases |inbox|
  {
    if inbox == [] {
      assert (inbox + [m])[1..] == [];
    } else {
      assert (inbox + [m])[1..] == inbox[1..] + [m];
      FoldSnoc(Handle(v, inbox[0], p), inbox[1..], m, p);
    }
  }

  lemma PostSeen(h: Hub, room: set<SocketId>, m: Message, s: SocketId, p: ProjectId)
    requires s in h
    ensures var h' := Post(h, room, m);
            && s in h' && h'[s].joined == h[s].joined && h'[s].userId == h[s].userId
            && Seen(h'[s], p) == if s in room then Handle(Seen(h[s], p), m, p) else Seen(h[s], p)
  {
    if s in room { FoldSnoc(ViewOf(h[s], p), h[s].inbox, m, p); }
  }

  lemma PostKeepsRooms(h: Hub, room: set<SocketId>, m: Message, p: ProjectId)
    ensures InRoom(Post(h, room, m), p) == InRoom(h, p) && Online(Post(h, room, m), p) == Online(h, p)
  {
    var h' := Post(h, room, m);
    forall s | s in h ensures s in h' && h'[s].joined == h[s].joined && h'[s].userId == h[s].userId {}
    assert h'.Keys == h.Keys;
    forall u ensures u in Online(h', p) <==> u in Online(h, p) {}
  }

  /** Everybody in the room adds or drops the user; other projects are not touched. */
  lemma PublishSync(h: Hub, p: ProjectId, user: UserId, online: bool, q: ProjectId, users: set<UserId>,
                    except: set<SocketId>)
    requires AllSee(h, q, users, except)
    ensures AllSee(Publish(h, p, user, online), q,
                   if p != q then users else if online then users + {user} else users - {user}, except)
  {
    var h' := Publish(h, p, user, online);
    forall s | s !in except && Observes(h', s, q)
      ensures Seen(h'[s], q).users == if p != q then users else if online then users + {user} else users - {user}
    {
      PostSeen(h, InRoom(h, p), Event(p, user, online), s, q);
      assert Observes(h, s, q);
    }
  }

  // ---------- Subscribing ----------

  lemma JoinRooms(h: Hub, s: SocketId, p: ProjectId, q: ProjectId)
    requires s in h
    ensures Online(Join(h, s, p), q) == Online(h, q) + if q == p then {h[s].userId} else {}
    ensures forall users :: AllSee(h, q, users, {}) ==> AllSee(Join(h, s, p), q, users, if q == p then {s} else {})
  {
    var h' := Join(h, s, p);
    forall u ensures u in Online(h', q) <==> u in Online(h, q) || (q == p && u == h[s].userId) {
      assert q == p ==> s in h' && q in h'[s].joined && h'[s].userId == h[s].userId;
      if t :| t in h && q in h[t].joined && h[t].userId == u { assert t in h' && q in h'[t].joined; }
    }
    forall users, t | AllSee(h, q, users, {}) && t !in (if q == p then {s} else {}) && Observes(h', t, q)
      ensures Seen(h'[t], q).users == users
    {
      assert Observes(h, t, q);
    }
  }

  /** The acknowledgement puts the new observer right, whatever it showed before. */
  lemma AckSync(h: Hub, s: SocketId, p: ProjectId, q: ProjectId)
    requires s in h
    requires AllSee(h, q, Online(h, q), if q == p then {s} else {})
    ensures InSync(Post(h, {s}, Ack(p, Online(h, p))), q)
  {
    var m := Ack(p, Online(h, p));
    var h' := Post(h, {s}, m);
    PostKeepsRooms(h, {s}, m, q);
    forall t | Observes(h', t, q) ensures Seen(h'[t], q).users == Online(h, q) {
      PostSeen(h, {s}, m, t, q);
      if t != s || q != p { assert Observes(h, t, q); }
    }
  }

  /** `wasOnline` as it would be read now may differ from the one the handler read. It may say too
      little; that it says too much harms exactly when there is somebody to be misled. */
  predicate Misleading(h: Hub, s: SocketId, p: ProjectId, wasOnline: bool)
    requires s in h
  {
    wasOnline && h[s].userId !in Online(h, p) && exists t | t in InRoom(h, p) :: Observes(h, t, p)
  }

  lemma AdmitSync(h: Hub, s: SocketId, p: ProjectId, wasOnline: bool, q: ProjectId)
    requires s in h && ConnectionOk(h[s]) && InSync(h, q) && InSync(h, p)
    requires !Misleading(h, s, p, wasOnline)
    ensures InSync(Admit(h, s, p, wasOnline).0, q)
  {
    var user := h[s].userId;
    var joined := Join(h, s, p);
    JoinRooms(h, s, p, q);
    var except := if q == p then {s} else {};
    var announced := if p !in h[s].subscriptions && !wasOnline then Publish(joined, p, user, true) else joined;
    if announced != joined {
      PublishSync(joined, p, user, true, q, Online(h, q), except);
      PostKeepsRooms(joined, InRoom(joined, p), Event(p, user, true), q);
    } else if q == p && p in h[s].subscriptions {
      assert user in Online(h, p);
      assert Online(h, p) + {user} == Online(h, p);
    } else if q == p {
      if user in Online(h, p) { assert Online(h, p) + {user} == Online(h, p); }
      else { NobodyToMislead(h, s, p); }
    }
    assert AllSee(announced, q, Online(announced, q), except);
    AckSync(announced, s, p, q);
  }

  lemma NobodyToMislead(h: Hub, s: SocketId, p: ProjectId)
    requires s in h && forall t | t in InRoom(h, p) :: !Observes(h, t, p)
    ensures forall users :: AllSee(Join(h, s, p), p, users, {s})
  {
    var h' := Join(h, s, p);
    forall t | t != s ensures !Observes(h', t, p) {
      if Observes(h', t, p) { assert t in InRoom(h, p) && Observes(h, t, p); }
    }
  }

  /** Somebody who is watching does not learn of a user who joins unannounced. */
  lemma MisledObserver(h: Hub, s: SocketId, p: ProjectId, t: SocketId)
    requires s in h && InSync(h, p) && Observes(h, t, p) && t != s
    requires p !in h[s].joined && h[s].userId !in Online(h, p)
    ensures var joined := Join(h, s, p); !InSync(Post(joined, {s}, Ack(p, Online(joined, p))), p)
  {
    var joined := Join(h, s, p);
    var m := Ack(p, Online(joined, p));
    var after := Post(joined, {s}, m);
    JoinRooms(h, s, p, p);
    PostKeepsRooms(joined, {s}, m, p);
    PostSeen(joined, {s}, m, t, p);
    assert joined[t] == h[t] && Seen(h[t], p).users == Online(h, p);
    assert Observes(after, t, p) && Seen(after[t], p).users == Online(h, p) != Online(after, p);
  }

  /** The subscribe handler takes no step between reading `wasOnline` and joining here. If it
      did, a stale reading would leave the observers out of step exactly when it says that the user
      was there, the user is not, and somebody is watching: that observer never learns of the user. */
  lemma StaleReadExactlyWhen(h: Hub, s: SocketId, p: ProjectId, wasOnline: bool)
    requires Inv(h) && s in h
    ensures InSync(Admit(h, s, p, wasOnline).0, p) <==> !Misleading(h, s, p, wasOnline)
  {
    assert ConnectionOk(h[s]) && InSync(h, p);
    if Misleading(h, s, p, wasOnline) {
      var t :| t in InRoom(h, p) && Observes(h, t, p);
      assert p !in h[s].joined;
      MisledObserver(h, s, p, t);
    } else {
      AdmitSync(h, s, p, wasOnline, p);
    }
  }

  /** Nor between reading the users and acknowledging them: a stale list leaves the new observer out
      of step exactly when it differs from the users online. */
  lemma StaleAckExactlyWhen(h: Hub, s: SocketId, p: ProjectId, users: set<UserId>)
    requires s in h && p in h[s].joined && InSync(h, p)
    ensures InSync(Post(h, {s}, Ack(p, users)), p) <==> users == Online(h, p)
  {
    if users == Online(h, p) {
      AckSync(h, s, p, p);
    } else {
      var m := Ack(p, users);
      PostKeepsRooms(h, {s}, m, p);
      PostSeen(h, {s}, m, s, p);
      assert Observes(Post(h, {s}, m), s, p);
    }
  }

  // ---------- Leaving ----------

  lemma OfflineSync(h: Hub, p: ProjectId, user: UserId, q: ProjectId)
    requires AllSee(h, q, Online(h, q) + if q == p then {user} else {}, {})
    ensures InSync(OfflineWhenAbsent(h, p, user), q)
    ensures forall r :: Online(OfflineWhenAbsent(h, p, user), r) == Online(h, r)
  {
    var users := Online(h, q) + if q == p then {user} else {};
    if user in Online(h, p) {
      assert users == Online(h, q);
    } else {
      PublishSync(h, p, user, false, q, users, {});
      forall r ensures Online(OfflineWhenAbsent(h, p, user), r) == Online(h, r) {
        PostKeepsRooms(h, InRoom(h, p), Event(p, user, false), r);
      }
      assert (if q == p then users - {user} else users) == Online(h, q);
    }
  }

  /** When a user's socket has left and the room is read too early or too late, the observers end
      up out of step exactly when there are any and the reading differs from the room as it is. */
  lemma StaleOfflineExactlyWhen(h: Hub, p: ProjectId, user: UserId, listed: bool)
    requires AllSee(h, p, Online(h, p) + {user}, {})
    ensures InSync(OfflineAfter(h, p, user, listed), p)
            <==> (listed <==> user in Online(h, p)) || forall t | t in InRoom(h, p) :: !Observes(h, t, p)
  {
    var after := OfflineAfter(h, p, user, listed);
    if listed <==> user in Online(h, p) {
      OfflineSync(h, p, user, p);
    } else if t :| t in InRoom(h, p) && Observes(h, t, p) {
      StaleOfflineSeen(h, p, user, listed, t);
    } else {
      StaleOfflineUnseen(h, p, user, listed);
    }
  }

  lemma StaleOfflineSeen(h: Hub, p: ProjectId, user: UserId, listed: bool, t: SocketId)
    requires AllSee(h, p, Online(h, p) + {user}, {}) && Observes(h, t, p) && !(listed <==> user in Online(h, p))
    ensures !InSync(OfflineAfter(h, p, user, listed), p)
  {
    var after := OfflineAfter(h, p, user, listed);
    assert Seen(h[t], p).users == Online(h, p) + {user};
    if !listed {
      PostKeepsRooms(h, InRoom(h, p), Event(p, user, false), p);
      PostSeen(h, InRoom(h, p), Event(p, user, false), t, p);
    }
    assert Online(after, p) == Online(h, p) && Observes(after, t, p);
    assert user in Seen(after[t], p).users <==> listed;
  }

  lemma StaleOfflineUnseen(h: Hub, p: ProjectId, user: UserId, listed: bool)
    requires forall t | t in InRoom(h, p) :: !Observes(h, t, p)
    ensures InSync(OfflineAfter(h, p, user, listed), p)
  {
    var after := OfflineAfter(h, p, user, listed);
    forall t ensures !Observes(after, t, p) {
      if t in h {
        if !listed { PostSeen(h, InRoom(h, p), Event(p, user, false), t, p); }
        assert t in InRoom(h, p) <==> p in h[t].joined;
      }
    }
  }

  /** Announcing a departure from one project leaves what is shown of the others. */
  lemma OfflineElsewhere(h: Hub, p: ProjectId, user: UserId, q: ProjectId, users: set<UserId>)
    requires p != q && AllSee(h, q, users, {})
    ensures AllSee(OfflineWhenAbsent(h, p, user), q, users, {})
  {
    if user !in Online(h, p) { PublishSync(h, p, user, false, q, users, {}); }
  }

  lemma {:induction false} OfflineAllSync(h: Hub, ps: seq<ProjectId>, user: UserId, q: ProjectId)
    requires Distinct(ps) && AllSee(h, q, Online(h, q) + if q in ps then {user} else {}, {})
    ensures InSync(OfflineAll(h, ps, user), q)
    decreases |ps|
  {
    if ps == [] {
      assert Online(h, q) + {} == Online(h, q);
    } else {
      var h' := OfflineWhenAbsent(h, ps[0], user);
      if q == ps[0] {
        assert q !in ps[1..];
        OfflineSync(h, q, user, q);
        assert Online(h', q) + {} == Online(h', q);
      } else {
        assert q in ps <==> q in ps[1..];
        OfflineElsewhere(h, ps[0], user, q, Online(h, q) + if q in ps then {user} else {});
        PostKeepsRooms(h, InRoom(h, ps[0]), Event(ps[0], user, false), q);
      }
      OfflineAllSync(h', ps[1..], user, q);
    }
  }

  /** Taking a socket out of rooms only lets its user go, if at all, and tells nobody yet. */
  lemma GoneRooms(h: Hub, h': Hub, s: SocketId, q: ProjectId)
    requires s in h && InSync(h, q)
    requires forall t | t != s :: t in h' <==> t in h
    requires forall t | t in h && t != s :: h'[t] == h[t]
    requires s in h' ==> h'[s].userId == h[s].userId && h'[s].inbox == h[s].inbox && h'[s].views == h[s].views
    requires s in h' ==> h'[s].joined <= h[s].joined
    ensures AllSee(h', q, Online(h', q) + if q in h[s].joined then {h[s].userId} else {}, {})
  {
    var users := Online(h', q) + if q in h[s].joined then {h[s].userId} else {};
    forall u ensures u in users <==> u in Online(h, q) {
      if t :| t in h && q in h[t].joined && h[t].userId == u { assert t == s || (t in h' && q in h'[t].joined); }
      if t :| t in h' && q in h'[t].joined && h'[t].userId == u { assert t in h && q in h[t].joined; }
    }
    assert users == Online(h, q);
    forall t | Observes(h', t, q) ensures Seen(h'[t], q).users == users { assert Observes(h, t, q); }
  }

  lemma LeaveSync(h: Hub, s: SocketId, p: ProjectId, q: ProjectId)
    requires s in h && p in h[s].joined && InSync(h, q)
    ensures InSync(OfflineWhenAbsent(Leave(h, s, p), p, h[s].userId), q)
  {
    var h' := Leave(h, s, p);
    GoneRooms(h, h', s, q);
    if q != p && q in h[s].joined {
      assert s in h' && q in h'[s].joined;
      assert Online(h', q) + {h[s].userId} == Online(h', q) + {};
    }
    OfflineSync(h', p, h[s].userId, q);
  }

  lemma DisconnectSync(h: Hub, s: SocketId, q: ProjectId)
    requires s in h && ConnectionOk(h[s]) && InSync(h, q)
    ensures InSync(Disconnect(h, s), q)
  {
    GoneRooms(h, h - {s}, s, q);
    OfflineAllSync(h - {s}, h[s].subscriptions, h[s].userId, q);
  }

  // ---------- Every step ----------

  /** Replacing a connection by one with the same user and rooms that shows the same of `p`. */
  lemma SameView(h: Hub, s: SocketId, c: Connection, p: ProjectId)
    requires s in h && InSync(h, p)
    requires c.userId == h[s].userId && c.joined == h[s].joined
    requires Seen(c, p).acknowledged ==> Seen(c, p) == Seen(h[s], p)
    ensures Online(h[s := c], p) == Online(h, p) && InSync(h[s := c], p)
  {
    var h' := h[s := c];
    forall u ensures u in Online(h', p) <==> u in Online(h, p) {
      if t :| t in h && p in h[t].joined && h[t].userId == u { assert t in h' && p in h'[t].joined; }
      if t :| t in h' && p in h'[t].joined && h'[t].userId == u { assert t in h && p in h[t].joined; }
    }
    forall t | Observes(h', t, p) ensures Seen(h'[t], p).users == Online(h', p) { assert Observes(h, t, p); }
  }

  lemma ConnectSync(h: Hub, s: SocketId, user: UserId, now: Time, p: ProjectId)
    requires s !in h && InSync(h, p)
    ensures InSync(Connect(h, s, user, now), p)
  {
    var h' := Connect(h, s, user, now);
    forall u ensures u in Online(h', p) <==> u in Online(h, p) {
      if t :| t in h && p in h[t].joined && h[t].userId == u { assert t in h' && p in h'[t].joined; }
    }
    forall t | Observes(h', t, p) ensures Seen(h'[t], p).users == Online(h', p) { assert Observes(h, t, p); }
  }

  lemma CountSync(h: Hub, s: SocketId, now: Time, p: ProjectId)
    requires s in h && InSync(h, p)
    ensures InSync(Count(h, s, now), p) && Online(Count(h, s, now), p) == Online(h, p)
  {
    SameView(h, s, Count(h, s, now)[s], p);
  }

  lemma StepSync(h: Hub, step: Step, p: ProjectId)
    requires Inv(h) && Enabled(h, step)
    ensures InSync(Next(h, step), p)
  {
    match step
    case ConnectStep(s, user, now) => ConnectSync(h, s, user, now, p);
    case SubscribeStep(s, payload, authorization, now) =>
      CountSync(h, s, now, p);
      if Subscribe(h, s, payload, authorization, now).1.Subscribed? {
        CountSync(h, s, now, payload.value);
        var counted := Count(h, s, now);
        assert ConnectionOk(h[s]);
        AdmitSync(counted, s, payload.value, h[s].userId in Online(counted, payload.value), p);
      }
    case UnsubscribeStep(s, payload, now) =>
      CountSync(h, s, now, p);
      var counted := Count(h, s, now);
      assert ConnectionOk(h[s]);
      if Unsubscribe(h, s, payload, now).0 != counted { LeaveSync(counted, s, payload.value, p); }
    case DisconnectStep(s) => DisconnectSync(h, s, p);
    case DeliverStep(s) =>
      var m, c := h[s].inbox[0], Deliver(h, s)[s];
      assert ViewOf(c, p) == Handle(ViewOf(h[s], p), m, p);
      SameView(h, s, c, p);
    case RemountStep(s, q) =>
      var c := Remount(h, s, q)[s];
      if q == p { RemountSeen(h[s], p); }
      SameView(h, s, c, p);
  }

  /** Forgetting what was shown changes nothing that an acknowledgement under way will not put right. */
  lemma {:induction false} FoldAcknowledged(v: View, inbox: seq<Message>, p: ProjectId)
    requires !v.acknowledged
    ensures Fold(v, inbox, p).acknowledged ==> forall w: View :: Fold(w, inbox, p) == Fold(v, inbox, p)
    decreases |inbox|
  {
    if inbox != [] {
      var m := inbox[0];
      if m.Ack? && m.project == p {
        assert forall w: View :: Handle(w, m, p) == Handle(v, m, p);
      } else {
        FoldAcknowledged(Handle(v, m, p), inbox[1..], p);
      }
    }
  }

  lemma RemountSeen(c: Connection, p: ProjectId)
    ensures var c' := c.(views := c.views[p := MOUNTED]);
            Seen(c', p).acknowledged ==> Seen(c', p) == Seen(c, p)
  {
    FoldAcknowledged(MOUNTED, c.inbox, p);
  }

  // ---------- Connections ----------

  predicate Same(c: Connection, d: Connection) {
    c.userId == d.userId && c.joined == d.joined && c.subscriptions == d.subscriptions
  }

  lemma {:induction false} OfflineAllKeeps(h: Hub, ps: seq<ProjectId>, user: UserId)
    ensures OfflineAll(h, ps, user).Keys == h.Keys
    ensures forall s | s in h :: Same(OfflineAll(h, ps, user)[s], h[s])
    decreases |ps|
  {
    if ps != [] { OfflineAllKeeps(OfflineWhenAbsent(h, ps[0], user), ps[1..], user); }
  }

  lemma {:induction false} WithoutDistinct(ps: seq<ProjectId>, p: ProjectId)
    requires Distinct(ps)
    ensures Distinct(Without(ps, p))
  {
    if ps != [] {
      WithoutDistinct(ps[1..], p);
      assert ps[0] !in ps[1..];
    }
  }

  lemma SubscribeKeepsOk(h: Hub, s: SocketId, payload: Option<ProjectId>, authorization: Authorization,
                         now: Time, t: SocketId)
    requires s in h && t in h && ConnectionOk(h[s]) && ConnectionOk(h[t])
    ensures var h' := Subscribe(h, s, payload, authorization, now).0; t in h' && ConnectionOk(h'[t])
  {
    var (h', reply) := Subscribe(h, s, payload, authorization, now);
    if reply.Subscribed? && t == s { assert Same(h'[s], Join(h, s, payload.value)[s]); }
  }

  lemma UnsubscribeKeepsOk(h: Hub, s: SocketId, payload: Option<ProjectId>, now: Time, t: SocketId)
    requires s in h && t in h && ConnectionOk(h[s]) && ConnectionOk(h[t])
    ensures var h' := Unsubscribe(h, s, payload, now).0; t in h' && ConnectionOk(h'[t])
  {
    if payload.Some? && s == t { WithoutDistinct(h[t].subscriptions, payload.value); }
  }

  lemma StepKeepsOk(h: Hub, step: Step, s: SocketId)
    requires Inv(h) && Enabled(h, step) && s in Next(h, step)
    ensures ConnectionOk(Next(h, step)[s])
  {
    assert s in h ==> ConnectionOk(h[s]);
    match step
    case SubscribeStep(t, payload, authorization, now) =>
      assert ConnectionOk(h[t]);
      if s in h { SubscribeKeepsOk(h, t, payload, authorization, now, s); }
    case UnsubscribeStep(t, payload, now) =>
      assert ConnectionOk(h[t]);
      if s in h { UnsubscribeKeepsOk(h, t, payload, now, s); }
    case DisconnectStep(t) => OfflineAllKeeps(h - {t}, h[t].subscriptions, h[t].userId);
    case _ =>
  }

  lemma {:induction false} RunKeepsInv(h: Hub, steps: seq<Step>, t: Hub)
    requires Inv(h) && Run(h, steps, t)
    ensures Inv(t)
    decreases |steps|
  {
    if steps != [] {
      var next := Next(h, steps[0]);
      forall p ensures InSync(next, p) { StepSync(h, steps[0], p); }
      forall s | s in next ensures ConnectionOk(next[s]) { StepKeepsOk(h, steps[0], s); }
      RunKeepsInv(next, steps[1..], t);
    }
  }

  /** At any time of any run, a client that has been acknowledged and has handled everything sent
      to it shows exactly the users with a socket in the project's room. */
  lemma PresenceExact(steps: seq<Step>, h: Hub, s: SocketId, p: ProjectId, user: UserId)
    requires Run(map[], steps, h) && s in h && p in h[s].joined
    requires ViewOf(h[s], p).acknowledged && h[s].inbox == []
    ensures user in ViewOf(h[s], p).users <==> exists t | t in h :: p in h[t].joined && h[t].userId == user
  {
    RunKeepsInv(map[], steps, h);
    assert InSync(h, p) && Observes(h, s, p);
  }

  /** And a client that has something left to handle is on its way there. */
  lemma PresenceConverges(steps: seq<Step>, h: Hub, s: SocketId, p: ProjectId)
    requires Run(map[], steps, h) && Observes(h, s, p)
    ensures Seen(h[s], p).users == Online(h, p)
    ensures |h[s].subscriptions| <= MAX_PROJECT_SUBSCRIPTIONS_PER_SOCKET
  {
    RunKeepsInv(map[], steps, h);
    assert InSync(h, p) && ConnectionOk(h[s]);
  }

  /** An accepted subscription makes an observer. */
  lemma SubscribeObserves(h: Hub, s: SocketId, payload: Option<ProjectId>, authorization: Authorization, now: Time)
    requires s in h
    ensures var (h', reply) := Subscribe(h, s, payload, authorization, now);
            reply.Subscribed? ==> payload.Some? && Observes(h', s, payload.value) && h[s].userId in reply.users
  {
    var (h', reply) := Subscribe(h, s, payload, authorization, now);
    if reply.Subscribed? {
      var p := payload.value;
      var counted := Count(h, s, now);
      var joined := Join(counted, s, p);
      var announced := if p !in h[s].subscriptions && h[s].userId !in Online(counted, p)
                       then Publish(joined, p, h[s].userId, true) else joined;
      assert s in announced && p in announced[s].joined && announced[s].userId == h[s].userId;
      PostSeen(announced, {s}, Ack(p, Online(announced, p)), s, p);
    }
  }
}
