/** Ownership, invitations and seats of one organization. A service call is one step, except where
    a result says that only the transactions are. Audit, mail and realtime side effects play no part. */
module Organizations {
  import opened Optional

  type UserId = nat
  type RoleId = nat
  type InvitationId = nat
  type Email = nat
  type Time = int

  datatype RoleKey = Owner | Admin | Other
  /** A role of every organization (orgId NULL) or of this one; roles of others are `foreign`. */
  datatype Role = Role(key: RoleKey, foreign: bool)
  datatype Member = Member(roleId: RoleId, isActive: bool)
  datatype User = User(email: Email, isActive: bool)
  datatype InvitationStatus = Pending | Accepted | Expired | Revoked
  datatype Invitation = Invitation(email: Email, roleId: RoleId, status: InvitationStatus, expiresAt: Time)
  datatype Subscription = Subscription(usable: bool, maxMembers: int)

  const INVITATION_TTL_MS := 7 * 24 * 60 * 60 * 1000

  datatype Org = Org(
    ownerId: UserId, isDeleted: bool,
    members: map<UserId, Member>, invitations: map<InvitationId, Invitation>,
    roles: map<RoleId, Role>, ownerRole: RoleId, adminRole: RoleId,
    users: map<UserId, User>,
    subscription: Option<Subscription>, defaultMaxMembers: int, billingEnabled: bool)

  /** The seed: one OWNER role and one ADMIN role, and no call creates another. */
  predicate RolesOk(o: Org) {
    && o.ownerRole in o.roles && o.adminRole in o.roles && o.roles[o.adminRole].key == Admin
    && forall r | r in o.roles :: o.roles[r].key == Owner <==> r == o.ownerRole
  }

  // ---------- Queries ----------

  function Active(members: map<UserId, Member>): set<UserId> { set u | u in members && members[u].isActive }

  function ActiveMembers(o: Org): set<UserId> { Active(o.members) }

  predicate IsMember(o: Org, u: UserId) { u in o.members && o.members[u].isActive }

  predicate HoldsOwnerRole(o: Org, u: UserId) { u in o.members && o.members[u].roleId == o.ownerRole }

  /** A subscription counts while it is active or trialing (`usable`). */
  function MaxMembers(o: Org): int {
    if o.subscription.Some? && o.subscription.value.usable then o.subscription.value.maxMembers else o.defaultMaxMembers
  }

  predicate CanAddMember(o: Org) { !o.billingEnabled || |ActiveMembers(o)| < MaxMembers(o) }

  predicate RoleAvailable(o: Org, r: RoleId) { r in o.roles && !o.roles[r].foreign }

  // ---------- Transactions ----------

  function SetRole(o: Org, u: UserId, r: RoleId): Org
    requires u in o.members
  {
    o.(members := o.members[u := o.members[u].(roleId := r)])
  }

  function Deactivate(o: Org, u: UserId): Org
    requires u in o.members
  {
    o.(members := o.members[u := o.members[u].(isActive := false)])
  }

  datatype Transfer = Committed | Refused | TargetNotActive | OwnerMissing

  /** Compare-and-set on ownerId, then the two roles, then a sweep of stray owner roles. A thrown
      error rolls everything back. */
  function TransferOwnership(o: Org, current: UserId, target: UserId): (Org, Transfer) {
    if o.ownerId != current || o.isDeleted then (o, Refused)
    else if !IsMember(o, target) then (o, TargetNotActive)
    else
      var promoted := SetRole(o.(ownerId := target), target, o.ownerRole);
      if !IsMember(promoted, current) then (o, OwnerMissing)
      else
        var demoted := SetRole(promoted, current, o.adminRole);
        (demoted.(members := map u | u in demoted.members ::
           if demoted.members[u].roleId == o.ownerRole && u != target
           then demoted.members[u].(roleId := o.adminRole) else demoted.members[u]), Committed)
  }

  function SetInvitationStatus(o: Org, id: InvitationId, status: InvitationStatus): Org
    requires id in o.invitations
  {
    o.(invitations := o.invitations[id := o.invitations[id].(status := status)])
  }

  predicate Claimable(o: Org, id: InvitationId, roleId: RoleId, at: Time) {
    && id in o.invitations && o.invitations[id].roleId == roleId
    && o.invitations[id].status == Pending && at < o.invitations[id].expiresAt
  }

  /** Compare-and-set on the invitation, then the membership is created or revived. */
  function ClaimInvitation(o: Org, id: InvitationId, u: UserId, roleId: RoleId, at: Time): (Org, bool) {
    if !Claimable(o, id, roleId, at) then (o, false)
    else
      var claimed := SetInvitationStatus(o, id, Accepted);
      (claimed.(members := claimed.members[u := Member(roleId, true)]), true)
  }

  // ---------- Service calls ----------

  datatype Reply = Ok | NotFound | Forbidden | BadRequest | Conflict | PaymentRequired | Failed

  function UpdateMemberRoleCall(o: Org, target: UserId, roleId: RoleId): (Org, Reply) {
    if !IsMember(o, target) then (o, NotFound)
    else if HoldsOwnerRole(o, target) then (o, Forbidden)
    else if !RoleAvailable(o, roleId) then (o, BadRequest)
    else if o.roles[roleId].key == Owner then (o, Forbidden)
    else (SetRole(o, target, roleId), Ok)
  }

  function RemoveMemberCall(o: Org, target: UserId): (Org, Reply) {
    if !IsMember(o, target) then (o, NotFound)
    else if HoldsOwnerRole(o, target) then (o, Forbidden)
    else (Deactivate(o, target), Ok)
  }

  function TransferCall(o: Org, current: UserId, target: UserId): (Org, Reply) {
    if o.isDeleted then (o, NotFound)
    else if o.ownerId != current then (o, Forbidden)
    else if target == current then (o, BadRequest)
    else if !IsMember(o, target) then (o, BadRequest)
    else
      var (after, outcome) := TransferOwnership(o, current, target);
      (after, match outcome case Committed => Ok case Refused => Conflict case _ => Failed)
  }

  predicate EmailIsMember(o: Org, email: Email) {
    exists u | u in o.members :: o.members[u].isActive && u in o.users && o.users[u].email == email
  }

  predicate EmailInvited(o: Org, email: Email) {
    exists i | i in o.invitations :: o.invitations[i].email == email && o.invitations[i].status == Pending
  }

  function InviteCall(o: Org, id: InvitationId, email: Email, roleId: RoleId, now: Time): (Org, Reply)
    requires id !in o.invitations
  {
    if EmailIsMember(o, email) || EmailInvited(o, email) then (o, Conflict)
    else if !RoleAvailable(o, roleId) then (o, BadRequest)
    else if o.roles[roleId].key == Owner then (o, Forbidden)
    else if o.isDeleted then (o, NotFound)
    else if !CanAddMember(o) then (o, PaymentRequired)
    else (o.(invitations := o.invitations[id := Invitation(email, roleId, Pending, now + INVITATION_TTL_MS)]), Ok)
  }

  function AcceptCall(o: Org, u: UserId, id: InvitationId, now: Time): (Org, Reply) {
    if id !in o.invitations then (o, NotFound)
    else
      var invitation := o.invitations[id];
      if u !in o.users || !o.users[u].isActive || o.users[u].email != invitation.email then (o, NotFound)
      else if invitation.status != Pending then (o, Conflict)
      else if invitation.expiresAt < now then (SetInvitationStatus(o, id, Expired), Conflict)
      else if o.isDeleted then (o, NotFound)
      else if !CanAddMember(o) then (o, PaymentRequired)
      else if IsMember(o, u) then (o, Conflict)
      else if !RoleAvailable(o, invitation.roleId) then (o, Conflict)
      else if o.roles[invitation.roleId].key == Owner then (SetInvitationStatus(o, id, Revoked), Forbidden)
      else
        var (after, accepted) := ClaimInvitation(o, id, u, invitation.roleId, now);
        (after, if accepted then Ok else Conflict)
  }

  function RevokeCall(o: Org, id: InvitationId): (Org, Reply) {
    if id !in o.invitations then (o, NotFound)
    else if o.invitations[id].status != Pending then (o, Conflict)
    else (SetInvitationStatus(o, id, Revoked), Ok)
  }

  datatype Call =
    | UpdateMemberRole(target: UserId, roleId: RoleId)
    | RemoveMember(target: UserId)
    | Transfer(current: UserId, target: UserId)
    | Invite(id: InvitationId, email: Email, roleId: RoleId, now: Time)
    | Accept(user: UserId, id: InvitationId, now: Time)
    | Revoke(id: InvitationId)
    | Delete
    | SetUser(user: UserId, row: User)

  predicate Enabled(o: Org, call: Call) { call.Invite? ==> call.id !in o.invitations }

  function Next(o: Org, call: Call): (Org, Reply)
    requires Enabled(o, call)
  {
    match call
    case UpdateMemberRole(target, roleId) => UpdateMemberRoleCall(o, target, roleId)
    case RemoveMember(target) => RemoveMemberCall(o, target)
    case Transfer(current, target) => TransferCall(o, current, target)
    case Invite(id, email, roleId, now) => InviteCall(o, id, email, roleId, now)
    case Accept(u, id, now) => AcceptCall(o, u, id, now)
    case Revoke(id) => RevokeCall(o, id)
    case Delete => (o.(isDeleted := true), Ok)
    case SetUser(u, row) => (o.(users := o.users[u := row]), Ok)
  }

  ghost predicate Run(o: Org, calls: seq<Call>, p: Org)
    decreases |calls|
  {
    if calls == [] then o == p
    else Enabled(o, calls[0]) && Run(Next(o, calls[0]).0, calls[1..], p)
  }

  // ---------- One owner ----------

  /** Exactly one membership holds the OWNER role; it is active and belongs to ownerId. */
  predicate OneOwner(o: Org) {
    && RolesOk(o)
    && IsMember(o, o.ownerId)
    && forall u | u in o.members :: HoldsOwnerRole(o, u) <==> u == o.ownerId
  }

  /** createOrgWithOwner. */
  function NewOrg(owner: UserId, roles: map<RoleId, Role>, ownerRole: RoleId, adminRole: RoleId,
                  subscription: Option<Subscription>, defaultMaxMembers: int, billingEnabled: bool): Org {
    Org(owner, false, map[owner := Member(ownerRole, true)], map[], roles, ownerRole, adminRole, map[],
        subscription, defaultMaxMembers, billingEnabled)
  }

  /** What any transfer transaction does to an organization with one owner: it commits exactly for
      the current owner and an active target, and the roles follow. */
  lemma TransferEffect(o: Org, current: UserId, target: UserId)
    requires OneOwner(o) && current != target
    ensures var (p, outcome) := TransferOwnership(o, current, target);
            && OneOwner(p) && outcome != OwnerMissing
            && (outcome == Committed <==> o.ownerId == current && !o.isDeleted && IsMember(o, target))
            && (outcome == Committed ==>
                  && p.ownerId == target && p.members.Keys == o.members.Keys && current in p.members
                  && p.members[current] == Member(o.adminRole, true) && p.members[target] == Member(o.ownerRole, true)
                  && forall u | u in o.members && u != current && u != target :: p.members[u] == o.members[u])
            && p == o.(ownerId := p.ownerId, members := p.members)
            && (outcome != Committed ==> p == o)
  {}

  lemma SetRoleKeepsOwner(o: Org, u: UserId, r: RoleId)
    requires OneOwner(o) && u in o.members && u != o.ownerId && r != o.ownerRole
    ensures OneOwner(SetRole(o, u, r))
  {}

  lemma DeactivateKeepsOwner(o: Org, u: UserId)
    requires OneOwner(o) && u in o.members && u != o.ownerId
    ensures OneOwner(Deactivate(o, u))
  {}

  lemma ClaimKeepsOwner(o: Org, id: InvitationId, u: UserId, roleId: RoleId, at: Time)
    requires OneOwner(o) && u != o.ownerId && roleId != o.ownerRole
    ensures OneOwner(ClaimInvitation(o, id, u, roleId, at).0)
  {}

  /** Users and invitations play no part. */
  lemma SameOwner(o: Org, p: Org)
    requires OneOwner(o)
    requires p.members == o.members && p.ownerId == o.ownerId
    requires p.roles == o.roles && p.ownerRole == o.ownerRole && p.adminRole == o.adminRole
    ensures OneOwner(p)
  {}

  lemma UpdateRoleKeepsOwner(o: Org, target: UserId, roleId: RoleId)
    requires OneOwner(o)
    ensures OneOwner(UpdateMemberRoleCall(o, target, roleId).0)
  {
    if UpdateMemberRoleCall(o, target, roleId).1 == Ok { SetRoleKeepsOwner(o, target, roleId); }
  }

  lemma RemoveKeepsOwner(o: Org, target: UserId)
    requires OneOwner(o)
    ensures OneOwner(RemoveMemberCall(o, target).0)
  {
    if RemoveMemberCall(o, target).1 == Ok { DeactivateKeepsOwner(o, target); }
  }

  lemma AcceptKeepsOwner(o: Org, u: UserId, id: InvitationId, now: Time)
    requires OneOwner(o)
    ensures OneOwner(AcceptCall(o, u, id, now).0)
  {
    if AcceptCall(o, u, id, now).1 == Ok {
      ClaimKeepsOwner(o, id, u, o.invitations[id].roleId, now);
    } else {
      SameOwner(o, AcceptCall(o, u, id, now).0);
    }
  }

  lemma CallKeepsOwner(o: Org, call: Call)
    requires OneOwner(o) && Enabled(o, call)
    ensures OneOwner(Next(o, call).0)
  {
    match call
    case UpdateMemberRole(target, roleId) => UpdateRoleKeepsOwner(o, target, roleId);
    case RemoveMember(target) => RemoveKeepsOwner(o, target);
    case Transfer(current, target) => if current != target { TransferEffect(o, current, target); }
    case Accept(u, id, now) => AcceptKeepsOwner(o, u, id, now);
    case _ => SameOwner(o, Next(o, call).0);
  }

  lemma CallNeverFails(o: Org, call: Call)
    requires OneOwner(o) && Enabled(o, call)
    ensures Next(o, call).1 != Failed
  {
    if call.Transfer? && call.current != call.target { TransferEffect(o, call.current, call.target); }
  }

  lemma {:induction false} RunKeepsOwner(o: Org, calls: seq<Call>, p: Org)
    requires OneOwner(o) && Run(o, calls, p)
    ensures OneOwner(p)
    decreases |calls|
  {
    if calls != [] {
      CallKeepsOwner(o, calls[0]);
      RunKeepsOwner(Next(o, calls[0]).0, calls[1..], p);
    }
  }

  /** From creation on, whatever is called: one active owner, who is ownerId; and no call ever ends
      in the internal errors of the transfer. */
  lemma AlwaysOneOwner(o: Org, calls: seq<Call>, p: Org, next: Call)
    requires RolesOk(o) && o == NewOrg(o.ownerId, o.roles, o.ownerRole, o.adminRole,
                                       o.subscription, o.defaultMaxMembers, o.billingEnabled)
    requires Run(o, calls, p)
    ensures IsMember(p, p.ownerId) && forall u | u in p.members :: HoldsOwnerRole(p, u) <==> u == p.ownerId
    ensures Enabled(p, next) ==> Next(p, next).1 != Failed
  {
    RunKeepsOwner(o, calls, p);
    if Enabled(p, next) { CallNeverFails(p, next); }
  }

  // ---------- Racing transfers ----------

  datatype Attempt = Attempt(current: UserId, target: UserId)

  function AfterAttempts(o: Org, attempts: seq<Attempt>): Org
    decreases |attempts|
  {
    if attempts == [] then o
    else AfterAttempts(TransferOwnership(o, attempts[0].current, attempts[0].target).0, attempts[1..])
  }

  /** The attempts whose transaction committed. */
  function Commits(o: Org, attempts: seq<Attempt>): seq<Attempt>
    decreases |attempts|
  {
    if attempts == [] then []
    else
      var (p, outcome) := TransferOwnership(o, attempts[0].current, attempts[0].target);
      (if outcome == Committed then [attempts[0]] else []) + Commits(p, attempts[1..])
  }

  predicate Chain(from: UserId, commits: seq<Attempt>, to: UserId)
    decreases |commits|
  {
    if commits == [] then from == to else commits[0].current == from && Chain(commits[0].target, commits[1..], to)
  }

  /** Transfers that race with nothing but transfers: however stale the reads before them, the
      transactions that commit hand ownership on in a single chain, and one owner remains. */
  lemma {:induction false} RacingTransfersChain(o: Org, attempts: seq<Attempt>)
    requires OneOwner(o) && forall i | 0 <= i < |attempts| :: attempts[i].current != attempts[i].target
    ensures OneOwner(AfterAttempts(o, attempts))
    ensures Chain(o.ownerId, Commits(o, attempts), AfterAttempts(o, attempts).ownerId)
    decreases |attempts|
  {
    if attempts != [] {
      var a := attempts[0];
      TransferEffect(o, a.current, a.target);
      var (p, outcome) := TransferOwnership(o, a.current, a.target);
      RacingTransfersChain(p, attempts[1..]);
      if outcome == Committed {
        assert Commits(o, attempts)[1..] == Commits(p, attempts[1..]);
      } else {
        assert Commits(o, attempts) == Commits(p, attempts[1..]);
      }
    }
  }

  /** Over any run after its deletion, nobody joins, is invited or takes over. */
  lemma {:induction false} DeletionIsFinal(o: Org, calls: seq<Call>, p: Org, call: Call)
    requires (o.isDeleted || (calls != [] && calls[0] == Delete)) && Run(o, calls, p) && Enabled(p, call)
    ensures p.isDeleted
    ensures call.Transfer? || call.Invite? || call.Accept? ==> Next(p, call).1 != Ok
    decreases |calls|
  {
    if calls != [] { DeletionIsFinal(Next(o, calls[0]).0, calls[1..], p, call); }
  }

  // ---------- Why the calls must be atomic ----------

  /** The writes of removeMember and updateMemberRole are unconditional. Made late, they keep one
      owner exactly when the member has not become the owner in the meantime. */
  lemma LateWriteExactlyWhen(o: Org, u: UserId, roleId: RoleId)
    requires OneOwner(o) && u in o.members && roleId in o.roles && o.roles[roleId].key != Owner
    ensures OneOwner(Deactivate(o, u)) <==> u != o.ownerId
    ensures OneOwner(SetRole(o, u, roleId)) <==> u != o.ownerId
  {
    assert HoldsOwnerRole(o, u) <==> u == o.ownerId;
    assert SetRole(o, u, roleId).ownerId in SetRole(o, u, roleId).members;
  }

  /** So the guarantee fails under interleaving: if a transfer to a member commits between the
      check and the write of that member's removal, the organization is left with an inactive owner. */
  lemma RemovalRacesTransfer(o: Org, u: UserId)
    requires OneOwner(o) && !o.isDeleted && IsMember(o, u) && u != o.ownerId
    ensures RemoveMemberCall(o, u).1 == Ok
    ensures var handed := TransferOwnership(o, o.ownerId, u).0;
            u in handed.members
            && var raced := Deactivate(handed, u);
               !OneOwner(raced) && RolesOk(raced) && raced.ownerId == u && !IsMember(raced, u)
  {
    TransferEffect(o, o.ownerId, u);
  }

  /** An owner's transfer to an active member fails exactly when the owner is not an active member. */
  lemma TransferFailsExactlyWhen(o: Org, target: UserId)
    requires !o.isDeleted && IsMember(o, target) && target != o.ownerId
    ensures TransferOwnership(o, o.ownerId, target).1 == OwnerMissing <==> !IsMember(o, o.ownerId)
    ensures TransferOwnership(o, o.ownerId, target).1 == Committed <==> IsMember(o, o.ownerId)
  {}

  predicate Rejoins(o: Org, call: Call, u: UserId)
    requires Enabled(o, call)
  {
    call.Accept? && call.user == u && Next(o, call).1 == Ok
  }

  /** An inactive owner stays the owner, and only accepting an invitation makes them a member again. */
  lemma InactiveOwnerStep(o: Org, call: Call)
    requires Enabled(o, call) && !IsMember(o, o.ownerId)
    ensures Next(o, call).0.ownerId == o.ownerId
    ensures IsMember(Next(o, call).0, o.ownerId) <==> Rejoins(o, call, o.ownerId)
  {
    if call.Transfer? && call.current == o.ownerId && IsMember(o, call.target) && !o.isDeleted {
      TransferFailsExactlyWhen(o, call.target);
    }
  }

  predicate RejoinsIn(o: Org, calls: seq<Call>, u: UserId)
    decreases |calls|
  {
    calls != [] && Enabled(o, calls[0]) && (Rejoins(o, calls[0], u) || RejoinsIn(Next(o, calls[0]).0, calls[1..], u))
  }

  /** Over any run in which the inactive owner does not rejoin, ownership stays where it is and no
      transfer succeeds; one to an active member ends in the internal error. */
  lemma {:induction false} OwnershipStuck(o: Org, calls: seq<Call>, p: Org, current: UserId, target: UserId)
    requires !IsMember(o, o.ownerId) && Run(o, calls, p) && !RejoinsIn(o, calls, o.ownerId)
    ensures p.ownerId == o.ownerId && !IsMember(p, p.ownerId)
    ensures TransferCall(p, current, target).1 != Ok
    ensures !p.isDeleted && current == p.ownerId && IsMember(p, target) ==> TransferCall(p, current, target).1 == Failed
    decreases |calls|
  {
    if calls == [] {
      if current == p.ownerId && target != p.ownerId && IsMember(p, target) && !p.isDeleted {
        TransferFailsExactlyWhen(p, target);
      }
    } else {
      InactiveOwnerStep(o, calls[0]);
      OwnershipStuck(Next(o, calls[0]).0, calls[1..], p, current, target);
    }
  }

  /** Rejoining repairs it: the next transfer succeeds and there is one owner again. */
  lemma RejoiningRepairs(o: Org, id: InvitationId, now: Time, target: UserId)
    requires RolesOk(o) && !IsMember(o, o.ownerId) && AcceptCall(o, o.ownerId, id, now).1 == Ok
    requires IsMember(o, target)
    ensures var joined := AcceptCall(o, o.ownerId, id, now).0;
            var (p, reply) := TransferCall(joined, joined.ownerId, target);
            reply == Ok && p.ownerId == target && OneOwner(p)
  {
    var joined := AcceptCall(o, o.ownerId, id, now).0;
    assert IsMember(joined, o.ownerId) && IsMember(joined, target) && joined.ownerId == o.ownerId && RolesOk(joined);
    TransferRestores(joined, target);
  }

  /** A transfer leaves one owner whatever roles were held before, given that it commits. */
  lemma TransferRestores(o: Org, target: UserId)
    requires RolesOk(o) && !o.isDeleted && IsMember(o, o.ownerId) && IsMember(o, target) && target != o.ownerId
    ensures var (p, outcome) := TransferOwnership(o, o.ownerId, target);
            outcome == Committed && p.ownerId == target && OneOwner(p)
  {}

  // ---------- Invitations ----------

  /** The statements that write an invitation, in any interleaving of the calls they belong to.
      Status updates are unconditional: a late one may follow an acceptance. */
  datatype Write =
    | Claim(id: InvitationId, user: UserId, roleId: RoleId, at: Time)
    | SetStatus(id: InvitationId, status: InvitationStatus)
    | Insert(id: InvitationId, row: Invitation)

  predicate WriteEnabled(o: Org, w: Write) {
    match w
    case Claim(_, _, _, _) => true
    case SetStatus(id, status) => id in o.invitations && (status == Expired || status == Revoked)
    case Insert(id, row) => id !in o.invitations && row.status == Pending
  }

  function AfterWrite(o: Org, w: Write): Org
    requires WriteEnabled(o, w)
  {
    match w
    case Claim(id, u, roleId, at) => ClaimInvitation(o, id, u, roleId, at).0
    case SetStatus(id, status) => SetInvitationStatus(o, id, status)
    case Insert(id, row) => o.(invitations := o.invitations[id := row])
  }

  /** How often an invitation is accepted. */
  function Acceptances(o: Org, writes: seq<Write>, id: InvitationId): nat
    decreases |writes|
  {
    if writes == [] || !WriteEnabled(o, writes[0]) then 0
    else
      (if writes[0].Claim? && writes[0].id == id
          && ClaimInvitation(o, id, writes[0].user, writes[0].roleId, writes[0].at).1
       then 1 else 0)
      + Acceptances(AfterWrite(o, writes[0]), writes[1..], id)
  }

  lemma SettledStays(o: Org, w: Write, id: InvitationId)
    requires WriteEnabled(o, w) && id in o.invitations && o.invitations[id].status != Pending
    ensures id in AfterWrite(o, w).invitations && AfterWrite(o, w).invitations[id].status != Pending
  {}

  /** At most once, under any interleaving, because nothing makes an invitation pending again. */
  lemma {:induction false} AcceptedOnce(o: Org, writes: seq<Write>, id: InvitationId)
    ensures Acceptances(o, writes, id) <= 1
    ensures id in o.invitations && o.invitations[id].status != Pending ==> Acceptances(o, writes, id) == 0
    decreases |writes|
  {
    if writes != [] && WriteEnabled(o, writes[0]) {
      AcceptedOnce(AfterWrite(o, writes[0]), writes[1..], id);
      if id in o.invitations && o.invitations[id].status != Pending { SettledStays(o, writes[0], id); }
    }
  }

  /** At most one invitation is pending for an email, and every invitation names an assignable role. */
  predicate InvitationsOk(o: Org) {
    && (forall i, j | i in o.invitations && j in o.invitations && o.invitations[i].email == o.invitations[j].email ::
          o.invitations[i].status == Pending && o.invitations[j].status == Pending ==> i == j)
    && (forall i | i in o.invitations ::
          RoleAvailable(o, o.invitations[i].roleId) && o.roles[o.invitations[i].roleId].key != Owner)
  }

  lemma StatusKeepsInvitations(o: Org, id: InvitationId, status: InvitationStatus)
    requires InvitationsOk(o) && id in o.invitations && status != Pending
    ensures InvitationsOk(SetInvitationStatus(o, id, status))
  {}

  lemma InvitesUninvited(o: Org, id: InvitationId, email: Email, roleId: RoleId, now: Time)
    requires id !in o.invitations && InviteCall(o, id, email, roleId, now).1 == Ok
    ensures forall i | i in o.invitations && o.invitations[i].email == email :: o.invitations[i].status != Pending
  {
    assert !EmailInvited(o, email);
  }

  lemma InviteKeepsInvitations(o: Org, id: InvitationId, email: Email, roleId: RoleId, now: Time)
    requires InvitationsOk(o) && id !in o.invitations
    ensures InvitationsOk(InviteCall(o, id, email, roleId, now).0)
  {
    var (p, reply) := InviteCall(o, id, email, roleId, now);
    if reply == Ok {
      InvitesUninvited(o, id, email, roleId, now);
      forall i | i in p.invitations ensures i == id || (i in o.invitations && p.invitations[i] == o.invitations[i]) {}
    }
  }

  lemma AcceptKeepsInvitations(o: Org, u: UserId, id: InvitationId, now: Time)
    requires InvitationsOk(o)
    ensures InvitationsOk(AcceptCall(o, u, id, now).0)
    ensures AcceptCall(o, u, id, now).1 != Forbidden
  {
    if id in o.invitations && o.invitations[id].status == Pending {
      StatusKeepsInvitations(o, id, Expired);
      StatusKeepsInvitations(o, id, Accepted);
    }
  }

  lemma SameInvitations(o: Org, p: Org)
    requires InvitationsOk(o) && p.invitations == o.invitations && p.roles == o.roles
    ensures InvitationsOk(p)
  {}

  lemma CallKeepsInvitations(o: Org, call: Call)
    requires InvitationsOk(o) && Enabled(o, call)
    ensures InvitationsOk(Next(o, call).0)
  {
    match call
    case Invite(id, email, roleId, now) => InviteKeepsInvitations(o, id, email, roleId, now);
    case Accept(u, id, now) => AcceptKeepsInvitations(o, u, id, now);
    case Revoke(id) => if id in o.invitations { StatusKeepsInvitations(o, id, Revoked); }
    case _ => SameInvitations(o, Next(o, call).0);
  }

  /** In every run at most one invitation is pending for an email, every invitation names a role
      that is available, and accepting never meets one to ownership. */
  lemma {:induction false} InvitationsInOrder(o: Org, calls: seq<Call>, p: Org, u: UserId, id: InvitationId, now: Time)
    requires InvitationsOk(o) && Run(o, calls, p)
    ensures forall i, j | i in p.invitations && j in p.invitations
            && p.invitations[i].email == p.invitations[j].email ::
              p.invitations[i].status == Pending && p.invitations[j].status == Pending ==> i == j
    ensures forall i | i in p.invitations :: RoleAvailable(p, p.invitations[i].roleId)
    ensures AcceptCall(p, u, id, now).1 != Forbidden
    decreases |calls|
  {
    if calls == [] {
      AcceptKeepsInvitations(p, u, id, now);
    } else {
      CallKeepsInvitations(o, calls[0]);
      InvitationsInOrder(Next(o, calls[0]).0, calls[1..], p, u, id, now);
    }
  }

  // ---------- Seats ----------

  function Larger(a: int, b: int): int { if a > b then a else b }

  lemma SetRoleKeepsActive(m: map<UserId, Member>, u: UserId, r: RoleId)
    requires u in m
    ensures Active(m[u := m[u].(roleId := r)]) == Active(m)
  {}

  lemma DeactivateShrinks(m: map<UserId, Member>, u: UserId)
    requires u in m
    ensures Active(m[u := m[u].(isActive := false)]) == Active(m) - {u}
  {}

  lemma ClaimGrows(m: map<UserId, Member>, u: UserId, r: RoleId)
    ensures Active(m[u := Member(r, true)]) == Active(m) + {u}
  {}

  lemma TransferKeepsActive(o: Org, current: UserId, target: UserId)
    ensures ActiveMembers(TransferOwnership(o, current, target).0) == ActiveMembers(o)
  {}

  predicate SamePlan(o: Org, p: Org) {
    && p.billingEnabled == o.billingEnabled && p.subscription == o.subscription
    && p.defaultMaxMembers == o.defaultMaxMembers
  }

  lemma AcceptKeepsSeats(o: Org, u: UserId, id: InvitationId, now: Time)
    ensures var (p, reply) := AcceptCall(o, u, id, now);
            if reply == Ok then CanAddMember(o) && ActiveMembers(p) == ActiveMembers(o) + {u}
            else ActiveMembers(p) == ActiveMembers(o)
  {
    if AcceptCall(o, u, id, now).1 == Ok { ClaimGrows(o.members, u, o.invitations[id].roleId); }
  }

  lemma CallKeepsPlan(o: Org, call: Call)
    requires Enabled(o, call)
    ensures SamePlan(o, Next(o, call).0)
  {}

  /** Only an acceptance that passed the seat check adds an active member. */
  lemma CallKeepsSeats(o: Org, call: Call)
    requires Enabled(o, call) && o.billingEnabled
    ensures |ActiveMembers(Next(o, call).0)| <= Larger(MaxMembers(o), |ActiveMembers(o)|)
  {
    match call
    case UpdateMemberRole(target, roleId) =>
      if target in o.members { SetRoleKeepsActive(o.members, target, roleId); }
    case RemoveMember(target) =>
      if target in o.members { DeactivateShrinks(o.members, target); }
    case Transfer(current, target) => TransferKeepsActive(o, current, target);
    case Accept(u, id, now) => AcceptKeepsSeats(o, u, id, now);
    case _ =>
  }

  /** The claim transaction itself does not look at the seats, so the bound needs the check and
      the claim to be one step: a claim that comes late breaks it exactly when no seat is left. */
  lemma LateClaimExactlyWhen(o: Org, id: InvitationId, u: UserId, roleId: RoleId, at: Time)
    requires o.billingEnabled && Claimable(o, id, roleId, at) && !IsMember(o, u)
    ensures |ActiveMembers(ClaimInvitation(o, id, u, roleId, at).0)| <= MaxMembers(o) <==> CanAddMember(o)
  {
    ClaimGrows(o.members, u, roleId);
  }

  /** Nor does it look at the owner: its upsert overwrites the role of a member, so a claim that
      comes late keeps one owner exactly when the claimant has not become the owner. */
  lemma LateClaimKeepsOwnerExactlyWhen(o: Org, id: InvitationId, u: UserId, roleId: RoleId, at: Time)
    requires OneOwner(o) && Claimable(o, id, roleId, at) && roleId != o.ownerRole
    ensures OneOwner(ClaimInvitation(o, id, u, roleId, at).0) <==> u != o.ownerId
  {
    var p := ClaimInvitation(o, id, u, roleId, at).0;
    assert u in p.members && p.members[u].roleId == roleId;
    if u != o.ownerId { ClaimKeepsOwner(o, id, u, roleId, at); }
  }

  /** With billing enabled and a fixed plan, active members never exceed the larger of the plan's
      seats and what the organization started with. */
  lemma {:induction false} SeatsBounded(o: Org, calls: seq<Call>, p: Org)
    requires o.billingEnabled && Run(o, calls, p)
    ensures |ActiveMembers(p)| <= Larger(MaxMembers(o), |ActiveMembers(o)|)
    decreases |calls|
  {
    if calls != [] {
      CallKeepsSeats(o, calls[0]);
      CallKeepsPlan(o, calls[0]);
      SeatsBounded(Next(o, calls[0]).0, calls[1..], p);
    }
  }
}
