/** The organization repository and service as objects: one call at a time. */
module OrganizationServices {
  import opened Optional
  import opened Organizations

  class OrganizationsRepository {
    var org: Org

    constructor (org: Org)
      ensures this.org == org
    {
      this.org := org;
    }

    /** Four updates; the row set is written back only when none of them was refused. */
    method TransferOwnership(current: UserId, target: UserId) returns (outcome: Transfer)
      modifies this
      ensures (org, outcome) == Organizations.TransferOwnership(old(org), current, target)
      // A promotion without a previous owner to demote is rolled back.
      ensures outcome != Committed ==> org == old(org)
      ensures outcome == OwnerMissing <==> && old(org).ownerId == current && !old(org).isDeleted
                                           && IsMember(old(org), target) && !IsMember(old(org), current)
      ensures outcome == Committed <==> && old(org).ownerId == current && !old(org).isDeleted
                                        && IsMember(old(org), target) && IsMember(old(org), current)
      ensures org.ownerId == if outcome == Committed then target else old(org).ownerId
      ensures org == old(org).(ownerId := org.ownerId, members := org.members)
      // The target gets the owner role, and everybody else who holds it, or handed it over, the administrators'.
      ensures outcome == Committed && current != target ==>
                && org.members.Keys == old(org).members.Keys
                && forall u | u in org.members :: org.members[u] == Member(
                     if u == target then old(org).ownerRole
                     else if u == current || old(org).members[u].roleId == old(org).ownerRole then old(org).adminRole
                     else old(org).members[u].roleId, old(org).members[u].isActive)
      ensures OneOwner(old(org)) && current != target ==> OneOwner(org) && outcome != OwnerMissing
    {
      if OneOwner(org) && current != target { TransferEffect(org, current, target); }
      if org.ownerId != current || org.isDeleted {
        return Refused;
      }
      var members := org.members;
      if target !in members || !members[target].isActive {
        return TargetNotActive;
      }
      members := members[target := members[target].(roleId := org.ownerRole)];
      if current !in members || !members[current].isActive {
        return OwnerMissing;
      }
      members := members[current := members[current].(roleId := org.adminRole)];
      members := map u | u in members ::
        if members[u].roleId == org.ownerRole && u != target then members[u].(roleId := org.adminRole) else members[u];
      assert members == Organizations.TransferOwnership(org, current, target).0.members;
      org := org.(ownerId := target, members := members);
      outcome := Committed;
    }

    method UpdateMemberRole(u: UserId, roleId: RoleId)
      requires u in org.members
      modifies this
      ensures org == SetRole(old(org), u, roleId)
      ensures org == old(org).(members := old(org).members[u := Member(roleId, old(org).members[u].isActive)])
      // Nobody joins or leaves, nobody else's role changes, and the owner role moves only as asked.
      ensures ActiveMembers(org) == ActiveMembers(old(org))
      ensures forall v :: HoldsOwnerRole(org, v) <==>
                if v == u then roleId == old(org).ownerRole else HoldsOwnerRole(old(org), v)
      ensures OneOwner(old(org)) && u != old(org).ownerId ==> (OneOwner(org) <==> roleId != old(org).ownerRole)
    {
      SetRoleKeepsActive(org.members, u, roleId);
      org := org.(members := org.members[u := org.members[u].(roleId := roleId)]);
    }

    method RemoveMember(u: UserId)
      requires u in org.members
      modifies this
      ensures org == Deactivate(old(org), u)
      ensures org == old(org).(members := old(org).members[u := Member(old(org).members[u].roleId, false)])
      // The row stays, so its role can be revived; exactly this member's seat becomes free.
      ensures ActiveMembers(org) == ActiveMembers(old(org)) - {u}
      ensures forall v :: HoldsOwnerRole(org, v) <==> HoldsOwnerRole(old(org), v)
      ensures OneOwner(old(org)) ==> (OneOwner(org) <==> u != old(org).ownerId)
    {
      DeactivateShrinks(org.members, u);
      org := org.(members := org.members[u := org.members[u].(isActive := false)]);
    }

    method CreateInvitation(id: InvitationId, row: Invitation)
      requires id !in org.invitations
      modifies this
      ensures org == old(org).(invitations := old(org).invitations[id := row])
      // The new invitation can be claimed until it expires, and no other claim is affected.
      ensures forall i, roleId, at :: Claimable(org, i, roleId, at) <==>
                if i == id then roleId == row.roleId && row.status == Pending && at < row.expiresAt
                else Claimable(old(org), i, roleId, at)
      ensures forall email :: EmailInvited(org, email) <==>
                EmailInvited(old(org), email) || (email == row.email && row.status == Pending)
    {
      org := org.(invitations := org.invitations[id := row]);
      forall email ensures EmailInvited(org, email) <==>
        EmailInvited(old(org), email) || (email == row.email && row.status == Pending)
      {
        assert org.invitations[id] == row;
        var before := old(org).invitations;
        if i :| i in before && before[i].email == email && before[i].status == Pending {
          assert org.invitations[i] == before[i];
        }
      }
    }

    method SetInvitationStatus(id: InvitationId, status: InvitationStatus)
      requires id in org.invitations
      modifies this
      ensures org == Organizations.SetInvitationStatus(old(org), id, status)
      ensures org == old(org).(invitations := old(org).invitations[id := old(org).invitations[id].(status := status)])
      // A settled invitation can never be claimed; the claims of all others, and who is a member, stay.
      ensures status != Pending ==> forall roleId, at :: !Claimable(org, id, roleId, at)
      ensures forall i, roleId, at | i != id :: Claimable(org, i, roleId, at) <==> Claimable(old(org), i, roleId, at)
      ensures ActiveMembers(org) == ActiveMembers(old(org))
    {
      org := org.(invitations := org.invitations[id := org.invitations[id].(status := status)]);
    }

    method AcceptInvitation(id: InvitationId, u: UserId, roleId: RoleId, at: Time) returns (accepted: bool)
      modifies this
      ensures (org, accepted) == ClaimInvitation(old(org), id, u, roleId, at)
      ensures accepted <==> && id in old(org).invitations && old(org).invitations[id].roleId == roleId
                            && old(org).invitations[id].status == Pending && at < old(org).invitations[id].expiresAt
      // The new member gets the invited role, and the invitation is used up; nothing else changes.
      ensures accepted ==>
                var was := old(org);
                org == was.(members := was.members[u := Member(was.invitations[id].roleId, true)],
                            invitations := was.invitations[id := was.invitations[id].(status := Accepted)])
      ensures !accepted ==> org == old(org)
    {
      if id !in org.invitations || org.invitations[id].roleId != roleId
         || org.invitations[id].status != Pending || org.invitations[id].expiresAt <= at {
        return false;
      }
      SetInvitationStatus(id, Accepted);
      org := org.(members := org.members[u := Member(roleId, true)]);
      accepted := true;
    }
  }

  /** An active or trialing plan bounds the active members by its own number, any other organization
      by the default; without billing there is no bound. */
  predicate SeatLeft(o: Org) {
    var taken := |set m | m in o.members && o.members[m].isActive|;
    && (o.billingEnabled && o.subscription.Some? && o.subscription.value.usable ==>
          taken < o.subscription.value.maxMembers)
    && (o.billingEnabled && !(o.subscription.Some? && o.subscription.value.usable) ==> taken < o.defaultMaxMembers)
  }

  lemma SeatsCounted(o: Org)
    ensures SeatLeft(o) <==> CanAddMember(o)
  {
    assert ActiveMembers(o) == set m | m in o.members && o.members[m].isActive;
  }

  /** A pending invitation that its addressee answers too late. */
  predicate LapsedFor(o: Org, u: UserId, id: InvitationId, now: Time) {
    && id in o.invitations && o.invitations[id].status == Pending && o.invitations[id].expiresAt < now
    && u in o.users && o.users[u] == User(o.invitations[id].email, true)
  }

  class OrganizationsService {
    const repository: OrganizationsRepository

    constructor (repository: OrganizationsRepository)
      ensures this.repository == repository
    {
      this.repository := repository;
    }

    method UpdateMemberRole(target: UserId, roleId: RoleId) returns (reply: Reply)
      modifies repository
      ensures (repository.org, reply) == UpdateMemberRoleCall(old(repository.org), target, roleId)
      ensures var was := old(repository.org);
              && (reply == Ok <==>
                    && target in was.members && was.members[target].isActive
                    && was.members[target].roleId != was.ownerRole
                    && roleId in was.roles && !was.roles[roleId].foreign && was.roles[roleId].key != Owner)
              && (reply == NotFound <==> !(target in was.members && was.members[target].isActive))
              && repository.org
                 == if reply == Ok then was.(members := was.members[target := Member(roleId, true)]) else was
      ensures OneOwner(old(repository.org)) ==>
                OneOwner(repository.org) && (target == old(repository.org).ownerId ==> reply == Forbidden)
    {
      if OneOwner(repository.org) { UpdateRoleKeepsOwner(repository.org, target, roleId); }
      var org := repository.org;
      if !IsMember(org, target) {
        return NotFound;
      }
      if org.members[target].roleId == org.ownerRole {
        return Forbidden;
      }
      if roleId !in org.roles || org.roles[roleId].foreign {
        return BadRequest;
      }
      if org.roles[roleId].key == Owner {
        return Forbidden;
      }
      repository.UpdateMemberRole(target, roleId);
      reply := Ok;
    }

    method RemoveMember(target: UserId) returns (reply: Reply)
      modifies repository
      ensures (repository.org, reply) == RemoveMemberCall(old(repository.org), target)
      ensures var was := old(repository.org);
              && (reply == NotFound <==> !(target in was.members && was.members[target].isActive))
              && (reply == Ok <==> && target in was.members && was.members[target].isActive
                                   && was.members[target].roleId != was.ownerRole)
              && repository.org
                 == if reply != Ok then was
                    else was.(members := was.members[target := Member(was.members[target].roleId, false)])
      ensures ActiveMembers(repository.org)
              == ActiveMembers(old(repository.org)) - if reply == Ok then {target} else {}
      ensures OneOwner(old(repository.org)) ==>
                OneOwner(repository.org) && (target == old(repository.org).ownerId ==> reply == Forbidden)
    {
      if OneOwner(repository.org) { RemoveKeepsOwner(repository.org, target); }
      var org := repository.org;
      if !IsMember(org, target) {
        return NotFound;
      }
      if org.members[target].roleId == org.ownerRole {
        return Forbidden;
      }
      DeactivateShrinks(org.members, target);
      repository.RemoveMember(target);
      reply := Ok;
    }

    method TransferOwnership(current: UserId, target: UserId) returns (reply: Reply)
      modifies repository
      ensures (repository.org, reply) == TransferCall(old(repository.org), current, target)
      ensures var was := old(repository.org);
              reply == Ok <==>
                && !was.isDeleted && current == was.ownerId && target != current
                && target in was.members && was.members[target].isActive
                && current in was.members && was.members[current].isActive
      ensures reply == Ok ==>
                && repository.org == old(repository.org).(ownerId := target, members := repository.org.members)
                && repository.org.members.Keys == old(repository.org).members.Keys
                && repository.org.members[target] == Member(old(repository.org).ownerRole, true)
                && repository.org.members[current] == Member(old(repository.org).adminRole, true)
      ensures repository.org.ownerId == if reply == Ok then target else old(repository.org).ownerId
      ensures reply != Ok ==> repository.org == old(repository.org)
      ensures reply != Conflict
      ensures OneOwner(old(repository.org)) ==> OneOwner(repository.org) && reply != Failed
    {
      var org := repository.org;
      if org.isDeleted {
        return NotFound;
      }
      if org.ownerId != current {
        return Forbidden;
      }
      if target == current || !IsMember(org, target) {
        return BadRequest;
      }
      var outcome := repository.TransferOwnership(current, target);
      reply := match outcome case Committed => Ok case Refused => Conflict case _ => Failed;
    }

    method AcceptInvitation(u: UserId, id: InvitationId, now: Time) returns (reply: Reply)
      modifies repository
      ensures (repository.org, reply) == AcceptCall(old(repository.org), u, id, now)
      // Who may join: the addressee, in time, while a seat is left and the role can be assigned.
      ensures var was := old(repository.org);
              reply == Ok <==>
                && id in was.invitations && was.invitations[id].status == Pending && now < was.invitations[id].expiresAt
                && u in was.users && was.users[u] == User(was.invitations[id].email, true)
                && !was.isDeleted && SeatLeft(was) && !(u in was.members && was.members[u].isActive)
                && was.invitations[id].roleId in was.roles && !was.roles[was.invitations[id].roleId].foreign
                && was.roles[was.invitations[id].roleId].key != Owner
      // The new member gets the invited role.
      ensures var was := old(repository.org);
              reply == Ok ==>
                repository.org == was.(members := was.members[u := Member(was.invitations[id].roleId, true)],
                                       invitations := was.invitations[id := was.invitations[id].(status := Accepted)])
      // A refusal changes nothing but the status of an invitation that has lapsed or offers ownership.
      ensures var was := old(repository.org);
              reply != Ok ==>
                && repository.org == was.(invitations := repository.org.invitations)
                && repository.org.invitations
                   == if reply == Forbidden then was.invitations[id := was.invitations[id].(status := Revoked)]
                      else if LapsedFor(was, u, id, now)
                      then was.invitations[id := was.invitations[id].(status := Expired)] else was.invitations
      ensures LapsedFor(old(repository.org), u, id, now) ==> reply == Conflict
      ensures reply == Forbidden ==> old(repository.org).roles[old(repository.org).invitations[id].roleId].key == Owner
      ensures reply == PaymentRequired ==> !SeatLeft(old(repository.org))
      ensures ActiveMembers(repository.org) == ActiveMembers(old(repository.org)) + if reply == Ok then {u} else {}
      ensures repository.org.ownerId == old(repository.org).ownerId
      ensures OneOwner(old(repository.org)) ==> OneOwner(repository.org)
    {
      if OneOwner(repository.org) { AcceptKeepsOwner(repository.org, u, id, now); }
      AcceptKeepsSeats(repository.org, u, id, now);
      SeatsCounted(repository.org);
      var org := repository.org;
      if id !in org.invitations {
        return NotFound;
      }
      var invitation := org.invitations[id];
      if u !in org.users || !org.users[u].isActive || org.users[u].email != invitation.email {
        return NotFound;
      }
      if invitation.status != Pending {
        return Conflict;
      }
      if invitation.expiresAt < now {
        repository.SetInvitationStatus(id, Expired);
        return Conflict;
      }
      if org.isDeleted {
        return NotFound;
      }
      if org.billingEnabled && |ActiveMembers(org)| >= MaxMembers(org) {
        return PaymentRequired;
      }
      if IsMember(org, u) || !RoleAvailable(org, invitation.roleId) {
        return Conflict;
      }
      if org.roles[invitation.roleId].key == Owner {
        repository.SetInvitationStatus(id, Revoked);
        return Forbidden;
      }
      var accepted := repository.AcceptInvitation(id, u, invitation.roleId, now);
      reply := if accepted then Ok else Conflict;
    }

    method InviteMember(id: InvitationId, email: Email, roleId: RoleId, now: Time) returns (reply: Reply)
      requires id !in repository.org.invitations
      modifies repository
      ensures (repository.org, reply) == InviteCall(old(repository.org), id, email, roleId, now)
      ensures var was := old(repository.org);
              // Nobody is invited who is a member, or whose invitation is still pending.
              && (reply == Conflict <==>
                    || (exists m | m in was.members ::
                          was.members[m].isActive && m in was.users && was.users[m].email == email)
                    || (exists i | i in was.invitations ::
                          was.invitations[i].email == email && was.invitations[i].status == Pending))
              && (reply == BadRequest || reply == Forbidden ==>
                    !(roleId in was.roles && !was.roles[roleId].foreign && was.roles[roleId].key != Owner))
              && (reply == NotFound ==> was.isDeleted)
              && (reply == PaymentRequired ==> !SeatLeft(was))
              && (reply == Ok ==> && roleId in was.roles && !was.roles[roleId].foreign && was.roles[roleId].key != Owner
                                  && !was.isDeleted && SeatLeft(was))
              // The invitation stands for seven days.
              && repository.org
                 == if reply != Ok then was
                    else was.(invitations := was.invitations[id := Invitation(email, roleId, Pending, now + 604800000)])
      ensures reply in {Ok, Conflict, BadRequest, Forbidden, NotFound, PaymentRequired}
      ensures InvitationsOk(old(repository.org)) ==> InvitationsOk(repository.org)
      ensures reply == Ok ==>
                && id in repository.org.invitations && repository.org.invitations[id].status == Pending
                && forall i | i in repository.org.invitations && i != id ::
                     repository.org.invitations[i].status == Pending ==> repository.org.invitations[i].email != email
    {
      if InvitationsOk(repository.org) { InviteKeepsInvitations(repository.org, id, email, roleId, now); }
      if InviteCall(repository.org, id, email, roleId, now).1 == Ok {
        InvitesUninvited(repository.org, id, email, roleId, now);
      }
      SeatsCounted(repository.org);
      var org := repository.org;
      if EmailIsMember(org, email) || EmailInvited(org, email) {
        return Conflict;
      }
      if roleId !in org.roles || org.roles[roleId].foreign {
        return BadRequest;
      }
      if org.roles[roleId].key == Owner {
        return Forbidden;
      }
      if org.isDeleted {
        return NotFound;
      }
      if org.billingEnabled && |ActiveMembers(org)| >= MaxMembers(org) {
        return PaymentRequired;
      }
      repository.CreateInvitation(id, Invitation(email, roleId, Pending, now + INVITATION_TTL_MS));
      reply := Ok;
    }

    method RevokeInvitation(id: InvitationId) returns (reply: Reply)
      modifies repository
      ensures (repository.org, reply) == RevokeCall(old(repository.org), id)
      ensures var was := old(repository.org);
              && (reply == NotFound <==> id !in was.invitations)
              && (reply == Ok <==> id in was.invitations && was.invitations[id].status == Pending)
              && repository.org
                 == if reply != Ok then was
                    else was.(invitations := was.invitations[id := was.invitations[id].(status := Revoked)])
      ensures reply == Ok ==>
                forall u, roleId, at :: ClaimInvitation(repository.org, id, u, roleId, at).0 == repository.org
    {
      if id !in repository.org.invitations {
        return NotFound;
      }
      if repository.org.invitations[id].status != Pending {
        return Conflict;
      }
      repository.SetInvitationStatus(id, Revoked);
      reply := Ok;
    }
  }
}
