/**
 The onboarding service as it runs: rows inserted, updated and deleted one statement at a time, and put
 back when the call fails.  Every call is tied to its specification in `Invitations`.
 */
module InvitationStore {
  import opened Options
  import opened Invitations
  import opened OnboardingAccess
  import MakerChecker
  import Rbac
  import SecurityControls

  class Store {
    var principals: map<UserId, bool>
    var users: map<UserId, UserStatus>
    var identities: map<Subject, Identity>
    var memberships: map<(TenantId, UserId), Membership>
    var invitations: map<InvitationId, Invitation>
    var requests: map<RequestId, SelfRequest>
    var named: set<UserId>

    function State(): Tables
      reads this
    {
      Tables(principals, users, identities, memberships, invitations, requests, named)
    }

    method Rollback(s: Tables)
      modifies this
      ensures State() == s
    {
      principals, users, identities := s.principals, s.users, s.identities;
      memberships, invitations, requests, named := s.memberships, s.invitations, s.requests, s.named;
    }

    /** The role loop of _validated_access: the privileged roles, or None at the first role it refuses. */
    method PrivilegedAmong(d: Directory, t: TenantId, roles: seq<int>) returns (privileged: Option<seq<int>>)
      ensures privileged.Some? <==> forall r :: r in roles ==> Rbac.RoleActive(d.rbac, t, r)
      ensures privileged.Some? ==> privileged.value == MakerChecker.PrivilegedOf(d.rbac, t, roles)
    {
      var found := [];
      for i := 0 to |roles|
        invariant forall r :: r in roles[..i] ==> Rbac.RoleActive(d.rbac, t, r)
        invariant found == MakerChecker.PrivilegedOf(d.rbac, t, roles[..i])
      {
        if !Rbac.RoleActive(d.rbac, t, roles[i]) {
          return None;
        }
        assert roles[..i + 1][..i] == roles[..i];
        if Rbac.Privileged(d.rbac, t, roles[i]) {
          found := found + [roles[i]];
        }
      }
      assert roles[..|roles|] == roles;
      return Some(found);
    }

    /** Its location loop: the distinct pairs, or None at the first pair it refuses. */
    method DistinctPlaces(d: Directory, t: TenantId, places: seq<(PlaceId, PlaceId)>)
      returns (distinct: Option<seq<(PlaceId, PlaceId)>>)
      ensures distinct.Some? <==> forall place :: place in places ==> PlaceValid(d, t, place)
      ensures distinct.Some? ==> distinct.value == MakerChecker.Dedup(places)
    {
      var kept, seen := [], {};
      for i := 0 to |places|
        invariant kept == MakerChecker.Dedup(places[..i])
        invariant forall place :: place in seen <==> place in places[..i]
        invariant forall place :: place in seen ==> PlaceValid(d, t, place)
      {
        assert places[..i + 1][..i] == places[..i];
        if places[i] !in seen {
          seen := seen + {places[i]};
          if !PlaceValid(d, t, places[i]) {
            return None;
          }
          kept := kept + [places[i]];
        }
      }
      assert places[..|places|] == places;
      return Some(kept);
    }

    /** _validated_access: what it keeps of the proposal and the privileged roles, or None for its ValueErrors. */
    method ValidatedAccess(d: Directory, t: TenantId, p: Proposal)
        returns (access: Option<Proposal>, privileged: seq<int>)
      ensures access.None? <==> Validated(d, t, p).AccessInvalid?
      ensures access.Some? ==> access.value == Distinct(p)
      ensures access.Some? ==> (privileged == [] <==> Validated(d, t, p).Granted?)
      ensures access.Some? ==> forall r :: r in privileged <==> r in p.roles && Rbac.Privileged(d.rbac, t, r)
    {
      hide MakerChecker.Dedup, MakerChecker.PrivilegedOf, PlaceValid;
      var roles, groups := MakerChecker.Dedup(p.roles), MakerChecker.Dedup(p.groups);
      var found := PrivilegedAmong(d, t, roles);
      if found.None? {
        return None, [];
      }
      for i := 0 to |groups|
        invariant forall g :: g in groups[..i] ==> Rbac.GroupActive(d.rbac, t, g)
      {
        if !Rbac.GroupActive(d.rbac, t, groups[i]) {
          return None, [];
        }
      }
      var places := DistinctPlaces(d, t, p.places);
      if places.None? {
        return None, [];
      }
      return Some(Proposal(roles, groups, places.value)), found.value;
    }

    method CreateInvitation(d: Directory, q: Invite) returns (r: Result<InvitationId, Error>)
      modifies this
      ensures (State(), r) == Invitations.CreateInvitation(old(State()), d, q)
    {
      hide Validated, Distinct;
      if !Filled(q.email) && !Filled(q.mobile) {
        return Err(NoContact);
      }
      if q.expiresAt <= q.now {
        return Err(NotInFuture);
      }
      if q.tenant !in d.tenants.Values {
        return Err(NotFound);
      }
      var access, _ := ValidatedAccess(d, q.tenant, q.access);
      if access.None? {
        return Err(AccessRefused);
      }
      var saved := State();
      if q.userId in principals || q.userId in users || (q.tenant, q.userId) in memberships
         || q.invitationId in invitations || q.actor !in users {
        return Err(IntegrityError);
      }
      principals := principals[q.userId := true];
      users := users[q.userId := Invited];
      memberships := memberships[(q.tenant, q.userId) := Membership(MemberPending, q.employeeCode)];
      invitations := invitations[q.invitationId := 
        Invitation(q.tenant, q.userId, q.actor, Pending, q.employeeCode, q.expiresAt, q.tokenHash, access.value)];
      named := named + {q.actor};
      if q.databaseFails {
        Rollback(saved);
        return Err(DatabaseError);
      }
      return Ok(q.invitationId);
    }

    method CancelInvitation(t: TenantId, i: InvitationId, actor: UserId, databaseFails: bool)
        returns (r: Result<bool, Error>)
      modifies this
      ensures (State(), r) == Invitations.CancelInvitation(old(State()), t, i, actor, databaseFails)
    {
      if i !in invitations || invitations[i].tenant != t {
        return Ok(false);
      }
      if !invitations[i].status.Pending? {
        return Err(NotPending);
      }
      if actor !in users {
        return Err(IntegrityError);
      }
      var saved, k := State(), (t, invitations[i].invited);
      invitations := invitations[i := invitations[i].(status := InvitationCancelled)];
      if k in memberships && memberships[k].status.MemberPending? {
        memberships := memberships[k := memberships[k].(status := MemberEnded)];
      }
      named := named + {actor};
      if databaseFails {
        Rollback(saved);
        return Err(DatabaseError);
      }
      return Ok(true);
    }

    /** The merge branch of _bind_invitation_identity; `ok` is false when a constraint stops it half-way. */
    method MergePlaceholder(i: InvitationId, existing: UserId) returns (ok: bool)
      requires i in invitations
      modifies this
      ensures ok <==> Invitations.MergePlaceholder(old(State()), i, existing).Some?
      ensures ok ==> State() == Invitations.MergePlaceholder(old(State()), i, existing).value
    {
      var v := invitations[i];
      var k := (v.tenant, v.invited);
      if k in memberships && memberships[k].status.MemberPending? {
        memberships := memberships - {k};
      }
      invitations := invitations[i := v.(invited := existing)];
      if (v.tenant, existing) in memberships {
        return false;
      }
      memberships := memberships[(v.tenant, existing) := Membership(MemberPending, v.employeeCode)];
      if Referenced(State(), v.invited) {
        return false;
      }
      users := users - {v.invited};
      principals := principals - {v.invited};
      return true;
    }

    method BindIdentity(i: InvitationId, k: Subject) returns (r: Result<UserId, Error>)
      requires i in invitations
      modifies this
      ensures r.Ok? <==> Bind(old(State()), i, k).Ok?
      ensures r.Err? ==> Bind(old(State()), i, k) == Err(r.error)
      ensures r.Ok? ==> Bind(old(State()), i, k) == Ok((State(), r.value))
    {
      var v := invitations[i];
      if !IdentityKnown(State(), k) {
        if k in identities || v.invited !in users {
          return Err(IntegrityError);
        }
        identities := identities[k := Identity(v.invited, true)];
        return Ok(v.invited);
      }
      var existing := identities[k].user;
      if !identities[k].active || !principals[existing] {
        return Err(PrincipalNotActive);
      }
      if existing == v.invited {
        return Ok(v.invited);
      }
      if !users[existing].Active? {
        return Err(UserNotActive);
      }
      if (v.tenant, existing) in memberships {
        return Err(AlreadyMember);
      }
      hide Invitations.MergePlaceholder;
      var ok := MergePlaceholder(i, existing);
      return if ok then Ok(existing) else Err(IntegrityError);
    }

    method AcceptInvitation(d: Directory, q: Acceptance) returns (r: Result<UserId, Error>)
      modifies this
      ensures (State(), r) == Invitations.AcceptInvitation(old(State()), d, q)
    {
      hide Bind, Validated, Distinct;
      if q.invitation !in invitations || !invitations[q.invitation].status.Pending? {
        return Err(PermissionDenied);
      }
      var saved, v := State(), invitations[q.invitation];
      if v.expiresAt <= q.now {
        invitations := invitations[q.invitation := v.(status := Expired)];
        if q.databaseFails {
          Rollback(saved);
          return Err(DatabaseError);
        }
        return Err(PermissionDenied);
      }
      if !d.verifies(v.tokenHash, q.token) {
        return Err(PermissionDenied);
      }
      r := BindIdentity(q.invitation, q.identity);
      if r.Err? {
        Rollback(saved);
        return;
      }
      var u := r.value;
      var access, privileged := ValidatedAccess(d, v.tenant, v.access);
      if access.None? {
        Rollback(saved);
        return Err(AccessRefused);
      }
      if RequestsClash(d, v.tenant, u, v.access, q.ids) {
        Rollback(saved);
        return Err(RequestPending);
      }
      if q.databaseFails || q.invitation !in invitations {
        Rollback(saved);
        return Err(DatabaseError);
      }
      if u in users && users[u].Invited? {
        users := users[u := Active];
      }
      invitations := invitations[q.invitation := invitations[q.invitation].(status := Accepted)];
      if privileged == [] {
        memberships := ActivateMember(memberships, (invitations[q.invitation].tenant, u));
      }
      named := named + {u};
    }

    method ResolveUser(k: Subject, newId: UserId) returns (r: Result<UserId, Error>)
      modifies `principals, `users, `identities
      ensures r.Ok? <==> Resolve(old(State()), k, newId).Ok?
      ensures r.Err? ==> Resolve(old(State()), k, newId) == Err(r.error) && State() == old(State())
      ensures r.Ok? ==> Resolve(old(State()), k, newId) == Ok((State(), r.value))
    {
      if IdentityKnown(State(), k) {
        var u := identities[k].user;
        if !identities[k].active || !principals[u] {
          return Err(PrincipalNotActive);
        }
        if users[u].OtherUserStatus? {
          return Err(UserNotActive);
        }
        if users[u].Invited? {
          users := users[u := Active];
        }
        assert users == old(users)[u := Active];
        return Ok(u);
      }
      if k in identities || newId in principals || newId in users {
        return Err(IntegrityError);
      }
      principals := principals[newId := true];
      users := users[newId := Active];
      identities := identities[k := Identity(newId, true)];
      return Ok(newId);
    }

    method SubmitSelfRegistration(d: Directory, q: Registration) returns (r: Result<UserId, Error>)
      modifies this
      ensures (State(), r) == Invitations.SubmitSelfRegistration(old(State()), d, q)
    {
      hide Resolve, SecurityControls.EffectiveControl;
      if q.code !in d.tenants {
        return Err(PermissionDenied);
      }
      var t := d.tenants[q.code];
      var control := SecurityControls.EffectiveControl(d.controls, t, SELF_ONBOARDING_CONTROL);
      if !control.On? {
        return Err(if control.Endless? then RecursionLimit else PermissionDenied);
      }
      if t !in d.settings || !d.settings[t].active || !d.verifies(d.settings[t].tokenHash, q.token) {
        return Err(PermissionDenied);
      }
      var saved := State();
      r := ResolveUser(q.identity, q.userId);
      if r.Err? {
        return;
      }
      var u := r.value;
      var k := (t, u);
      if k in memberships && (memberships[k].status.MemberSuspended? || memberships[k].status.MemberEnded?) {
        Rollback(saved);
        return Err(MembershipRefused);
      }
      if q.databaseFails {
        Rollback(saved);
        return Err(DatabaseError);
      }
      if (k in memberships && memberships[k].status.MemberActive?) || HasPendingRequest(State(), t, u) {
        return;
      }
      if q.requestId in requests || HasOpenRequest(State(), t, u) {
        Rollback(saved);
        return Err(IntegrityError);
      }
      if k !in memberships {
        memberships := memberships[k := Membership(MemberPending, None)];
      }
      requests := requests[q.requestId := SelfRequest(t, u, q.identity, PendingApproval, None)];
      named := named + {u};
    }

    method ApproveSelfRequest(
      d: Directory, t: TenantId, id: RequestId, actor: UserId, proposal: Proposal, databaseFails: bool)
      returns (r: Result<UserId, Error>)
      modifies this
      ensures (State(), r) == Invitations.ApproveSelfRequest(old(State()), d, t, id, actor, proposal, databaseFails)
    {
      hide Validated, Distinct;
      if id !in requests || requests[id].tenant != t {
        return Err(NotFound);
      }
      if !requests[id].status.PendingApproval? {
        return Err(NotPending);
      }
      var access, privileged := ValidatedAccess(d, t, proposal);
      if access.None? {
        return Err(AccessRefused);
      }
      if privileged != [] {
        return Err(PrivilegedRefused);
      }
      var saved, u := State(), requests[id].user;
      if (t, u) !in memberships || !memberships[(t, u)].status.MemberPending? {
        return Err(MembershipRefused);
      }
      if actor !in users {
        return Err(IntegrityError);
      }
      memberships := memberships[(t, u) := memberships[(t, u)].(status := MemberActive)];
      requests := requests[id := requests[id].(status := Approved, reviewedBy := Some(actor))];
      named := named + {actor, u};
      if databaseFails {
        Rollback(saved);
        return Err(DatabaseError);
      }
      return Ok(u);
    }

    method RejectSelfRequest(t: TenantId, id: RequestId, actor: UserId, databaseFails: bool)
        returns (r: Result<UserId, Error>)
      modifies this
      ensures (State(), r) == Invitations.RejectSelfRequest(old(State()), t, id, actor, databaseFails)
    {
      if id !in requests || requests[id].tenant != t {
        return Err(NotFound);
      }
      if !requests[id].status.PendingApproval? {
        return Err(NotPending);
      }
      if actor !in users {
        return Err(IntegrityError);
      }
      var saved := State();
      requests := requests[id := requests[id].(status := Rejected, reviewedBy := Some(actor))];
      named := named + {actor};
      if databaseFails {
        Rollback(saved);
        return Err(DatabaseError);
      }
      return Ok(requests[id].user);
    }
  }
}
