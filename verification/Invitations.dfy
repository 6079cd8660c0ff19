/**
 Tenant onboarding: invitations with a placeholder user, binding an invitation to an identity that may
 already belong to somebody, and self-registration with approval.

 Foreign keys are modelled: an insert that names a missing row and a delete of a row that is still
 named are IntegrityErrors, and any error rolls the call back.  The rows a call only reads are its
 `Directory`; the access rows it hands out are the subject of `MakerChecker`.
 */
module Invitations {
  import opened Options
  import opened OnboardingAccess
  import Text

  type UserId = int
  type InvitationId = int
  type RequestId = int
  type Time = int

  /** (provider, provider_subject), which the database keeps unique. */
  type Subject = (int, int)

  // ---------------------------------------------------------------------------------------------
  // Tables
  // ---------------------------------------------------------------------------------------------

  datatype UserStatus = Invited | Active | OtherUserStatus
  datatype Identity = Identity(user: UserId, active: bool)

  datatype MembershipStatus = MemberPending | MemberActive | MemberSuspended | MemberEnded
  datatype Membership = Membership(status: MembershipStatus, employeeCode: Option<int>)

  datatype InvitationStatus = Pending | Accepted | Expired | InvitationCancelled
  datatype Invitation = Invitation(
    tenant: TenantId, invited: UserId, invitedBy: UserId, status: InvitationStatus, employeeCode: Option<int>,
    expiresAt: Time, tokenHash: Hash, access: Proposal)

  datatype RequestStatus = PendingApproval | Approved | Rejected
  datatype SelfRequest = SelfRequest(
    tenant: TenantId, user: UserId, identity: Subject, status: RequestStatus, reviewedBy: Option<UserId>)

  /** `principals` maps a principal to whether it is ACTIVE; `named` are the users rows of other tables refer to. */
  datatype Tables = Tables(
    principals: map<UserId, bool>,
    users: map<UserId, UserStatus>,
    identities: map<Subject, Identity>,
    memberships: map<(TenantId, UserId), Membership>,
    invitations: map<InvitationId, Invitation>,
    requests: map<RequestId, SelfRequest>,
    named: set<UserId>)

  datatype Error =
    | PermissionDenied | NotFound | NotPending | PrincipalNotActive | UserNotActive | AlreadyMember
    | MembershipRefused | AccessRefused | PrivilegedRefused | RequestPending | NoContact | NotInFuture
    | RecursionLimit | IntegrityError | DatabaseError

  // ---------------------------------------------------------------------------------------------
  // Foreign keys
  // ---------------------------------------------------------------------------------------------

  /** Some row still refers to u. */
  predicate Referenced(s: Tables, u: UserId) {
    || u in s.named
    || (exists k :: k in s.identities && s.identities[k].user == u)
    || (exists m :: m in s.memberships && m.1 == u)
    || (exists i :: i in s.invitations && (s.invitations[i].invited == u || s.invitations[i].invitedBy == u))
    || (exists r :: r in s.requests && (s.requests[r].user == u || s.requests[r].reviewedBy == Some(u)))
  }

  // ---------------------------------------------------------------------------------------------
  // Invitations
  // ---------------------------------------------------------------------------------------------

  datatype Invite = Invite(
    tenant: TenantId, actor: UserId, email: Option<string>, mobile: Option<string>, employeeCode: Option<int>,
    access: Proposal, expiresAt: Time, now: Time,
    invitationId: InvitationId, userId: UserId, tokenHash: Hash, databaseFails: bool)

  /** Something is left of the text after strip(). */
  predicate Filled(text: Option<string>) {
    text.Some? && exists i :: 0 <= i < |text.value| && !Text.IsSpace(text.value[i])
  }

  /** What create_invitation checks before it writes. */
  function InviteFault(d: Directory, q: Invite): Option<Error> {
    if !Filled(q.email) && !Filled(q.mobile) then Some(NoContact)
    else if q.expiresAt <= q.now then Some(NotInFuture)
    else if q.tenant !in d.tenants.Values then Some(NotFound)
    else if Validated(d, q.tenant, q.access).AccessInvalid? then Some(AccessRefused)
    else None
  }

  /** create_invitation: a placeholder principal and user, a PENDING membership and the invitation. */
  function CreateInvitation(s: Tables, d: Directory, q: Invite): (Tables, Result<InvitationId, Error>) {
    if InviteFault(d, q).Some? then (s, Err(InviteFault(d, q).value))
    else if q.userId in s.principals || q.userId in s.users || (q.tenant, q.userId) in s.memberships
            || q.invitationId in s.invitations || q.actor !in s.users then (s, Err(IntegrityError))
    else if q.databaseFails then (s, Err(DatabaseError))
    else
      (s.(principals := s.principals[q.userId := true],
          users := s.users[q.userId := Invited],
          memberships := s.memberships[(q.tenant, q.userId) := Membership(MemberPending, q.employeeCode)],
          invitations := s.invitations[q.invitationId :=
            Invitation(q.tenant, q.userId, q.actor, Pending, q.employeeCode, q.expiresAt, q.tokenHash,
                Distinct(q.access))],
          named := s.named + {q.actor}),
       Ok(q.invitationId))
  }

  function EndPending(s: Tables, k: (TenantId, UserId)): map<(TenantId, UserId), Membership> {
    if k in s.memberships && s.memberships[k].status.MemberPending?
    then s.memberships[k := s.memberships[k].(status := MemberEnded)] else s.memberships
  }

  function CancelInvitation(s: Tables, t: TenantId, i: InvitationId, actor: UserId, databaseFails: bool):
      (Tables, Result<bool, Error>)
  {
    if i !in s.invitations || s.invitations[i].tenant != t then (s, Ok(false))
    else if !s.invitations[i].status.Pending? then (s, Err(NotPending))
    else if actor !in s.users then (s, Err(IntegrityError))
    else if databaseFails then (s, Err(DatabaseError))
    else
      (s.(invitations := s.invitations[i := s.invitations[i].(status := InvitationCancelled)],
          memberships := EndPending(s, (t, s.invitations[i].invited)),
          named := s.named + {actor}),
       Ok(true))
  }

  // ---------------------------------------------------------------------------------------------
  // Binding
  // ---------------------------------------------------------------------------------------------

  /** The row the identity query returns: identity, user and principal joined. */
  predicate IdentityKnown(s: Tables, k: Subject) {
    k in s.identities && s.identities[k].user in s.users && s.identities[k].user in s.principals
  }

  /** DELETE FROM security_principals and users, refused while the user is referenced. */
  function DropUser(s: Tables, u: UserId): Option<Tables> {
    if Referenced(s, u) then None
    else Some(s.(users := s.users - {u}, principals := s.principals - {u}))
  }

  /** The placeholder's PENDING membership and its invitation move to the existing user, and the placeholder goes. */
  function MergePlaceholder(s: Tables, i: InvitationId, existing: UserId): Option<Tables>
    requires i in s.invitations
  {
    var v := s.invitations[i];
    var place := (v.tenant, v.invited);
    var kept := if place in s.memberships && s.memberships[place].status.MemberPending?
        then s.memberships - {place} else s.memberships;
    if (v.tenant, existing) in kept then None
    else
      DropUser(s.(memberships := kept[(v.tenant, existing) := Membership(MemberPending, v.employeeCode)],
                  invitations := s.invitations[i := v.(invited := existing)]), v.invited)
  }

  /** _bind_invitation_identity: the tables and the user the invitation now belongs to. */
  function Bind(s: Tables, i: InvitationId, k: Subject): Result<(Tables, UserId), Error>
    requires i in s.invitations
  {
    var v := s.invitations[i];
    if !IdentityKnown(s, k) then
      if k in s.identities || v.invited !in s.users then Err(IntegrityError)
      else Ok((s.(identities := s.identities[k := Identity(v.invited, true)]), v.invited))
    else
      var existing := s.identities[k].user;
      if !s.identities[k].active || !s.principals[existing] then Err(PrincipalNotActive)
      else if existing == v.invited then Ok((s, v.invited))
      else if !s.users[existing].Active? then Err(UserNotActive)
      else if (v.tenant, existing) in s.memberships then Err(AlreadyMember)
      else
        match MergePlaceholder(s, i, existing)
        case None => Err(IntegrityError)
        case Some(merged) => Ok((merged, existing))
  }

  /** `ids` supplies the uuid4() values of the access rows. */
  datatype Acceptance = Acceptance(
    invitation: InvitationId, token: Secret, identity: Subject, now: Time, ids: int -> int, databaseFails: bool)

  function ActivateMember(m: map<(TenantId, UserId), Membership>, k: (TenantId, UserId)):
      map<(TenantId, UserId), Membership>
  {
    if k in m && m[k].status.MemberPending? then m[k := m[k].(status := MemberActive)] else m
  }

  /**
   Everything after the binding: the user becomes ACTIVE, the invitation ACCEPTED, and granted access activates
   the membership.
   */
  function Conclude(s: Tables, i: InvitationId, u: UserId, granted: bool): Tables
    requires i in s.invitations
  {
    var v := s.invitations[i];
    s.(users := if u in s.users && s.users[u].Invited? then s.users[u := Active] else s.users,
       invitations := s.invitations[i := v.(status := Accepted)],
       memberships := if granted then ActivateMember(s.memberships, (v.tenant, u)) else s.memberships,
       named := s.named + {u})
  }

  /** What the stored proposal is worth now, for the user u the invitation was bound to. */
  function AccessFault(d: Directory, v: Invitation, q: Acceptance, u: UserId): Option<Error> {
    if Validated(d, v.tenant, v.access).AccessInvalid? then Some(AccessRefused)
    else if RequestsClash(d, v.tenant, u, v.access, q.ids) then Some(RequestPending)
    else None
  }

  function AcceptInvitation(s: Tables, d: Directory, q: Acceptance): (Tables, Result<UserId, Error>) {
    if q.invitation !in s.invitations || !s.invitations[q.invitation].status.Pending? then (s, Err(PermissionDenied))
    else
      var v := s.invitations[q.invitation];
      if v.expiresAt <= q.now then
        (if q.databaseFails then s else s.(invitations := s.invitations[q.invitation := v.(status := Expired)]),
         Err(if q.databaseFails then DatabaseError else PermissionDenied))
      else if !d.verifies(v.tokenHash, q.token) then (s, Err(PermissionDenied))
      else
        match Bind(s, q.invitation, q.identity)
        case Err(e) => (s, Err(e))
        case Ok(bound) =>
          if AccessFault(d, v, q, bound.1).Some? then (s, Err(AccessFault(d, v, q, bound.1).value))
          else if q.databaseFails || q.invitation !in bound.0.invitations then (s, Err(DatabaseError))
          else
            (Conclude(bound.0, q.invitation, bound.1, Validated(d, v.tenant, v.access).Granted?), Ok(bound.1))
  }

  // ---------------------------------------------------------------------------------------------
  // Self-registration
  // ---------------------------------------------------------------------------------------------

  datatype Registration = Registration(
    code: string, token: Secret, identity: Subject, userId: UserId, requestId: RequestId, databaseFails: bool)

  /** _resolve_or_create_identity_user */
  function Resolve(s: Tables, k: Subject, newId: UserId): Result<(Tables, UserId), Error> {
    if IdentityKnown(s, k) then
      var u := s.identities[k].user;
      if !s.identities[k].active || !s.principals[u] then Err(PrincipalNotActive)
      else if s.users[u].OtherUserStatus? then Err(UserNotActive)
      else Ok((s.(users := s.users[u := Active]), u))
    else if k in s.identities || newId in s.principals || newId in s.users then Err(IntegrityError)
    else
      Ok((s.(principals := s.principals[newId := true], users := s.users[newId := Active],
             identities := s.identities[k := Identity(newId, true)]), newId))
  }

  predicate HasPendingRequest(s: Tables, t: TenantId, u: UserId) {
    exists r :: r in s.requests && s.requests[r].tenant == t && s.requests[r].user == u
      && s.requests[r].status.PendingApproval?
  }

  /** The unique index on open requests also counts APPROVED ones. */
  predicate HasOpenRequest(s: Tables, t: TenantId, u: UserId) {
    exists r :: r in s.requests && s.requests[r].tenant == t && s.requests[r].user == u
      && !s.requests[r].status.Rejected?
  }

  function SubmitSelfRegistration(s: Tables, d: Directory, q: Registration): (Tables, Result<UserId, Error>) {
    match GateFor(d, q.code, q.token)
    case RecursionError => (s, Err(RecursionLimit))
    case Denied => (s, Err(PermissionDenied))
    case Opens(t) =>
      match Resolve(s, q.identity, q.userId)
      case Err(e) => (s, Err(e))
      case Ok(resolved) => Register(s, resolved.0, t, resolved.1, q)
  }

  /** What follows once the user u is known; s1 has u, and an error goes back to s. */
  function Register(s: Tables, s1: Tables, t: TenantId, u: UserId, q: Registration): (Tables, Result<UserId, Error>) {
    var k := (t, u);
    if k in s1.memberships && (s1.memberships[k].status.MemberSuspended? || s1.memberships[k].status.MemberEnded?) then
      (s, Err(MembershipRefused))
    else if q.databaseFails then (s, Err(DatabaseError))
    else if (k in s1.memberships && s1.memberships[k].status.MemberActive?) || HasPendingRequest(s1, t, u) then
      (s1, Ok(u))
    else if q.requestId in s1.requests || HasOpenRequest(s1, t, u) then (s, Err(IntegrityError))
    else
      (s1.(memberships :=
             if k in s1.memberships then s1.memberships else s1.memberships[k := Membership(MemberPending, None)],
           requests := s1.requests[q.requestId := SelfRequest(t, u, q.identity, PendingApproval, None)],
           named := s1.named + {u}),
       Ok(u))
  }

  function ApproveSelfRequest(
    s: Tables, d: Directory, t: TenantId, r: RequestId, actor: UserId, access: Proposal, databaseFails: bool):
    (Tables, Result<UserId, Error>)
  {
    if r !in s.requests || s.requests[r].tenant != t then (s, Err(NotFound))
    else if !s.requests[r].status.PendingApproval? then (s, Err(NotPending))
    else if Validated(d, t, access).AccessInvalid? then (s, Err(AccessRefused))
    else if Validated(d, t, access).NeedsApproval? then (s, Err(PrivilegedRefused))
    else
      var k := (t, s.requests[r].user);
      if k !in s.memberships || !s.memberships[k].status.MemberPending? then (s, Err(MembershipRefused))
      else if actor !in s.users then (s, Err(IntegrityError))
      else if databaseFails then (s, Err(DatabaseError))
      else
        (s.(memberships := ActivateMember(s.memberships, k),
            requests := s.requests[r := s.requests[r].(status := Approved, reviewedBy := Some(actor))],
            named := s.named + {actor, s.requests[r].user}),
         Ok(s.requests[r].user))
  }

  function RejectSelfRequest(s: Tables, t: TenantId, r: RequestId, actor: UserId, databaseFails: bool):
      (Tables, Result<UserId, Error>)
  {
    if r !in s.requests || s.requests[r].tenant != t then (s, Err(NotFound))
    else if !s.requests[r].status.PendingApproval? then (s, Err(NotPending))
    else if actor !in s.users then (s, Err(IntegrityError))
    else if databaseFails then (s, Err(DatabaseError))
    else
      (s.(requests := s.requests[r := s.requests[r].(status := Rejected, reviewedBy := Some(actor))],
          named := s.named + {actor}),
       Ok(s.requests[r].user))
  }
}
