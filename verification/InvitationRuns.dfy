/**
 What runs of the onboarding service keep: a pending invitation's placeholder stays untouched and
 nameless, accepting conserves memberships, nothing dangles, and merging never trips a foreign key.
 */
module InvitationRuns {
  import opened Options
  import opened Invitations
  import opened OnboardingAccess
  import MakerChecker
  import Rbac

  // ---------------------------------------------------------------------------------------------
  // Invariants
  // ---------------------------------------------------------------------------------------------

  /** No row refers to a missing user, principal or identity, and a request's identity is its user's. */
  ghost predicate NothingDangles(s: Tables) {
    && s.users.Keys <= s.principals.Keys
    && (forall k :: k in s.identities ==> s.identities[k].user in s.users)
    && (forall m :: m in s.memberships ==> m.1 in s.users)
    && (forall i :: i in s.invitations ==> s.invitations[i].invited in s.users && s.invitations[i].invitedBy in s.users)
    && (forall r :: r in s.requests ==>
          && s.requests[r].user in s.users && s.requests[r].identity in s.identities
          && s.identities[s.requests[r].identity].user == s.requests[r].user
          && (s.requests[r].reviewedBy.Some? ==> s.requests[r].reviewedBy.value in s.users))
    && s.named <= s.users.Keys
  }

  /**
   u exists only for invitation i: INVITED, without identity, and named by nothing but its PENDING membership
   and i.
   */
  ghost predicate Placeholder(s: Tables, i: InvitationId, u: UserId) {
    && u in s.users && s.users[u].Invited? && u !in s.named
    && (forall k :: k in s.identities ==> s.identities[k].user != u)
    && i in s.invitations && (s.invitations[i].tenant, u) in s.memberships
    && s.memberships[(s.invitations[i].tenant, u)] == Membership(MemberPending, s.invitations[i].employeeCode)
    && (forall m :: m in s.memberships && m.1 == u ==> m.0 == s.invitations[i].tenant)
    && (forall j :: j in s.invitations ==>
       (s.invitations[j].invited == u ==> j == i) && s.invitations[j].invitedBy != u)
    && (forall r :: r in s.requests ==> s.requests[r].user != u && s.requests[r].reviewedBy != Some(u))
  }

  ghost predicate PlaceholdersKept(s: Tables) {
    forall i :: i in s.invitations && s.invitations[i].status.Pending? ==> Placeholder(s, i, s.invitations[i].invited)
  }

  ghost predicate Inv(s: Tables) {
    NothingDangles(s) && PlaceholdersKept(s)
  }

  // ---------------------------------------------------------------------------------------------
  // Runs
  // ---------------------------------------------------------------------------------------------

  datatype Call =
    | Create(d: Directory, invite: Invite)
    | Cancel(tenant: TenantId, invitation: InvitationId, actor: UserId, databaseFails: bool)
    | Accept(d: Directory, acceptance: Acceptance)
    | Submit(d: Directory, registration: Registration)
    | Approve(d: Directory, tenant: TenantId, request: RequestId, actor: UserId, access: Proposal, databaseFails: bool)
    | Reject(tenant: TenantId, request: RequestId, actor: UserId, databaseFails: bool)

  /** The routes let only an ACTIVE user act as administrator. */
  ghost predicate ActorIsActive(s: Tables, c: Call) {
    match c
    case Create(_, q) => q.actor in s.users && s.users[q.actor].Active?
    case Cancel(_, _, actor, _) => actor in s.users && s.users[actor].Active?
    case Approve(_, _, _, actor, _, _) => actor in s.users && s.users[actor].Active?
    case Reject(_, _, actor, _) => actor in s.users && s.users[actor].Active?
    case _ => true
  }

  function Do(s: Tables, c: Call): Tables {
    match c
    case Create(d, q) => CreateInvitation(s, d, q).0
    case Cancel(t, i, actor, fails) => CancelInvitation(s, t, i, actor, fails).0
    case Accept(d, q) => AcceptInvitation(s, d, q).0
    case Submit(d, q) => SubmitSelfRegistration(s, d, q).0
    case Approve(d, t, r, actor, access, fails) => ApproveSelfRequest(s, d, t, r, actor, access, fails).0
    case Reject(t, r, actor, fails) => RejectSelfRequest(s, t, r, actor, fails).0
  }

  lemma CreateDanglesNothing(s: Tables, d: Directory, q: Invite)
    requires NothingDangles(s)
    ensures NothingDangles(CreateInvitation(s, d, q).0)
  {}

  lemma CreateKeepsPlaceholder(s: Tables, d: Directory, q: Invite, i: InvitationId)
    requires Inv(s) && ActorIsActive(s, Create(d, q)) && i in s.invitations && s.invitations[i].status.Pending?
    ensures Placeholder(CreateInvitation(s, d, q).0, i, s.invitations[i].invited)
  {
    assert Placeholder(s, i, s.invitations[i].invited);
  }

  lemma CreateKeepsInv(s: Tables, d: Directory, q: Invite)
    requires Inv(s) && ActorIsActive(s, Create(d, q))
    ensures Inv(CreateInvitation(s, d, q).0)
  {
    CreateDanglesNothing(s, d, q);
    var s' := CreateInvitation(s, d, q).0;
    forall i | i in s'.invitations && s'.invitations[i].status.Pending?
      ensures Placeholder(s', i, s'.invitations[i].invited)
    {
      if i in s.invitations {
        CreateKeepsPlaceholder(s, d, q, i);
      } else {
        NewPlaceholder(s, d, q);
      }
    }
  }

  lemma NewPlaceholder(s: Tables, d: Directory, q: Invite)
    requires Inv(s) && ActorIsActive(s, Create(d, q)) && CreateInvitation(s, d, q).1.Ok?
    ensures Placeholder(CreateInvitation(s, d, q).0, q.invitationId, q.userId)
  {}

  lemma CancelDanglesNothing(s: Tables, t: TenantId, i: InvitationId, actor: UserId, fails: bool)
    requires NothingDangles(s)
    ensures NothingDangles(CancelInvitation(s, t, i, actor, fails).0)
  {}

  lemma CancelKeepsPlaceholder(
    s: Tables, t: TenantId, i: InvitationId, actor: UserId, fails: bool, j: InvitationId)
    requires ActorIsActive(s, Cancel(t, i, actor, fails)) && j in s.invitations && j != i
    requires Placeholder(s, j, s.invitations[j].invited)
    requires i in s.invitations ==> s.invitations[i].invited != s.invitations[j].invited
    ensures Placeholder(CancelInvitation(s, t, i, actor, fails).0, j, s.invitations[j].invited)
  {}

  lemma CancelKeepsInv(s: Tables, t: TenantId, i: InvitationId, actor: UserId, fails: bool)
    requires Inv(s) && ActorIsActive(s, Cancel(t, i, actor, fails))
    ensures Inv(CancelInvitation(s, t, i, actor, fails).0)
  {
    CancelDanglesNothing(s, t, i, actor, fails);
    var s' := CancelInvitation(s, t, i, actor, fails).0;
    if s' != s {
      assert s'.invitations == s.invitations[i := s'.invitations[i]] && !s'.invitations[i].status.Pending?;
      forall j | j in s.invitations && j != i && s.invitations[j].status.Pending?
        ensures s.invitations[i].invited != s.invitations[j].invited
      {
        assert Placeholder(s, j, s.invitations[j].invited);
      }
      hide CancelInvitation, NothingDangles, Placeholder;
      forall j | j in s'.invitations && s'.invitations[j].status.Pending?
        ensures Placeholder(s', j, s'.invitations[j].invited)
      {
        CancelKeepsPlaceholder(s, t, i, actor, fails, j);
      }
    }
  }

  lemma ApproveDanglesNothing(
    s: Tables, d: Directory, t: TenantId, r: RequestId, actor: UserId, access: Proposal, fails: bool)
    requires NothingDangles(s)
    ensures NothingDangles(ApproveSelfRequest(s, d, t, r, actor, access, fails).0)
  {
    hide Validated;
  }

  lemma ApproveKeepsPlaceholder(
    s: Tables, d: Directory, t: TenantId, r: RequestId, actor: UserId, access: Proposal, fails: bool, i: InvitationId)
    requires ActorIsActive(s, Approve(d, t, r, actor, access, fails))
    requires i in s.invitations && Placeholder(s, i, s.invitations[i].invited)
    ensures Placeholder(ApproveSelfRequest(s, d, t, r, actor, access, fails).0, i, s.invitations[i].invited)
  {
    hide Validated;
  }

  lemma ApproveKeepsInv(
    s: Tables, d: Directory, t: TenantId, r: RequestId, actor: UserId, access: Proposal, fails: bool)
    requires Inv(s) && ActorIsActive(s, Approve(d, t, r, actor, access, fails))
    ensures Inv(ApproveSelfRequest(s, d, t, r, actor, access, fails).0)
  {
    var s' := ApproveSelfRequest(s, d, t, r, actor, access, fails).0;
    ApproveDanglesNothing(s, d, t, r, actor, access, fails);
    assert s'.invitations == s.invitations;
    hide ApproveSelfRequest, NothingDangles, Placeholder;
    forall i | i in s'.invitations && s'.invitations[i].status.Pending?
      ensures Placeholder(s', i, s'.invitations[i].invited)
    {
      ApproveKeepsPlaceholder(s, d, t, r, actor, access, fails, i);
    }
  }

  lemma RejectDanglesNothing(s: Tables, t: TenantId, r: RequestId, actor: UserId, fails: bool)
    requires NothingDangles(s)
    ensures NothingDangles(RejectSelfRequest(s, t, r, actor, fails).0)
  {}

  lemma RejectKeepsInv(s: Tables, t: TenantId, r: RequestId, actor: UserId, fails: bool)
    requires Inv(s) && ActorIsActive(s, Reject(t, r, actor, fails))
    ensures Inv(RejectSelfRequest(s, t, r, actor, fails).0)
  {
    RejectDanglesNothing(s, t, r, actor, fails);
    hide NothingDangles;
  }

  lemma ResolveKeepsInv(s: Tables, k: Subject, newId: UserId)
    requires Inv(s) && Resolve(s, k, newId).Ok?
    ensures var (s1, u) := Resolve(s, k, newId).value;
            Inv(s1) && k in s1.identities && s1.identities[k].user == u
  {
    ResolveDanglesNothing(s, k, newId);
    var s1 := Resolve(s, k, newId).value.0;
    forall i | i in s1.invitations && s1.invitations[i].status.Pending?
      ensures Placeholder(s1, i, s1.invitations[i].invited)
    {
      ResolveKeepsPlaceholder(s, k, newId, i);
    }
  }

  lemma ResolveDanglesNothing(s: Tables, k: Subject, newId: UserId)
    requires NothingDangles(s) && Resolve(s, k, newId).Ok?
    ensures NothingDangles(Resolve(s, k, newId).value.0)
  {}

  lemma ResolveKeepsPlaceholder(s: Tables, k: Subject, newId: UserId, i: InvitationId)
    requires NothingDangles(s) && Resolve(s, k, newId).Ok?
    requires i in s.invitations && Placeholder(s, i, s.invitations[i].invited)
    ensures Placeholder(Resolve(s, k, newId).value.0, i, s.invitations[i].invited)
  {}

  lemma RegisterDanglesNothing(s: Tables, s1: Tables, t: TenantId, u: UserId, q: Registration)
    requires NothingDangles(s) && NothingDangles(s1) && q.identity in s1.identities
             && s1.identities[q.identity].user == u
    ensures NothingDangles(Register(s, s1, t, u, q).0)
  {
    hide HasPendingRequest, HasOpenRequest;
  }

  lemma RegisterKeepsPlaceholder(s: Tables, s1: Tables, t: TenantId, u: UserId, q: Registration, i: InvitationId)
    requires q.identity in s1.identities && s1.identities[q.identity].user == u
    requires Register(s, s1, t, u, q).0 != s && i in s1.invitations && Placeholder(s1, i, s1.invitations[i].invited)
    ensures Placeholder(Register(s, s1, t, u, q).0, i, s1.invitations[i].invited)
  {
    hide HasPendingRequest, HasOpenRequest;
    assert u != s1.invitations[i].invited;
  }

  lemma RegisterKeepsInv(s: Tables, s1: Tables, t: TenantId, u: UserId, q: Registration)
    requires Inv(s) && Inv(s1) && q.identity in s1.identities && s1.identities[q.identity].user == u
    ensures Inv(Register(s, s1, t, u, q).0)
  {
    var s' := Register(s, s1, t, u, q).0;
    RegisterDanglesNothing(s, s1, t, u, q);
    RegisterAddsOnly(s, s1, t, u, q);
    hide Register, Placeholder, NothingDangles;
    if s' != s {
      forall i | i in s'.invitations && s'.invitations[i].status.Pending?
        ensures Placeholder(s', i, s'.invitations[i].invited)
      {
        RegisterKeepsPlaceholder(s, s1, t, u, q, i);
      }
    }
  }

  /** Registering goes back to s or builds on s1, where it adds at most a request and a membership. */
  lemma RegisterAddsOnly(s: Tables, s1: Tables, t: TenantId, u: UserId, q: Registration)
    ensures var s' := Register(s, s1, t, u, q).0;
            || s' == s
            || (s'.invitations == s1.invitations && s'.identities == s1.identities
                && forall r :: r in s1.requests ==> r in s'.requests && s'.requests[r] == s1.requests[r])
  {
    hide HasPendingRequest, HasOpenRequest;
  }

  lemma SubmitKeepsInv(s: Tables, d: Directory, q: Registration)
    requires Inv(s)
    ensures Inv(SubmitSelfRegistration(s, d, q).0)
  {
    hide Resolve, Register, Inv, GateFor;
    if GateFor(d, q.code, q.token).Opens? && Resolve(s, q.identity, q.userId).Ok? {
      ResolveKeepsInv(s, q.identity, q.userId);
      var (s1, u) := Resolve(s, q.identity, q.userId).value;
      RegisterKeepsInv(s, s1, GateFor(d, q.code, q.token).tenant, u, q);
    }
  }

  // ---------------------------------------------------------------------------------------------
  // Accepting
  // ---------------------------------------------------------------------------------------------

  /** The merge goes through whatever the tables hold: the placeholder is never referenced any more. */
  lemma MergeNeverBlocked(s: Tables, i: InvitationId, existing: UserId)
    requires Inv(s) && i in s.invitations && s.invitations[i].status.Pending?
    requires existing in s.users && existing != s.invitations[i].invited
             && (s.invitations[i].tenant, existing) !in s.memberships
    ensures MergePlaceholder(s, i, existing).Some?
  {
    var v := s.invitations[i];
    assert Placeholder(s, i, v.invited);
  }

  /** What binding leaves: one user for the invitation, holding the identity and the PENDING membership. */
  ghost predicate Bound(s: Tables, s': Tables, i: InvitationId, k: Subject, u: UserId)
    requires i in s.invitations
  {
    var v := s.invitations[i];
    && i in s'.invitations && s'.invitations[i] == v.(invited := u)
    && (forall j :: j in s'.invitations && j != i ==> j in s.invitations && s'.invitations[j] == s.invitations[j])
    && s'.invitations.Keys == s.invitations.Keys
    && k in s'.identities && s'.identities[k].user == u && s'.identities[k].active
    && (forall j :: j in s.identities ==> j in s'.identities && s'.identities[j] == s.identities[j])
    && s'.memberships == (s.memberships - {(v.tenant, v.invited)})[(v.tenant, u) := Membership(MemberPending,
         v.employeeCode)]
    && (u == v.invited || (v.tenant, u) !in s.memberships)
    && s'.requests == s.requests && s'.named == s.named
    && s'.users == s.users - (if u == v.invited then {} else {v.invited})
    && s'.principals == s.principals - (if u == v.invited then {} else {v.invited})
    && u in s'.users
    && (forall j :: j in s'.identities && j !in s.identities ==> j == k)
  }

  lemma MergeBinds(s: Tables, i: InvitationId, k: Subject)
    requires NothingDangles(s) && i in s.invitations && Placeholder(s, i, s.invitations[i].invited)
    requires k in s.identities && s.identities[k].active && s.identities[k].user in s.users
    requires s.identities[k].user != s.invitations[i].invited
    requires (s.invitations[i].tenant, s.identities[k].user) !in s.memberships
    requires MergePlaceholder(s, i, s.identities[k].user).Some?
    ensures Bound(s, MergePlaceholder(s, i, s.identities[k].user).value, i, k, s.identities[k].user)
  {
    hide Referenced, NothingDangles;
  }

  lemma BindBinds(s: Tables, i: InvitationId, k: Subject)
    requires Inv(s) && i in s.invitations && s.invitations[i].status.Pending? && Bind(s, i, k).Ok?
    ensures (s.invitations[i].tenant, Bind(s, i, k).value.1) in Bind(s, i, k).value.0.memberships
    ensures Bound(s, Bind(s, i, k).value.0, i, k, Bind(s, i, k).value.1)
  {
    var v := s.invitations[i];
    assert Placeholder(s, i, v.invited);
    hide MergePlaceholder;
    if k in s.identities && s.identities[k].user != v.invited {
      MergeBinds(s, i, k);
    }
  }

  /** Nothing but a failing database makes an acceptance end in an IntegrityError. */
  lemma AcceptNeverTripsForeignKeys(s: Tables, d: Directory, q: Acceptance)
    requires Inv(s)
    ensures AcceptInvitation(s, d, q).1 != Err(IntegrityError)
  {
    if q.invitation in s.invitations && s.invitations[q.invitation].status.Pending? {
      assert Placeholder(s, q.invitation, s.invitations[q.invitation].invited);
      if IdentityKnown(s, q.identity) {
        var existing := s.identities[q.identity].user;
        if existing != s.invitations[q.invitation].invited
          && (s.invitations[q.invitation].tenant, existing) !in s.memberships {
          MergeNeverBlocked(s, q.invitation, existing);
        }
      }
    }
  }

  /** The placeholder is named by no invitation, request or other row but its own. */
  lemma UnnamedPlaceholder(s: Tables, i: InvitationId)
    requires i in s.invitations && Placeholder(s, i, s.invitations[i].invited)
    ensures var u := s.invitations[i].invited;
            && u !in s.named && (forall k :: k in s.identities ==> s.identities[k].user != u)
            && (forall m :: m in s.memberships && m.1 == u ==> m == (s.invitations[i].tenant, u))
            && (forall j :: j in s.invitations ==>
               (s.invitations[j].invited == u ==> j == i) && s.invitations[j].invitedBy != u)
            && (forall r :: r in s.requests ==> s.requests[r].user != u && s.requests[r].reviewedBy != Some(u))
  {}

  lemma BoundDanglesNothing(s: Tables, s1: Tables, i: InvitationId, k: Subject, u: UserId)
    requires NothingDangles(s) && i in s.invitations && Placeholder(s, i, s.invitations[i].invited)
    requires Bound(s, s1, i, k, u)
    ensures NothingDangles(s1)
  {
    UnnamedPlaceholder(s, i);
    hide Placeholder;
  }

  lemma ConcludeDanglesNothing(s: Tables, i: InvitationId, u: UserId, granted: bool)
    requires NothingDangles(s) && i in s.invitations && u in s.users
    ensures NothingDangles(Conclude(s, i, u, granted))
  {}

  /** A successful acceptance is a binding and its conclusion. */
  lemma AcceptedIsConcluded(s: Tables, d: Directory, q: Acceptance)
    requires AcceptInvitation(s, d, q).1.Ok?
    ensures q.invitation in s.invitations && s.invitations[q.invitation].status.Pending?
    ensures Bind(s, q.invitation, q.identity).Ok?
    ensures var v := s.invitations[q.invitation];
            var (s1, u) := Bind(s, q.invitation, q.identity).value;
            && q.invitation in s1.invitations
            && AcceptInvitation(s, d, q)
               == (Conclude(s1, q.invitation, u, Validated(d, v.tenant, v.access).Granted?), Ok(u))
  {
    hide Bind, Conclude, Validated, AccessFault;
  }

  lemma AcceptDanglesNothing(s: Tables, d: Directory, q: Acceptance)
    requires Inv(s) && AcceptInvitation(s, d, q).1.Ok?
    ensures NothingDangles(AcceptInvitation(s, d, q).0)
  {
    AcceptedIsConcluded(s, d, q);
    BindBinds(s, q.invitation, q.identity);
    var v := s.invitations[q.invitation];
    assert Placeholder(s, q.invitation, v.invited);
    var (s1, u) := Bind(s, q.invitation, q.identity).value;
    assert u in s1.users;
    hide Bind, Conclude, AcceptInvitation, Placeholder, Bound, NothingDangles;
    BoundDanglesNothing(s, s1, q.invitation, q.identity, u);
    ConcludeDanglesNothing(s1, q.invitation, u, Validated(d, v.tenant, v.access).Granted?);
  }

  lemma BindKeepsPlaceholder(s: Tables, s1: Tables, i: InvitationId, k: Subject, u: UserId, j: InvitationId)
    requires i in s.invitations && Placeholder(s, i, s.invitations[i].invited) && Bound(s, s1, i, k, u)
    requires j in s.invitations && j != i && Placeholder(s, j, s.invitations[j].invited)
    requires u == s.invitations[i].invited || (k in s.identities && s.identities[k].user == u)
    ensures Placeholder(s1, j, s.invitations[j].invited) && u != s.invitations[j].invited
  {}

  lemma ConcludeKeepsPlaceholder(s: Tables, i: InvitationId, u: UserId, granted: bool, j: InvitationId)
    requires i in s.invitations && s.invitations[i].invited == u
    requires j in s.invitations && j != i && Placeholder(s, j, s.invitations[j].invited)
    requires u != s.invitations[j].invited
    ensures Placeholder(Conclude(s, i, u, granted), j, s.invitations[j].invited)
  {}

  lemma AcceptKeepsPlaceholder(s: Tables, d: Directory, q: Acceptance, i: InvitationId)
    requires Inv(s) && AcceptInvitation(s, d, q).1.Ok?
    requires i != q.invitation && i in s.invitations && s.invitations[i].status.Pending?
    ensures Placeholder(AcceptInvitation(s, d, q).0, i, s.invitations[i].invited)
  {
    AcceptedIsConcluded(s, d, q);
    var v := s.invitations[q.invitation];
    assert Placeholder(s, i, s.invitations[i].invited) && Placeholder(s, q.invitation, v.invited);
    BindBinds(s, q.invitation, q.identity);
    BoundToHolder(s, q.invitation, q.identity);
    var (s1, u) := Bind(s, q.invitation, q.identity).value;
    assert i in s1.invitations && s1.invitations[i] == s.invitations[i] && s1.invitations[q.invitation].invited == u;
    hide Bind, Conclude, AcceptInvitation, Placeholder, Bound, NothingDangles, PlaceholdersKept;
    BindKeepsPlaceholder(s, s1, q.invitation, q.identity, u, i);
    ConcludeKeepsPlaceholder(s1, q.invitation, u, Validated(d, v.tenant, v.access).Granted?, i);
  }

  /** Binding yields the placeholder itself or whoever already held the identity. */
  lemma BoundToHolder(s: Tables, i: InvitationId, k: Subject)
    requires i in s.invitations && Bind(s, i, k).Ok?
    ensures var u := Bind(s, i, k).value.1;
            u == s.invitations[i].invited || (k in s.identities && s.identities[k].user == u)
  {
    hide MergePlaceholder;
  }

  /** A refused acceptance changes nothing, or marks the invitation EXPIRED. */
  lemma AcceptRefusedExpires(s: Tables, d: Directory, q: Acceptance)
    requires AcceptInvitation(s, d, q).1.Err?
    ensures var s' := AcceptInvitation(s, d, q).0;
            || s' == s
            || (q.invitation in s.invitations && s.invitations[q.invitation].status.Pending?
                && s' == s.(invitations := s.invitations[
                              q.invitation := s.invitations[q.invitation].(status := Expired)]))
  {
    hide Bind, Conclude, Validated, AccessFault;
  }

  lemma ExpiringKeepsInv(s: Tables, i: InvitationId)
    requires Inv(s) && i in s.invitations
    ensures Inv(s.(invitations := s.invitations[i := s.invitations[i].(status := Expired)]))
  {}

  /** Accepting takes the invitation out of the pending ones and leaves the others as they were. */
  lemma AcceptLeavesPending(s: Tables, d: Directory, q: Acceptance, i: InvitationId)
    requires Inv(s) && AcceptInvitation(s, d, q).1.Ok?
    requires var s' := AcceptInvitation(s, d, q).0; i in s'.invitations && s'.invitations[i].status.Pending?
    ensures i in s.invitations && AcceptInvitation(s, d, q).0.invitations[i] == s.invitations[i] && i != q.invitation
  {
    AcceptedIsConcluded(s, d, q);
    BindBinds(s, q.invitation, q.identity);
    hide AcceptInvitation, Bind, Inv;
  }

  lemma AcceptKeepsInv(s: Tables, d: Directory, q: Acceptance)
    requires Inv(s)
    ensures Inv(AcceptInvitation(s, d, q).0)
  {
    var s' := AcceptInvitation(s, d, q).0;
    if AcceptInvitation(s, d, q).1.Ok? {
      AcceptDanglesNothing(s, d, q);
      hide AcceptInvitation, NothingDangles, Placeholder;
      forall i | i in s'.invitations && s'.invitations[i].status.Pending?
        ensures Placeholder(s', i, s'.invitations[i].invited)
      {
        AcceptLeavesPending(s, d, q, i);
        AcceptKeepsPlaceholder(s, d, q, i);
      }
    } else {
      AcceptRefusedExpires(s, d, q);
      hide AcceptInvitation, Inv;
      if s' != s {
        ExpiringKeepsInv(s, q.invitation);
      }
    }
  }

  // ---------------------------------------------------------------------------------------------
  // Conservation
  // ---------------------------------------------------------------------------------------------

  function MembersOf(m: map<(TenantId, UserId), Membership>, t: TenantId): set<UserId> {
    set k | k in m && k.0 == t :: k.1
  }

  /** Moving one membership from p to u, who has none, leaves every tenant's head count. */
  lemma MovingConserves(m: map<(TenantId, UserId), Membership>, m': map<(TenantId, UserId), Membership>, at: TenantId,
      p: UserId, u: UserId, t: TenantId)
    requires (at, p) in m && (u == p || (at, u) !in m)
    requires m'.Keys == m.Keys - {(at, p)} + {(at, u)}
    ensures |MembersOf(m', t)| == |MembersOf(m, t)|
  {
    if t == at {
      assert MembersOf(m', t) == MembersOf(m, t) - {p} + {u};
      assert p in MembersOf(m, t) && (u == p || u !in MembersOf(m, t));
    } else {
      assert MembersOf(m', t) == MembersOf(m, t);
    }
  }

  /** The membership of a successful acceptance's invitation, and only that one, changes hands and status. */
  lemma AcceptMovesMembership(s: Tables, d: Directory, q: Acceptance)
    requires Inv(s) && AcceptInvitation(s, d, q).1.Ok?
    ensures var (s', a) := AcceptInvitation(s, d, q);
            var v := s.invitations[q.invitation];
            && (v.tenant, v.invited) in s.memberships && (a.value == v.invited || (v.tenant, a.value) !in s.memberships)
            && s'.memberships == (s.memberships - {(v.tenant, v.invited)})
                 [(v.tenant, a.value) := Membership(
                   if Validated(d, v.tenant, v.access).Granted? then MemberActive else MemberPending, v.employeeCode)]
  {
    assert Placeholder(s, q.invitation, s.invitations[q.invitation].invited);
    AcceptedIsConcluded(s, d, q);
    BindBinds(s, q.invitation, q.identity);
    hide AcceptInvitation, Bind, NothingDangles, PlaceholdersKept, Placeholder;
  }

  /** The accepted invitation and the identity name the same existing user, and a merged placeholder is gone. */
  lemma AcceptResolvesIdentity(s: Tables, d: Directory, q: Acceptance)
    requires Inv(s) && AcceptInvitation(s, d, q).1.Ok?
    ensures var (s', a) := AcceptInvitation(s, d, q);
            var v := s.invitations[q.invitation];
            && q.identity in s'.identities && s'.identities[q.identity].user == a.value && a.value in s'.users
            && q.invitation in s'.invitations
               && s'.invitations[q.invitation] == v.(invited := a.value, status := Accepted)
            && (a.value != v.invited ==> v.invited !in s'.users && v.invited !in s'.principals)
            && (q.identity in s.identities ==> a.value == s.identities[q.identity].user)
  {
    AcceptedIsConcluded(s, d, q);
    BindBinds(s, q.invitation, q.identity);
    hide AcceptInvitation, Bind, NothingDangles, PlaceholdersKept;
  }

  /**
   A successful acceptance conserves memberships: every tenant has as many as before, and every row but
   the invitation's own is untouched.
   */
  lemma AcceptConservesMemberships(s: Tables, d: Directory, q: Acceptance, t: TenantId)
    requires Inv(s) && AcceptInvitation(s, d, q).1.Ok?
    ensures |MembersOf(AcceptInvitation(s, d, q).0.memberships, t)| == |MembersOf(s.memberships, t)|
    ensures var v := s.invitations[q.invitation];
            forall m :: m in s.memberships && m != (v.tenant, v.invited) ==>
              m in AcceptInvitation(s, d, q).0.memberships
                && AcceptInvitation(s, d, q).0.memberships[m] == s.memberships[m]
  {
    AcceptMovesMembership(s, d, q);
    var v := s.invitations[q.invitation];
    var m', u := AcceptInvitation(s, d, q).0.memberships, AcceptInvitation(s, d, q).1.value;
    hide AcceptInvitation, Inv, MembersOf;
    MovingConserves(s.memberships, m', v.tenant, v.invited, u, t);
  }

  /** The signed-in identity may take over the invitation v. */
  predicate MayBind(s: Tables, v: Invitation, k: Subject) {
    k in s.identities ==>
      var u := s.identities[k].user;
      && s.identities[k].active && u in s.principals && s.principals[u]
      && (u == v.invited || (u in s.users && s.users[u].Active? && (v.tenant, u) !in s.memberships))
  }

  function Binder(s: Tables, v: Invitation, k: Subject): UserId {
    if k in s.identities then s.identities[k].user else v.invited
  }

  lemma BindsExactlyWhen(s: Tables, i: InvitationId, k: Subject)
    requires Inv(s) && i in s.invitations && s.invitations[i].status.Pending?
    ensures Bind(s, i, k).Ok? <==> MayBind(s, s.invitations[i], k)
    ensures Bind(s, i, k).Ok? ==> Bind(s, i, k).value.1 == Binder(s, s.invitations[i], k)
  {
    var v := s.invitations[i];
    assert Placeholder(s, i, v.invited);
    if k in s.identities {
      var u := s.identities[k].user;
      assert u in s.users && u in s.principals;
      hide MergePlaceholder, Placeholder;
      if u != v.invited && (v.tenant, u) !in s.memberships {
        MergeNeverBlocked(s, i, u);
      }
    }
  }

  lemma BindKeepsInvitation(s: Tables, i: InvitationId, k: Subject)
    requires Inv(s) && i in s.invitations && s.invitations[i].status.Pending? && Bind(s, i, k).Ok?
    ensures i in Bind(s, i, k).value.0.invitations
  {
    BindBinds(s, i, k);
    hide Bind, Inv;
  }

  lemma FaultlessExactlyWhen(d: Directory, v: Invitation, q: Acceptance, u: UserId)
    ensures AccessFault(d, v, q, u).None? <==>
            Proposable(d, v.tenant, v.access) && !RequestsClash(d, v.tenant, u, v.access, q.ids)
  {
    ValidatedExactlyWhen(d, v.tenant, v.access);
    hide Validated, Proposable, RequestsClash;
  }

  /**
   Accepting succeeds exactly for a PENDING invitation before its expiry, with the token it was issued with
   and an identity that may take it over, while the stored access is still valid and no privileged role
   of it awaits approval for that user already.
   */
  lemma AcceptSucceedsExactlyWhen(s: Tables, d: Directory, q: Acceptance)
    requires Inv(s)
    ensures AcceptInvitation(s, d, q).1.Ok? <==>
            && q.invitation in s.invitations
            && var v := s.invitations[q.invitation];
            && v.status.Pending? && q.now < v.expiresAt && d.verifies(v.tokenHash, q.token)
            && MayBind(s, v, q.identity)
            && Proposable(d, v.tenant, v.access)
            && !RequestsClash(d, v.tenant, Binder(s, v, q.identity), v.access, q.ids)
            && !q.databaseFails
  {
    if q.invitation in s.invitations && s.invitations[q.invitation].status.Pending? {
      var v := s.invitations[q.invitation];
      BindsExactlyWhen(s, q.invitation, q.identity);
      FaultlessExactlyWhen(d, v, q, Binder(s, v, q.identity));
      if Bind(s, q.invitation, q.identity).Ok? {
        BindKeepsInvitation(s, q.invitation, q.identity);
      }
    }
    hide Bind, Conclude, Validated, AccessFault, Proposable, RequestsClash, MayBind, Binder, Inv;
  }

  /**
   The access rows of a successful acceptance are those `MakerChecker` describes: its membership is ACTIVE
   exactly when no privileged request was made.
   */
  lemma AcceptTakesTheAccessBranch(s: Tables, d: Directory, q: Acceptance)
    requires Inv(s) && AcceptInvitation(s, d, q).1.Ok?
    ensures var (s', a) := AcceptInvitation(s, d, q);
            var v := s.invitations[q.invitation];
            var (rbac, answer) := MakerChecker.AcceptAccess(
                d.rbac, v.tenant, a.value, v.invitedBy, v.access.roles, v.access.groups, q.ids, q.now);
            && answer == Rbac.Answer(true)
            && (v.tenant, a.value) in s'.memberships
            && (s'.memberships[(v.tenant, a.value)].status.MemberActive? <==> rbac.requests == d.rbac.requests)
  {
    var v := s.invitations[q.invitation];
    var u := AcceptInvitation(s, d, q).1.value;
    AcceptMovesMembership(s, d, q);
    assert AccessFault(d, v, q, u).None? by {
      hide Bind, Conclude, Validated, RequestsClash;
    }
    hide AcceptInvitation, Validated, RequestsClash, Inv;
    VerdictIsTheBranch(d, v.tenant, u, v.invitedBy, v.access, q.ids, q.now);
  }

  /** A registration writes only behind an open gate, and only for the tenant that opened it. */
  lemma RegistrationStaysBehindTheGate(s: Tables, d: Directory, q: Registration)
    ensures var (s', a) := SubmitSelfRegistration(s, d, q);
            && (!GateFor(d, q.code, q.token).Opens? ==> s' == s && a.Err?)
            && (forall m :: m in s'.memberships && m !in s.memberships ==> GateFor(d, q.code, q.token) == Opens(m.0))
            && (forall m :: m in s.memberships ==> m in s'.memberships && s'.memberships[m] == s.memberships[m])
            && (forall r :: r in s'.requests && r !in s.requests ==>
                  GateFor(d, q.code, q.token) == Opens(s'.requests[r].tenant))
  {
    if GateFor(d, q.code, q.token).Opens? && Resolve(s, q.identity, q.userId).Ok? {
      ResolveAddsOnly(s, q.identity, q.userId);
    }
    hide GateFor, Resolve, HasPendingRequest, HasOpenRequest;
  }

  // ---------------------------------------------------------------------------------------------
  // Over runs
  // ---------------------------------------------------------------------------------------------

  ghost predicate Step(s: Tables, s': Tables) {
    exists c :: ActorIsActive(s, c) && s' == Do(s, c)
  }

  ghost predicate Run(states: seq<Tables>) {
    states != [] && forall i :: 0 <= i < |states| - 1 ==> Step(states[i], states[i + 1])
  }

  lemma StepKeepsInv(s: Tables, s': Tables)
    requires Inv(s) && Step(s, s')
    ensures Inv(s')
  {
    hide Inv, CreateInvitation, CancelInvitation, AcceptInvitation, SubmitSelfRegistration, ApproveSelfRequest,
        RejectSelfRequest;
    var c :| ActorIsActive(s, c) && s' == Do(s, c);
    match c
    case Create(d, q) => CreateKeepsInv(s, d, q);
    case Cancel(t, i, actor, fails) => CancelKeepsInv(s, t, i, actor, fails);
    case Accept(d, q) => AcceptKeepsInv(s, d, q);
    case Submit(d, q) => SubmitKeepsInv(s, d, q);
    case Approve(d, t, r, actor, access, fails) => ApproveKeepsInv(s, d, t, r, actor, access, fails);
    case Reject(t, r, actor, fails) => RejectKeepsInv(s, t, r, actor, fails);
  }

  lemma {:induction false} EveryRunIsSafe(states: seq<Tables>, i: nat)
    requires Run(states) && Inv(states[0]) && i < |states|
    ensures Inv(states[i])
  {
    hide Inv, Step;
    if i > 0 {
      EveryRunIsSafe(states, i - 1);
      StepKeepsInv(states[i - 1], states[i]);
    }
  }

  /** An identity keeps its user for good, and a decided invitation or request never changes. */
  ghost predicate Settled(s: Tables, s': Tables) {
    && (forall k :: k in s.identities ==> k in s'.identities && s'.identities[k] == s.identities[k])
    && (forall i :: i in s.invitations ==> i in s'.invitations)
    && (forall i :: i in s.invitations && !s.invitations[i].status.Pending? ==> s'.invitations[i] == s.invitations[i])
    && (forall r :: r in s.requests ==> r in s'.requests)
    && (forall r :: r in s.requests && !s.requests[r].status.PendingApproval? ==> s'.requests[r] == s.requests[r])
  }

  lemma CreateSettles(s: Tables, d: Directory, q: Invite)
    ensures Settled(s, CreateInvitation(s, d, q).0)
  {}

  lemma CancelSettles(s: Tables, t: TenantId, i: InvitationId, actor: UserId, fails: bool)
    ensures Settled(s, CancelInvitation(s, t, i, actor, fails).0)
  {}

  lemma SubmitSettles(s: Tables, d: Directory, q: Registration)
    ensures Settled(s, SubmitSelfRegistration(s, d, q).0)
  {
    hide Resolve, Register, GateFor;
    if GateFor(d, q.code, q.token).Opens? && Resolve(s, q.identity, q.userId).Ok? {
      ResolveAddsOnly(s, q.identity, q.userId);
      var (s1, u) := Resolve(s, q.identity, q.userId).value;
      RegisterAddsOnly(s, s1, GateFor(d, q.code, q.token).tenant, u, q);
    }
  }

  lemma ResolveAddsOnly(s: Tables, k: Subject, newId: UserId)
    requires Resolve(s, k, newId).Ok?
    ensures var s1 := Resolve(s, k, newId).value.0;
            && s1.invitations == s.invitations && s1.requests == s.requests && s1.memberships == s.memberships
            && forall j :: j in s.identities ==> j in s1.identities && s1.identities[j] == s.identities[j]
  {}

  lemma ApproveSettles(
    s: Tables, d: Directory, t: TenantId, r: RequestId, actor: UserId, access: Proposal, fails: bool)
    ensures Settled(s, ApproveSelfRequest(s, d, t, r, actor, access, fails).0)
  {}

  lemma RejectSettles(s: Tables, t: TenantId, r: RequestId, actor: UserId, fails: bool)
    ensures Settled(s, RejectSelfRequest(s, t, r, actor, fails).0)
  {}

  lemma BoundSettles(s: Tables, s1: Tables, i: InvitationId, k: Subject, u: UserId)
    requires i in s.invitations && s.invitations[i].status.Pending? && Bound(s, s1, i, k, u)
    ensures Settled(s, s1)
  {}

  lemma ConcludeSettles(s: Tables, s1: Tables, i: InvitationId, u: UserId, granted: bool)
    requires i in s.invitations && s.invitations[i].status.Pending? && i in s1.invitations && Settled(s, s1)
    ensures Settled(s, Conclude(s1, i, u, granted))
  {}

  lemma AcceptSettles(s: Tables, d: Directory, q: Acceptance)
    requires Inv(s)
    ensures Settled(s, AcceptInvitation(s, d, q).0)
  {
    if AcceptInvitation(s, d, q).1.Ok? {
      AcceptedIsConcluded(s, d, q);
      BindBinds(s, q.invitation, q.identity);
      var v := s.invitations[q.invitation];
      var (s1, u) := Bind(s, q.invitation, q.identity).value;
      hide AcceptInvitation, Bind, Conclude, Inv, Bound, Settled;
      BoundSettles(s, s1, q.invitation, q.identity, u);
      ConcludeSettles(s, s1, q.invitation, u, Validated(d, v.tenant, v.access).Granted?);
    } else {
      AcceptRefusedExpires(s, d, q);
      hide AcceptInvitation, Inv;
    }
  }

  lemma StepSettles(s: Tables, s': Tables)
    requires Inv(s) && Step(s, s')
    ensures Settled(s, s')
  {
    hide Inv, Settled, CreateInvitation, CancelInvitation, AcceptInvitation, SubmitSelfRegistration,
        ApproveSelfRequest, RejectSelfRequest;
    var c :| ActorIsActive(s, c) && s' == Do(s, c);
    match c
    case Create(d, q) => CreateSettles(s, d, q);
    case Cancel(t, i, actor, fails) => CancelSettles(s, t, i, actor, fails);
    case Accept(d, q) => AcceptSettles(s, d, q);
    case Submit(d, q) => SubmitSettles(s, d, q);
    case Approve(d, t, r, actor, access, fails) => ApproveSettles(s, d, t, r, actor, access, fails);
    case Reject(t, r, actor, fails) => RejectSettles(s, t, r, actor, fails);
  }

  lemma {:induction false} DecisionsAndIdentitiesAreFinal(states: seq<Tables>, i: nat, j: nat)
    requires Run(states) && Inv(states[0]) && i <= j < |states|
    ensures Settled(states[i], states[j])
    decreases j
  {
    hide Inv, Step;
    if i < j {
      DecisionsAndIdentitiesAreFinal(states, i, j - 1);
      EveryRunIsSafe(states, j - 1);
      StepSettles(states[j - 1], states[j]);
    }
  }
}
