/**
 What each onboarding call answers and leaves behind, column by column: exactly when it succeeds, which rows it
 writes, and that everything else stays as it was.
 */
module InvitationEffects {
  import opened Options
  import opened Invitations
  import opened InvitationRuns
  import opened OnboardingAccess
  import MakerChecker
  import Rbac
  import SecurityControls
  import Text

  // ---------------------------------------------------------------------------------------------
  // Proposed access
  // ---------------------------------------------------------------------------------------------

  /** Every role, group, location and schedule of the proposal is the tenant's and ACTIVE. */
  predicate AllActive(d: Directory, t: TenantId, p: Proposal) {
    && (forall r :: r in p.roles ==> (t, r) in d.rbac.roles && d.rbac.roles[(t, r)].active)
    && (forall g :: g in p.groups ==> (t, g) in d.rbac.groups && d.rbac.groups[(t, g)].active)
    && (forall x :: x in p.places ==>
          && (t, x.0) in d.locations && d.locations[(t, x.0)]
          && (t, x.1) in d.schedules && d.schedules[(t, x.1)])
  }

  /** One of its roles has a privileged key. */
  predicate AsksPrivileged(d: Directory, t: TenantId, p: Proposal) {
    exists r :: r in p.roles && (t, r) in d.rbac.roles && d.rbac.roles[(t, r)].key in d.rbac.privilegedKeys
  }

  lemma VerdictExactlyWhen(d: Directory, t: TenantId, p: Proposal)
    ensures Validated(d, t, p) ==
              if !AllActive(d, t, p) then AccessInvalid
              else if AsksPrivileged(d, t, p) then NeedsApproval else Granted
  {
    ValidatedExactlyWhen(d, t, p);
    assert AllActive(d, t, p) <==> Proposable(d, t, p);
    assert AsksPrivileged(d, t, p) <==> exists r :: r in p.roles && Rbac.Privileged(d.rbac, t, r);
    hide Validated, Proposable, AllActive, AsksPrivileged, Rbac.Privileged;
  }

  // ---------------------------------------------------------------------------------------------
  // Inviting and cancelling
  // ---------------------------------------------------------------------------------------------

  /** Something but white space is in the text. */
  predicate SaysSomething(text: Option<string>) {
    text.Some? && exists i :: 0 <= i < |text.value| && !Text.IsSpace(text.value[i])
  }

  predicate MayInvite(s: Tables, d: Directory, q: Invite) {
    && (SaysSomething(q.email) || SaysSomething(q.mobile)) && q.now < q.expiresAt
    && (exists code :: code in d.tenants && d.tenants[code] == q.tenant)
    && AllActive(d, q.tenant, q.access)
    && q.userId !in s.principals && q.userId !in s.users && (q.tenant, q.userId) !in s.memberships
    && q.invitationId !in s.invitations && q.actor in s.users && !q.databaseFails
  }

  /**
   An invitation is created exactly under these conditions.  It is PENDING, stores the distinct proposal, and comes
   with an INVITED user of an ACTIVE principal whose only membership is PENDING under the given code.
   */
  lemma InvitingTakesEffectExactlyWhen(s: Tables, d: Directory, q: Invite)
    ensures var (s', a) := CreateInvitation(s, d, q);
            && (a.Ok? <==> MayInvite(s, d, q))
            && (a.Err? ==> s' == s)
            && (a.Ok? ==>
                  && a.value == q.invitationId
                  && s' == s.(principals := s.principals[q.userId := true], users := s.users[q.userId := Invited],
                              memberships := s'.memberships, invitations := s'.invitations,
                              named := s.named + {q.actor})
                  && s'.memberships == s.memberships[(q.tenant, q.userId) := Membership(MemberPending, q.employeeCode)]
                  && q.invitationId in s'.invitations
                  && s'.invitations == s.invitations[q.invitationId := s'.invitations[q.invitationId]]
                  && var v := s'.invitations[q.invitationId];
                  && v.tenant == q.tenant && v.invited == q.userId && v.invitedBy == q.actor && v.status == Pending
                  && v.employeeCode == q.employeeCode && v.expiresAt == q.expiresAt && v.tokenHash == q.tokenHash
                  && (forall r :: r in v.access.roles <==> r in q.access.roles)
                  && (forall g :: g in v.access.groups <==> g in q.access.groups)
                  && (forall x :: x in v.access.places <==> x in q.access.places))
  {
    VerdictExactlyWhen(d, q.tenant, q.access);
    hide Validated, AllActive, AsksPrivileged, Text.IsSpace;
  }

  /** Cancelling succeeds exactly for a PENDING invitation of the tenant, and ends its PENDING membership. */
  lemma CancellingTakesEffectExactlyWhen(s: Tables, t: TenantId, i: InvitationId, actor: UserId, fails: bool)
    ensures var (s', a) := CancelInvitation(s, t, i, actor, fails);
            && (a == Ok(true) <==>
                  && i in s.invitations && s.invitations[i].tenant == t && s.invitations[i].status == Pending
                  && actor in s.users && !fails)
            && (a == Ok(false) <==> !(i in s.invitations && s.invitations[i].tenant == t))
            && (a != Ok(true) ==> s' == s)
            && (a == Ok(true) ==>
                  && s' == s.(invitations := s'.invitations, memberships := s'.memberships,
                              named := s.named + {actor})
                  && s'.invitations == s.invitations[i := s.invitations[i].(status := InvitationCancelled)]
                  && s'.memberships.Keys == s.memberships.Keys
                  && forall m :: m in s.memberships ==>
                       s'.memberships[m] == if m == (t, s.invitations[i].invited)
                         && s.memberships[m].status == MemberPending
                                            then s.memberships[m].(status := MemberEnded) else s.memberships[m])
  {}

  // ---------------------------------------------------------------------------------------------
  // Accepting
  // ---------------------------------------------------------------------------------------------

  /**
   After a successful acceptance its user is ACTIVE; no other user's row changes, except that a merged placeholder
   is gone, and no other invitation changes.
   */
  lemma AcceptedUserIsActive(s: Tables, d: Directory, q: Acceptance)
    requires Inv(s) && AcceptInvitation(s, d, q).1.Ok?
    ensures var (s', a) := AcceptInvitation(s, d, q);
            var v := s.invitations[q.invitation];
            && s'.users == (s.users - if a.value == v.invited then {} else {v.invited})[a.value := Active]
            && s'.invitations == s.invitations[q.invitation := v.(invited := a.value, status := Accepted)]
            && s'.requests == s.requests
  {
    var v := s.invitations[q.invitation];
    AcceptedIsConcluded(s, d, q);
    assert Placeholder(s, q.invitation, v.invited);
    BindBinds(s, q.invitation, q.identity);
    BoundUserIsUsable(s, q.invitation, q.identity);
    hide AcceptInvitation, Bind, NothingDangles, PlaceholdersKept, Placeholder;
  }

  /** Whoever an invitation is bound to is the placeholder or ACTIVE already. */
  lemma BoundUserIsUsable(s: Tables, i: InvitationId, k: Subject)
    requires i in s.invitations && Bind(s, i, k).Ok?
    ensures var u := Bind(s, i, k).value.1;
            u == s.invitations[i].invited || (u in s.users && s.users[u] == Active)
  {
    hide MergePlaceholder;
  }

  /** A refused acceptance changes nothing, except that an invitation found past its expiry becomes EXPIRED. */
  lemma RefusedAcceptanceExpiresExactlyWhen(s: Tables, d: Directory, q: Acceptance)
    requires AcceptInvitation(s, d, q).1.Err?
    ensures var s' := AcceptInvitation(s, d, q).0;
            if q.invitation in s.invitations && s.invitations[q.invitation].status == Pending
                 && s.invitations[q.invitation].expiresAt <= q.now && !q.databaseFails
            then s' == s.(invitations := s.invitations[q.invitation := s.invitations[q.invitation].(status := Expired)])
            else s' == s
  {
    hide Bind, Conclude, Validated, AccessFault;
  }

  // ---------------------------------------------------------------------------------------------
  // Registering
  // ---------------------------------------------------------------------------------------------

  /** The code and the secret open tenant t: control chain on, setting ACTIVE, secret verified. */
  ghost predicate OpensFor(d: Directory, q: Registration, t: TenantId) {
    && q.code in d.tenants && d.tenants[q.code] == t
    && t in d.settings && d.settings[t].active && d.verifies(d.settings[t].tokenHash, q.token)
    && exists chain :: SecurityControls.IsChain(d.controls, chain) && chain[0] == "admin.self_onboarding"
                       && SecurityControls.AllOn(d.controls, t, chain)
  }

  /** The identity's ACTIVE user, or a new one under a fresh id. */
  predicate MayIdentify(s: Tables, q: Registration) {
    if q.identity in s.identities then
      var u := s.identities[q.identity].user;
      && s.identities[q.identity].active && u in s.principals && s.principals[u]
      && u in s.users && (s.users[u] == Active || s.users[u] == Invited)
    else q.userId !in s.principals && q.userId !in s.users
  }

  function Applicant(s: Tables, q: Registration): UserId {
    if q.identity in s.identities then s.identities[q.identity].user else q.userId
  }

  /** u is a member, or a request of u's waits. */
  predicate Provided(s: Tables, t: TenantId, u: UserId) {
    || ((t, u) in s.memberships && s.memberships[(t, u)].status == MemberActive)
    || exists r :: r in s.requests && s.requests[r].tenant == t && s.requests[r].user == u
         && s.requests[r].status == PendingApproval
  }

  /** Where a request has to be stored, its id is new and no APPROVED one stands in the way. */
  predicate MayRequest(s: Tables, t: TenantId, u: UserId, q: Registration) {
    && ((t, u) in s.memberships ==> s.memberships[(t, u)].status in {MemberPending, MemberActive})
    && (Provided(s, t, u) ||
         (q.requestId !in s.requests
          && forall r :: r in s.requests && s.requests[r].tenant == t && s.requests[r].user == u ==>
               s.requests[r].status == Rejected))
  }

  lemma ResolvesExactlyWhen(s: Tables, q: Registration)
    requires NothingDangles(s)
    ensures Resolve(s, q.identity, q.userId).Ok? <==> MayIdentify(s, q)
    ensures Resolve(s, q.identity, q.userId).Ok? ==>
              var (s1, u) := Resolve(s, q.identity, q.userId).value;
              && u == Applicant(s, q)
              && s1 == s.(principals := s.principals[u := true], users := s.users[u := Active],
                          identities := s.identities[q.identity := Identity(u, true)])
  {
    if q.identity in s.identities {
      var u := s.identities[q.identity].user;
      assert u in s.users && u in s.principals;
    }
  }

  /** The membership and the request a registration leaves, over tables in which its user is known. */
  ghost predicate Registered(s: Tables, s': Tables, t: TenantId, u: UserId, q: Registration) {
    if Provided(s, t, u) then s'.memberships == s.memberships && s'.requests == s.requests && s'.named == s.named
    else
      && s'.memberships == (if (t, u) in s.memberships then s.memberships
                            else s.memberships[(t, u) := Membership(MemberPending, None)])
      && s'.requests == s.requests[q.requestId := SelfRequest(t, u, q.identity, PendingApproval, None)]
      && s'.named == s.named + {u}
  }

  lemma RegistersExactlyWhen(s: Tables, s1: Tables, t: TenantId, u: UserId, q: Registration)
    ensures Register(s, s1, t, u, q).1.Ok? <==> MayRequest(s1, t, u, q) && !q.databaseFails
    ensures var (s', a) := Register(s, s1, t, u, q);
            if a.Ok? then a.value == u && Registered(s1, s', t, u, q)
                 && s' == s1.(memberships := s'.memberships, requests := s'.requests, named := s'.named)
            else s' == s
  {
    assert Provided(s1, t, u) <==>
      ((t, u) in s1.memberships && s1.memberships[(t, u)].status.MemberActive?) || HasPendingRequest(s1, t, u);
    assert !HasOpenRequest(s1, t, u) <==>
      forall r :: r in s1.requests && s1.requests[r].tenant == t && s1.requests[r].user == u ==>
        s1.requests[r].status == Rejected;
    hide HasPendingRequest, HasOpenRequest, Provided;
  }

  /** What is behind an open gate. */
  lemma RegisteringBehindGate(s: Tables, d: Directory, q: Registration, t: TenantId)
    requires NothingDangles(s) && GateFor(d, q.code, q.token) == Opens(t)
    ensures var (s', a) := SubmitSelfRegistration(s, d, q);
            var u := Applicant(s, q);
            && (a.Ok? <==> MayIdentify(s, q) && !q.databaseFails && MayRequest(s, t, u, q))
            && (a.Err? ==> s' == s)
            && (a.Ok? ==>
                  && a.value == u
                  && s'.users == s.users[u := Active] && s'.principals == s.principals[u := true]
                  && s'.identities == s.identities[q.identity := Identity(u, true)]
                  && s'.invitations == s.invitations && Registered(s, s', t, u, q))
  {
    ResolvesExactlyWhen(s, q);
    if Resolve(s, q.identity, q.userId).Ok? {
      var (s1, u) := Resolve(s, q.identity, q.userId).value;
      var (s', a) := SubmitSelfRegistration(s, d, q);
      RegistersExactlyWhen(s, s1, t, u, q);
      assert MayRequest(s1, t, u, q) <==> MayRequest(s, t, u, q);
      assert Registered(s1, s', t, u, q) <==> Registered(s, s', t, u, q);
    }
    hide Resolve, Register, GateFor, MayRequest, Registered, MayIdentify, NothingDangles;
  }

  lemma ClosedGate(s: Tables, d: Directory, q: Registration)
    requires !GateFor(d, q.code, q.token).Opens?
    ensures var (s', a) := SubmitSelfRegistration(s, d, q); a.Err? && s' == s
  {
    hide GateFor;
  }

  /**
   A registration succeeds exactly behind an open gate, for an identity whose user is usable or new, whose membership
   has not ended and whose request can be stored.  The user and the identity are then ACTIVE, and unless the user is a
   member or waits already, a PENDING membership stands and a PENDING request waits.
   */
  lemma RegisteringTakesEffectExactlyWhen(s: Tables, d: Directory, q: Registration)
    requires NothingDangles(s)
    ensures var (s', a) := SubmitSelfRegistration(s, d, q);
            var u := Applicant(s, q);
            && (a.Ok? <==> MayIdentify(s, q) && !q.databaseFails
                           && exists t :: OpensFor(d, q, t) && MayRequest(s, t, u, q))
            && (a.Err? ==> s' == s)
            && (a.Ok? ==>
                  && a.value == u
                  && s'.users == s.users[u := Active] && s'.principals == s.principals[u := true]
                  && s'.identities == s.identities[q.identity := Identity(u, true)]
                  && s'.invitations == s.invitations
                  && forall t :: OpensFor(d, q, t) ==> Registered(s, s', t, u, q))
  {
    forall t ensures GateFor(d, q.code, q.token) == Opens(t) <==> OpensFor(d, q, t) {
      GateOpensExactlyWhen(d, q.code, q.token, t);
    }
    hide SubmitSelfRegistration, GateFor, OpensFor, MayRequest, Registered, MayIdentify, NothingDangles;
    match GateFor(d, q.code, q.token)
    case Opens(t) => RegisteringBehindGate(s, d, q, t);
    case _ => ClosedGate(s, d, q);
  }

  // ---------------------------------------------------------------------------------------------
  // Deciding a registration
  // ---------------------------------------------------------------------------------------------

  predicate AwaitsDecision(s: Tables, t: TenantId, r: RequestId, actor: UserId, fails: bool) {
    && r in s.requests && s.requests[r].tenant == t && s.requests[r].status == PendingApproval
    && actor in s.users && !fails
  }

  /**
   An approval succeeds exactly for a waiting request with a PENDING membership and ACTIVE, unprivileged access; the
   membership is then ACTIVE, the request APPROVED by the actor, and nothing else moves.
   */
  lemma ApprovingTakesEffectExactlyWhen(
    s: Tables, d: Directory, t: TenantId, r: RequestId, actor: UserId, access: Proposal, fails: bool)
    ensures var (s', a) := ApproveSelfRequest(s, d, t, r, actor, access, fails);
            && (a.Ok? <==>
                  && AwaitsDecision(s, t, r, actor, fails)
                  && AllActive(d, t, access) && !AsksPrivileged(d, t, access)
                  && (t, s.requests[r].user) in s.memberships
                  && s.memberships[(t, s.requests[r].user)].status == MemberPending)
            && (a.Err? ==> s' == s)
            && (a.Ok? ==>
                  var u := s.requests[r].user;
                  && a.value == u
                  && s' == s.(memberships := s'.memberships, requests := s'.requests, named := s.named + {actor, u})
                  && s'.memberships == s.memberships[(t, u) := s.memberships[(t, u)].(status := MemberActive)]
                  && s'.requests == s.requests[r := s.requests[r].(status := Approved, reviewedBy := Some(actor))])
  {
    VerdictExactlyWhen(d, t, access);
    hide Validated, AllActive, AsksPrivileged;
  }

  /**
   A rejection succeeds exactly for a waiting request, which is then REJECTED by the actor, and moves nothing
   else.
   */
  lemma RejectingTakesEffectExactlyWhen(s: Tables, t: TenantId, r: RequestId, actor: UserId, fails: bool)
    ensures var (s', a) := RejectSelfRequest(s, t, r, actor, fails);
            && (a.Ok? <==> AwaitsDecision(s, t, r, actor, fails))
            && s' == (if a.Ok?
                      then s.(requests := s.requests[
                                r := s.requests[r].(status := Rejected, reviewedBy := Some(actor))],
                              named := s.named + {actor})
                      else s)
  {}
}
