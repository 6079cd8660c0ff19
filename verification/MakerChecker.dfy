/**
 Maker-checker for privileged tenant roles, over runs of the gate service, the privileged-access
 service and the two onboarding calls that hand out access.
 */
module MakerChecker {
  import opened Options
  import opened Rbac
  import opened RbacVersions

  // ---------------------------------------------------------------------------------------------
  // Access handed out by onboarding
  // ---------------------------------------------------------------------------------------------

  /** list(dict.fromkeys(...)): first occurrences, in order. */
  function Dedup<T(==,!new)>(xs: seq<T>): (r: seq<T>)
    ensures forall x :: x in r <==> x in xs
    ensures forall i, j :: 0 <= i < j < |r| ==> r[i] != r[j]
  {
    if xs == [] then []
    else
      var front := Dedup(xs[..|xs| - 1]);
      var x := xs[|xs| - 1];
      if x in front then front else front + [x]
  }

  /** `_validated_access`: every role and group belongs to the tenant and is ACTIVE. */
  predicate AccessValid(s: Tables, t: TenantId, roles: seq<RoleId>, groups: seq<GroupId>) {
    && (forall r :: r in roles ==> RoleActive(s, t, r))
    && (forall g :: g in groups ==> GroupActive(s, t, g))
  }

  function PrivilegedOf(s: Tables, t: TenantId, roles: seq<RoleId>): (r: seq<RoleId>)
    ensures forall x :: x in r <==> x in roles && Privileged(s, t, x)
  {
    if roles == [] then []
    else
      var front := PrivilegedOf(s, t, roles[..|roles| - 1]);
      var x := roles[|roles| - 1];
      if Privileged(s, t, x) then front + [x] else front
  }

  /** The role loop of `_materialize_access`; ON CONFLICT DO NOTHING.  `ids` supplies the uuid4() values. */
  function GrantRoles(s: Tables, t: TenantId, u: UserId, roles: seq<RoleId>, actor: UserId, ids: Id -> Id, now: Time):
      Tables
  {
    if roles == [] then s
    else
      var n := |roles| - 1;
      var s1 := GrantRoles(s, t, u, roles[..n], actor, ids, now);
      if AlreadyAssigned(s1, t, u, roles[n]) || ids(n) in s1.userRoles then s1
      else s1.(userRoles := s1.userRoles[ids(n) := UserRole(t, u, roles[n], true, Validity(Some(now), None), actor)])
  }

  /** The group loop of `_materialize_access`. */
  function GrantGroups(s: Tables, t: TenantId, u: UserId, groups: seq<GroupId>, ids: Id -> Id, now: Time): Tables {
    if groups == [] then s
    else
      var n := |groups| - 1;
      var s1 := GrantGroups(s, t, u, groups[..n], ids, now);
      if (exists m :: m in s1.groupMembers && MemberRow(s1.groupMembers[m], t, groups[n], u))
        || ids(n) in s1.groupMembers then s1
      else s1.(groupMembers := s1.groupMembers[ids(n) := GroupMember(t, groups[n], u, true, Validity(Some(now), None))])
  }

  /** One PENDING request per privileged role; None when the pending index or a key refuses one. */
  function RequestRoles(s: Tables, t: TenantId, u: UserId, roles: seq<RoleId>, actor: UserId, ids: Id -> Id):
      Option<Tables>
  {
    if roles == [] then Some(s)
    else
      var n := |roles| - 1;
      match RequestRoles(s, t, u, roles[..n], actor, ids)
      case None => None
      case Some(s1) =>
        if AlreadyRequested(s1, t, u, roles[n]) || ids(n) in s1.requests then None
        else Some(s1.(requests := s1.requests[ids(n) := Request(t, u, roles[n], Pending, actor, None)]))
  }

  /** The access part of accept_invitation. */
  function AcceptAccess(s: Tables, t: TenantId, u: UserId, invitedBy: UserId, roleIds: seq<RoleId>,
      groupIds: seq<GroupId>,
                        ids: Id -> Id, now: Time): (Tables, Outcome) {
    var roles, groups := Dedup(roleIds), Dedup(groupIds);
    if !AccessValid(s, t, roles, groups) then (s, Failed(AccessNotValid))
    else
      var privileged := PrivilegedOf(s, t, roles);
      if privileged != [] then
        match RequestRoles(s, t, u, privileged, invitedBy, ids)
        case None => (s, Failed(IntegrityError))
        case Some(s') => (s', Answer(true))
      else (GrantGroups(GrantRoles(s, t, u, roles, invitedBy, ids, now), t, u, groups, ids, now), Answer(true))
  }

  /** The access part of approve_self_onboarding_request: privileged roles are refused outright. */
  function ApproveSelfAccess(s: Tables, t: TenantId, u: UserId, actor: UserId, roleIds: seq<RoleId>,
      groupIds: seq<GroupId>,
                             ids: Id -> Id, now: Time): (Tables, Outcome) {
    var roles, groups := Dedup(roleIds), Dedup(groupIds);
    if !AccessValid(s, t, roles, groups) then (s, Failed(AccessNotValid))
    else if PrivilegedOf(s, t, roles) != [] then (s, Failed(PrivilegedRoleRefused))
    else (GrantGroups(GrantRoles(s, t, u, roles, actor, ids, now), t, u, groups, ids, now), Answer(true))
  }

  datatype Move =
    | Admin(call: Call)
    | Accept(t: TenantId, u: UserId, invitedBy: UserId, roles: seq<RoleId>, groups: seq<GroupId>, ids: Id -> Id)
    | ApproveSelf(t: TenantId, u: UserId, actor: UserId, roles: seq<RoleId>, groups: seq<GroupId>, ids: Id -> Id)

  function Do(s: Tables, m: Move, now: Time): Tables {
    match m
    case Admin(call) => Apply(s, call, now).0
    case Accept(t, u, invitedBy, roles, groups, ids) => AcceptAccess(s, t, u, invitedBy, roles, groups, ids, now).0
    case ApproveSelf(t, u, actor, roles, groups, ids) => ApproveSelfAccess(s, t, u, actor, roles, groups, ids, now).0
  }

  function DoAll(s: Tables, moves: seq<(Move, Time)>): Tables {
    if moves == [] then s
    else var n := |moves| - 1; Do(DoAll(s, moves[..n]), moves[n].0, moves[n].1)
  }

  // ---------------------------------------------------------------------------------------------
  // The invariant
  // ---------------------------------------------------------------------------------------------

  /** Request q is the maker-checker record of assignment a. */
  ghost predicate Vouches(q: Request, a: UserRole) {
    && q.status.Approved?
    && q.tenant == a.tenant && q.subject == a.user && q.role == a.role
    && q.requestedBy == a.assignedBy
    && q.decidedBy.Some? && q.decidedBy.value != q.requestedBy && q.decidedBy.value != q.subject
  }

  /**
   Every ACTIVE privileged assignment made since `base` was requested by its assigner and approved by a third
   person.
   */
  ghost predicate Vouched(s: Tables, base: set<Id>) {
    forall a :: a in s.userRoles && a !in base && s.userRoles[a].active
                && Privileged(s, s.userRoles[a].tenant, s.userRoles[a].role) ==>
      exists q :: q in s.requests && Vouches(s.requests[q], s.userRoles[a])
  }

  /** What every move keeps of the past. */
  ghost predicate Keeps(s: Tables, s': Tables) {
    && s'.privilegedKeys == s.privilegedKeys
    && (forall k :: k in s.roles ==> k in s'.roles && s'.roles[k].key == s.roles[k].key)
    && (forall k :: k in s'.roles && k !in s.roles ==> s'.roles[k].key !in s.privilegedKeys)
    && (forall q :: q in s.requests ==> q in s'.requests)
    && (forall q :: q in s.requests && !s.requests[q].status.Pending? ==> s'.requests[q] == s.requests[q])
  }

  /** Every ACTIVE assignment of s' was there before, or is ordinary, or is vouched for. */
  ghost predicate Accounted(s: Tables, s': Tables) {
    forall a :: a in s'.userRoles && s'.userRoles[a].active ==>
      || (a in s.userRoles && s'.userRoles[a] == s.userRoles[a])
      || ((s'.userRoles[a].tenant, s'.userRoles[a].role) in s.roles
          && !Privileged(s, s'.userRoles[a].tenant, s'.userRoles[a].role))
      || (exists q :: q in s'.requests && Vouches(s'.requests[q], s'.userRoles[a]))
  }

  lemma KeepsVouched(s: Tables, s': Tables, base: set<Id>)
    requires ReferencesOk(s) && Keeps(s, s') && Accounted(s, s') && Vouched(s, base)
    ensures Vouched(s', base)
  {
    forall a | a in s'.userRoles && a !in base && s'.userRoles[a].active
               && Privileged(s', s'.userRoles[a].tenant, s'.userRoles[a].role)
      ensures exists q :: q in s'.requests && Vouches(s'.requests[q], s'.userRoles[a])
    {
      if a in s.userRoles && s'.userRoles[a] == s.userRoles[a] {
        assert Privileged(s, s.userRoles[a].tenant, s.userRoles[a].role);
        var q :| q in s.requests && Vouches(s.requests[q], s.userRoles[a]);
        assert s'.requests[q] == s.requests[q];
      }
    }
  }

  /** create_role refuses every privileged key because of its reserved prefix. */
  ghost predicate KeysReserved(keys: set<string>) {
    forall key :: key in keys ==> StartsWith(key, "tenant.")
  }

  // ---------------------------------------------------------------------------------------------
  // Each move
  // ---------------------------------------------------------------------------------------------

  lemma SameRolesAccounted(s: Tables, s': Tables)
    requires s'.roles == s.roles && s'.requests == s.requests && s'.userRoles == s.userRoles
             && s'.privilegedKeys == s.privilegedKeys
    ensures Keeps(s, s') && Accounted(s, s')
  {
  }

  lemma RoleCreateAccounted(s: Tables, t: TenantId, r: RoleId, key: string, caption: Caption, permissions: seq<string>)
    requires KeysReserved(s.privilegedKeys)
    ensures Keeps(s, CreateRole(s, t, r, key, caption, permissions).0)
            && Accounted(s, CreateRole(s, t, r, key, caption, permissions).0)
  {
  }

  lemma RoleStatusAccounted(s: Tables, s': Tables)
    requires s' == s.(roles := s'.roles, versions := s'.versions) && s'.roles.Keys == s.roles.Keys
    requires forall k :: k in s.roles ==> s'.roles[k].key == s.roles[k].key
    ensures Keeps(s, s') && Accounted(s, s')
  {
  }

  lemma RoleUpdateAccounted(s: Tables, t: TenantId, r: RoleId, e: Edit, now: Time)
    ensures Keeps(s, UpdateRole(s, t, r, e, now).0) && Accounted(s, UpdateRole(s, t, r, e, now).0)
  {
    RoleUpdateChanges(s, t, r, e, now);
    hide UpdateRole;
    RoleStatusAccounted(s, UpdateRole(s, t, r, e, now).0);
  }

  lemma OrdinaryRowAccounted(s: Tables, s': Tables, id: Id, row: UserRole)
    requires s' == s.(userRoles := s.userRoles[id := row], versions := s'.versions) && id !in s.userRoles
    requires (row.tenant, row.role) in s.roles && !Privileged(s, row.tenant, row.role)
    ensures Keeps(s, s') && Accounted(s, s')
  {
  }

  lemma PendingRequestAccounted(s: Tables, s': Tables, id: Id, request: Request)
    requires s' == s.(requests := s.requests[id := request]) && id !in s.requests
    ensures Keeps(s, s') && Accounted(s, s')
  {
  }

  lemma AssignAccounted(s: Tables, t: TenantId, u: UserId, r: RoleId, actor: UserId, id: Id, now: Time)
    ensures Keeps(s, AssignUserRole(s, t, u, r, actor, id, now).0)
            && Accounted(s, AssignUserRole(s, t, u, r, actor, id, now).0)
  {
    AssignChanges(s, t, u, r, actor, id, now);
    InsertChanges(s, t, u, r, actor, id, now);
    hide AssignUserRole, InsertUserRole, Keeps, Accounted, ReferencesOk;
    var s' := AssignUserRole(s, t, u, r, actor, id, now).0;
    if s' == s {
      SameRolesAccounted(s, s');
    } else if s' == s.(requests := s'.requests) {
      PendingRequestAccounted(s, s', id, Request(t, u, r, Pending, actor, None));
    } else {
      OrdinaryRowAccounted(s, s', id, UserRole(t, u, r, true, Validity(Some(now), None), actor));
    }
  }

  lemma RequestOrAssignAccounted(s: Tables, t: TenantId, u: UserId, r: RoleId, actor: UserId, id: Id, now: Time)
    ensures Keeps(s, RequestOrAssign(s, t, u, r, actor, id, now).0)
            && Accounted(s, RequestOrAssign(s, t, u, r, actor, id, now).0)
  {
    hide Keeps, Accounted, AssignUserRole;
    SameRolesAccounted(s, s);
    AssignAccounted(s, t, u, r, actor, id, now);
  }

  lemma EndedRowsAccounted(s: Tables, s': Tables)
    requires s' == s.(userRoles := s'.userRoles, versions := s'.versions) && s'.userRoles.Keys == s.userRoles.Keys
    requires forall a :: a in s.userRoles && s'.userRoles[a].active ==> s'.userRoles[a] == s.userRoles[a]
    ensures Keeps(s, s') && Accounted(s, s')
  {
  }

  lemma RemoveUserRoleAccounted(s: Tables, t: TenantId, u: UserId, r: RoleId, now: Time)
    ensures Keeps(s, RemoveUserRole(s, t, u, r, now).0) && Accounted(s, RemoveUserRole(s, t, u, r, now).0)
  {
    EndedRowsAccounted(s, RemoveUserRole(s, t, u, r, now).0);
  }

  lemma ApproveAccounted(s: Tables, t: TenantId, q: Id, approver: UserId, id: Id, now: Time)
    ensures Keeps(s, ApproveRequest(s, t, q, approver, id, now).0)
            && Accounted(s, ApproveRequest(s, t, q, approver, id, now).0)
  {
    var s' := ApproveRequest(s, t, q, approver, id, now).0;
    if s' != s && !AlreadyAssigned(s, t, s.requests[q].subject, s.requests[q].role) {
      assert Vouches(s'.requests[q], s'.userRoles[id]);
    }
  }

  lemma RejectAccounted(s: Tables, t: TenantId, q: Id, approver: UserId)
    ensures Keeps(s, RejectRequest(s, t, q, approver).0) && Accounted(s, RejectRequest(s, t, q, approver).0)
  {
  }

  lemma OneGrantAccounted(s: Tables, s1: Tables, id: Id, row: UserRole)
    requires s1 == s.(userRoles := s1.userRoles) && Accounted(s, s1) && id !in s1.userRoles
    requires RoleActive(s, row.tenant, row.role) && !Privileged(s, row.tenant, row.role)
    ensures var s' := s1.(userRoles := s1.userRoles[id := row]);
            Accounted(s, s') && (ReferencesOk(s1) ==> ReferencesOk(s'))
  {
    hide Vouches, Privileged;
  }

  lemma {:induction false} GrantRolesAccounted(s: Tables, t: TenantId, u: UserId, roles: seq<RoleId>, actor: UserId,
      ids: Id -> Id, now: Time)
    requires forall r :: r in roles ==> RoleActive(s, t, r) && !Privileged(s, t, r)
    ensures var s' := GrantRoles(s, t, u, roles, actor, ids, now);
            s' == s.(userRoles := s'.userRoles) && Accounted(s, s') && (ReferencesOk(s) ==> ReferencesOk(s'))
  {
    if roles != [] {
      var n := |roles| - 1;
      assert roles[n] in roles && forall r :: r in roles[..n] ==> r in roles;
      GrantRolesAccounted(s, t, u, roles[..n], actor, ids, now);
      var s1 := GrantRoles(s, t, u, roles[..n], actor, ids, now);
      var s' := GrantRoles(s, t, u, roles, actor, ids, now);
      hide Accounted, ReferencesOk;
      if s' != s1 {
        OneGrantAccounted(s, s1, ids(n), UserRole(t, u, roles[n], true, Validity(Some(now), None), actor));
      }
    } else {
      SameRolesAccounted(s, s);
    }
  }

  lemma OneMemberAccounted(s: Tables, s1: Tables, id: Id, row: GroupMember)
    requires s1 == s.(groupMembers := s1.groupMembers) && GroupActive(s, row.tenant, row.group)
    ensures ReferencesOk(s1) ==> ReferencesOk(s1.(groupMembers := s1.groupMembers[id := row]))
  {
  }

  lemma {:induction false} GrantGroupsAccounted(s: Tables, t: TenantId, u: UserId, groups: seq<GroupId>,
      ids: Id -> Id, now: Time)
    requires forall g :: g in groups ==> GroupActive(s, t, g)
    ensures var s' := GrantGroups(s, t, u, groups, ids, now);
            s' == s.(groupMembers := s'.groupMembers) && (ReferencesOk(s) ==> ReferencesOk(s'))
  {
    if groups != [] {
      var n := |groups| - 1;
      assert groups[n] in groups && forall g :: g in groups[..n] ==> g in groups;
      GrantGroupsAccounted(s, t, u, groups[..n], ids, now);
      var s1 := GrantGroups(s, t, u, groups[..n], ids, now);
      hide ReferencesOk, MemberRow;
      if ids(n) !in s1.groupMembers {
        OneMemberAccounted(s, s1, ids(n), GroupMember(t, groups[n], u, true, Validity(Some(now), None)));
      }
    }
  }

  lemma OneRequestKeeps(s: Tables, s1: Tables, id: Id, row: Request)
    requires s1 == s.(requests := s1.requests) && Keeps(s, s1) && id !in s1.requests
             && RoleActive(s, row.tenant, row.role)
    ensures var s' := s1.(requests := s1.requests[id := row]); Keeps(s, s') && (ReferencesOk(s1) ==> ReferencesOk(s'))
  {
  }

  lemma {:induction false} RequestRolesKeeps(s: Tables, t: TenantId, u: UserId, roles: seq<RoleId>, actor: UserId,
      ids: Id -> Id)
    requires forall r :: r in roles ==> RoleActive(s, t, r)
    ensures var o := RequestRoles(s, t, u, roles, actor, ids);
            o.Some? ==> && o.value == s.(requests := o.value.requests)
                        && Keeps(s, o.value)
                        && (forall q :: q in o.value.requests && q !in s.requests ==>
                           o.value.requests[q].status.Pending?)
                        && (ReferencesOk(s) ==> ReferencesOk(o.value))
  {
    if roles != [] {
      var n := |roles| - 1;
      assert roles[n] in roles && forall r :: r in roles[..n] ==> r in roles;
      RequestRolesKeeps(s, t, u, roles[..n], actor, ids);
      var front := RequestRoles(s, t, u, roles[..n], actor, ids);
      hide ReferencesOk, Keeps, AlreadyRequested;
      if front.Some? && ids(n) !in front.value.requests {
        OneRequestKeeps(s, front.value, ids(n), Request(t, u, roles[n], Pending, actor, None));
      }
    }
  }

  lemma GrantAccounted(s: Tables, t: TenantId, u: UserId, roles: seq<RoleId>, groups: seq<GroupId>, actor: UserId,
      ids: Id -> Id, now: Time)
    requires AccessValid(s, t, roles, groups) && PrivilegedOf(s, t, roles) == []
    ensures var s' := GrantGroups(GrantRoles(s, t, u, roles, actor, ids, now), t, u, groups, ids, now);
            Keeps(s, s') && Accounted(s, s') && (ReferencesOk(s) ==> ReferencesOk(s')) && s'.versions == s.versions
  {
    forall r | r in roles ensures !Privileged(s, t, r) {
      assert r in PrivilegedOf(s, t, roles) <==> Privileged(s, t, r);
    }
    GrantRolesAccounted(s, t, u, roles, actor, ids, now);
    GrantGroupsAccounted(GrantRoles(s, t, u, roles, actor, ids, now), t, u, groups, ids, now);
  }

  lemma AcceptAccounted(s: Tables, m: Move, now: Time)
    requires !m.Admin?
    ensures Keeps(s, Do(s, m, now)) && Accounted(s, Do(s, m, now))
    ensures ReferencesOk(s) ==> ReferencesOk(Do(s, m, now))
    ensures Do(s, m, now).versions == s.versions
  {
    hide Keeps, Accounted, ReferencesOk;
    var t, u, roles, groups, ids := m.t, m.u, Dedup(m.roles), Dedup(m.groups), m.ids;
    var actor := if m.Accept? then m.invitedBy else m.actor;
    SameRolesAccounted(s, s);
    if AccessValid(s, t, roles, groups) {
      if PrivilegedOf(s, t, roles) == [] {
        GrantAccounted(s, t, u, roles, groups, actor, ids, now);
      } else {
        RequestsAccounted(s, t, u, PrivilegedOf(s, t, roles), actor, ids);
      }
    }
  }

  lemma RequestsAccounted(s: Tables, t: TenantId, u: UserId, roles: seq<RoleId>, actor: UserId, ids: Id -> Id)
    requires forall r :: r in roles ==> RoleActive(s, t, r)
    ensures var o := RequestRoles(s, t, u, roles, actor, ids);
            o.Some? ==> && Keeps(s, o.value) && Accounted(s, o.value) && o.value.versions == s.versions
                        && (ReferencesOk(s) ==> ReferencesOk(o.value))
  {
    RequestRolesKeeps(s, t, u, roles, actor, ids);
  }

  lemma CallAccounted(s: Tables, c: Call, now: Time)
    requires KeysReserved(s.privilegedKeys)
    ensures Keeps(s, Apply(s, c, now).0) && Accounted(s, Apply(s, c, now).0)
  {
    hide Keeps, Accounted, CreateGroup, UpdateGroup, AddGroupMember, RemoveGroupMember, AssignGroupRole,
        RemoveGroupRole, CreateRole, UpdateRole, AddRolePermission, RemoveRolePermission, AssignUserRole,
          RemoveUserRole, ApproveRequest, RejectRequest;
    match c
    case RoleCreate(t, r, key, caption, permissions) => RoleCreateAccounted(s, t, r, key, caption, permissions);
    case RoleUpdate(t, r, edit) => RoleUpdateAccounted(s, t, r, edit, now);
    case UserRoleAssign(t, u, r, actor, id) => AssignAccounted(s, t, u, r, actor, id, now);
    case UserRoleRequestOrAssign(t, u, r, actor, id) => RequestOrAssignAccounted(s, t, u, r, actor, id, now);
    case UserRoleRemove(t, u, r) => RemoveUserRoleAccounted(s, t, u, r, now);
    case RequestApprove(t, q, approver, id) => ApproveAccounted(s, t, q, approver, id, now);
    case RequestReject(t, q, approver) => RejectAccounted(s, t, q, approver);
    case _ => SameRolesAccounted(s, Apply(s, c, now).0);
  }

  lemma MoveAccounted(s: Tables, m: Move, now: Time)
    requires ReferencesOk(s) && KeysReserved(s.privilegedKeys)
    ensures Keeps(s, Do(s, m, now)) && Accounted(s, Do(s, m, now)) && ReferencesOk(Do(s, m, now))
  {
    match m
    case Admin(c) =>
      CallsKeepReferences(s, c, now);
      CallAccounted(s, c, now);
    case Accept(_, _, _, _, _, _) => AcceptAccounted(s, m, now);
    case ApproveSelf(_, _, _, _, _, _) => AcceptAccounted(s, m, now);
  }

  // ---------------------------------------------------------------------------------------------
  // Runs
  // ---------------------------------------------------------------------------------------------

  /**
   After any sequence of moves, every ACTIVE direct assignment of a privileged role that the
   sequence added carries an APPROVED request for the same tenant, subject and role, made by the
   assigner and approved by somebody who is neither the assigner nor the subject.
   */
  lemma {:induction false} MakerCheckerHolds(s: Tables, moves: seq<(Move, Time)>)
    requires ReferencesOk(s) && KeysReserved(s.privilegedKeys)
    ensures Vouched(DoAll(s, moves), s.userRoles.Keys)
    ensures ReferencesOk(DoAll(s, moves)) && DoAll(s, moves).privilegedKeys == s.privilegedKeys
  {
    if moves != [] {
      var n := |moves| - 1;
      var s1 := DoAll(s, moves[..n]);
      MakerCheckerHolds(s, moves[..n]);
      MoveAccounted(s1, moves[n].0, moves[n].1);
      KeepsVouched(s1, Do(s1, moves[n].0, moves[n].1), s.userRoles.Keys);
    }
  }

  /** Over any run a decided request never changes, and no role becomes, or stops being, a privileged one. */
  lemma {:induction false} DecisionsAreFinal(s: Tables, moves: seq<(Move, Time)>)
    requires ReferencesOk(s) && KeysReserved(s.privilegedKeys)
    ensures forall q :: q in s.requests && !s.requests[q].status.Pending? ==>
              q in DoAll(s, moves).requests && DoAll(s, moves).requests[q] == s.requests[q]
    ensures forall t, r :: Privileged(DoAll(s, moves), t, r) <==> Privileged(s, t, r)
  {
    if moves != [] {
      var n := |moves| - 1;
      DecisionsAreFinal(s, moves[..n]);
      MakerCheckerHolds(s, moves[..n]);
      MoveAccounted(DoAll(s, moves[..n]), moves[n].0, moves[n].1);
    }
  }

  /** Onboarding hands out access without raising any authorization version. */
  lemma OnboardingRaisesNoVersion(s: Tables, m: Move, now: Time)
    requires !m.Admin?
    ensures Do(s, m, now).versions == s.versions
  {
    AcceptAccounted(s, m, now);
  }
}

/** The set the services are deployed with. */
module PrivilegedRoleKeys {
  import MakerChecker

  const PRIVILEGED_ROLE_KEYS: set<string> := {
    "tenant.owner", "tenant.admin", "tenant.rbac_admin", "tenant.access_admin",
    "tenant.security_policy_admin", "tenant.security_approver"
  }

  lemma DeployedKeysAreReserved()
    ensures MakerChecker.KeysReserved(PRIVILEGED_ROLE_KEYS)
  {
    assert "tenant.owner"[..7] == "tenant.";
    assert "tenant.admin"[..7] == "tenant.";
    assert "tenant.rbac_admin"[..7] == "tenant.";
    assert "tenant.access_admin"[..7] == "tenant.";
    assert "tenant.security_policy_admin"[..7] == "tenant.";
    assert "tenant.security_approver"[..7] == "tenant.";
  }
}
