/**
 What each administrative call answers, and what is then true of the tables the runtime query reads: exactly
 when a call takes effect, what it leaves in force, and that each removal undoes its addition.
 */
module RbacEffects {
  import opened Options
  import opened Rbac
  import opened RbacVersions

  // ---------------------------------------------------------------------------------------------
  // Rows
  // ---------------------------------------------------------------------------------------------

  predicate MayUse(s: Tables, u: UserId) {
    u in s.users && s.users[u].active && s.users[u].principalActive
  }

  predicate GroupIsOn(s: Tables, t: TenantId, g: GroupId) { (t, g) in s.groups && s.groups[(t, g)].active }

  predicate RoleIsOn(s: Tables, t: TenantId, r: RoleId) { (t, r) in s.roles && s.roles[(t, r)].active }

  /** An ACTIVE row makes u a member of g. */
  ghost predicate Listed(s: Tables, t: TenantId, g: GroupId, u: UserId) {
    exists m :: m in s.groupMembers && s.groupMembers[m].tenant == t && s.groupMembers[m].group == g
      && s.groupMembers[m].user == u && s.groupMembers[m].active
  }

  /** An ACTIVE row gives g the role r. */
  ghost predicate Carries(s: Tables, t: TenantId, g: GroupId, r: RoleId) {
    exists a :: a in s.groupRoles && s.groupRoles[a].tenant == t && s.groupRoles[a].group == g
      && s.groupRoles[a].role == r && s.groupRoles[a].active
  }

  /** An ACTIVE row assigns r to u. */
  ghost predicate Assigned(s: Tables, t: TenantId, u: UserId, r: RoleId) {
    exists a :: a in s.userRoles && s.userRoles[a].tenant == t && s.userRoles[a].user == u
      && s.userRoles[a].role == r && s.userRoles[a].active
  }

  /** A request of r for u waits. */
  ghost predicate Awaited(s: Tables, t: TenantId, u: UserId, r: RoleId) {
    exists q :: q in s.requests && s.requests[q].tenant == t && s.requests[q].subject == u
      && s.requests[q].role == r && s.requests[q].status == Pending
  }

  /** Exactly these users of the tenant have their version raised, by one. */
  ghost predicate RaisesExactly(s: Tables, s': Tables, t: TenantId, users: set<UserId>) {
    forall u, t' :: Version(s', u, t') == Version(s, u, t') + (if t' == t && u in users then 1 else 0)
  }

  /** In force from now on, without end. */
  ghost predicate InForceFrom(validity: Validity, now: Time) {
    forall at :: validity.Covers(at) <==> now <= at
  }

  // ---------------------------------------------------------------------------------------------
  // Approving and rejecting
  // ---------------------------------------------------------------------------------------------

  /** The request waits and neither its author nor its subject decides it. */
  predicate WaitsFor(s: Tables, t: TenantId, q: Id, approver: UserId) {
    && q in s.requests && s.requests[q].tenant == t && s.requests[q].status == Pending
    && approver != s.requests[q].requestedBy && approver != s.requests[q].subject
  }

  /** The assignment an approval adds. */
  ghost predicate AddsAssignment(s: Tables, s': Tables, id: Id, request: Request, t: TenantId, now: Time) {
    && id !in s.userRoles && id in s'.userRoles && s'.userRoles == s.userRoles[id := s'.userRoles[id]]
    && var row := s'.userRoles[id];
    && row.tenant == t && row.user == request.subject && row.role == request.role && row.active
    && row.assignedBy == request.requestedBy && InForceFrom(row.validity, now)
  }

  /**
   An approval answers true exactly for a waiting request, an independent approver, an ACTIVE subject and role, and a
   fresh id where a row is needed.  The request is then APPROVED by the approver and the subject holds the role: through
   the row that was there, or through exactly one new row of the requester's, and then under a raised version.
   */
  lemma ApprovalTakesEffectExactlyWhen(s: Tables, t: TenantId, q: Id, approver: UserId, id: Id, now: Time)
    ensures var (s', a) := ApproveRequest(s, t, q, approver, id, now);
            && (a == Answer(true) <==>
                  && WaitsFor(s, t, q, approver)
                  && var request := s.requests[q];
                  && MayUse(s, request.subject) && RoleIsOn(s, t, request.role)
                  && (Assigned(s, t, request.subject, request.role) || id !in s.userRoles))
            && a != Answer(false)
            && (a == Answer(true) ==>
                  var request := s.requests[q];
                  && s'.requests == s.requests[q := request.(status := Approved, decidedBy := Some(approver))]
                  && Assigned(s', t, request.subject, request.role)
                  && (if Assigned(s, t, request.subject, request.role)
                      then s'.userRoles == s.userRoles && s'.versions == s.versions
                      else AddsAssignment(s, s', id, request, t, now) && RaisesExactly(s, s', t, {request.subject})))
  {
    if q in s.requests {
      var request := s.requests[q];
      var s' := ApproveRequest(s, t, q, approver, id, now).0;
      assert AlreadyAssigned(s, t, request.subject, request.role) <==> Assigned(s, t, request.subject, request.role);
      hide ReferencesOk, Bump, AlreadyAssigned;
      if ApproveRequest(s, t, q, approver, id, now).1 == Answer(true)
         && !Assigned(s, t, request.subject, request.role) {
        assert s'.userRoles[id].user == request.subject;
      }
    }
  }

  /**
   After an approval the subject has the role, at every instant from then on, exactly when a row was added or had it
   there already: an ACTIVE row outside its validity keeps the approval from adding one that counts.
   */
  lemma ApprovedRoleIsHeldExactlyWhen(s: Tables, t: TenantId, q: Id, approver: UserId, id: Id, now: Time, at: Time)
    requires ApproveRequest(s, t, q, approver, id, now).1 == Answer(true) && now <= at
    ensures var request := s.requests[q];
            HasRole(ApproveRequest(s, t, q, approver, id, now).0, t, request.subject, request.role, at) <==>
              !Assigned(s, t, request.subject, request.role) || HasRole(s, t, request.subject, request.role, at)
  {
    ApprovalTakesEffectExactlyWhen(s, t, q, approver, id, now);
    var s', u, r := ApproveRequest(s, t, q, approver, id, now).0, s.requests[q].subject, s.requests[q].role;
    assert s' == s.(userRoles := s'.userRoles, versions := s'.versions, requests := s'.requests);
    hide ApproveRequest;
    assert HasThroughGroup(s', t, u, r, at) <==> HasThroughGroup(s, t, u, r, at);
    if !Assigned(s, t, u, r) {
      assert Assigns(s'.userRoles[id], t, u, r, at);
    } else {
      assert HasDirect(s', t, u, r, at) <==> HasDirect(s, t, u, r, at);
    }
    hide HasThroughGroup, HasDirect, Assigned;
  }

  /** An input: the subject's ACTIVE assignment has lapsed, the request is APPROVED, and nothing is granted. */
  lemma ApprovalOverLapsedRow(key: string, p: string) returns (s: Tables)
    ensures ReferencesOk(s) && ApproveRequest(s, 1, 5, 2, 9, 1).1 == Answer(true)
    ensures s.requests[5].subject == 1 && Grants(ApproveRequest(s, 1, 5, 2, 9, 1).0, 1, 1, 1) == {}
  {
    s := Tables(map[1 := User(true, true)], map[p := PermissionActive],
                map[(1, 1) := Role(key, Caption(key, None), true)], {(1, 1, p)},
                map[8 := UserRole(1, 1, 1, true, Validity(None, Some(1)), 3)], map[], map[], map[], {}, map[],
                map[5 := Request(1, 1, 1, Pending, 3, None)], {key});
    assert UserRoleRow(s.userRoles[8], 1, 1, 1);
    var s' := ApproveRequest(s, 1, 5, 2, 9, 1).0;
    assert s'.userRoles == s.userRoles;
    forall r ensures !HasRole(s', 1, 1, r, 1) {
      assert !HasDirect(s', 1, 1, r, 1) && !HasThroughGroup(s', 1, 1, r, 1);
    }
    hide HasRole;
  }

  /** A rejection answers true exactly for a waiting request and an independent approver, and then changes only it. */
  lemma RejectionTakesEffectExactlyWhen(s: Tables, t: TenantId, q: Id, approver: UserId)
    ensures var (s', a) := RejectRequest(s, t, q, approver);
            && (a == Answer(true) <==> WaitsFor(s, t, q, approver))
            && s' == (if a == Answer(true)
                      then s.(requests := s.requests[q := s.requests[q].(status := Rejected,
                          decidedBy := Some(approver))])
                      else s)
  {
    hide ReferencesOk;
  }

  // ---------------------------------------------------------------------------------------------
  // Direct assignments
  // ---------------------------------------------------------------------------------------------

  lemma OrdinaryAssignment(s: Tables, t: TenantId, u: UserId, r: RoleId, actor: UserId, id: Id, now: Time)
    ensures var (s', a) := InsertUserRole(s, t, u, r, actor, id, now);
            && (a == Answer(true) <==>
                  MayUse(s, u) && RoleIsOn(s, t, r) && !Assigned(s, t, u, r) && id !in s.userRoles)
            && (a == Answer(false) <==> MayUse(s, u) && RoleIsOn(s, t, r) && Assigned(s, t, u, r))
            && (a != Answer(true) ==> s' == s)
            && (a == Answer(true) ==>
                  && s' == s.(userRoles := s'.userRoles, versions := s'.versions)
                  && AddsAssignment(s, s', id, Request(t, u, r, Pending, actor, None), t, now)
                  && RaisesExactly(s, s', t, {u}))
  {
    assert AlreadyAssigned(s, t, u, r) <==> Assigned(s, t, u, r);
    hide ReferencesOk, Bump, AlreadyAssigned, Assigned;
  }

  ghost predicate IsPrivileged(s: Tables, t: TenantId, r: RoleId) {
    (t, r) in s.roles && s.roles[(t, r)].key in s.privilegedKeys
  }

  /**
   The gate answers true exactly for an ACTIVE user and role that is not assigned yet, nor awaited if privileged.  An
   ordinary role is then held from now on under a raised version; a privileged one only waits for a decision.
   */
  lemma AssignmentTakesEffectExactlyWhen(
    s: Tables, t: TenantId, u: UserId, r: RoleId, actor: UserId, id: Id, now: Time)
    ensures var (s', a) := AssignUserRole(s, t, u, r, actor, id, now);
            && (a == Answer(true) <==>
                  && MayUse(s, u) && RoleIsOn(s, t, r) && !Assigned(s, t, u, r)
                  && (if IsPrivileged(s, t, r) then !Awaited(s, t, u, r) && id !in s.requests else id !in s.userRoles))
            && (a == Answer(false) <==>
                  && MayUse(s, u) && RoleIsOn(s, t, r)
                  && (Assigned(s, t, u, r) || (IsPrivileged(s, t, r) && Awaited(s, t, u, r))))
            && (a == Answer(true) ==>
                  if IsPrivileged(s, t, r)
                  then s' == s.(requests := s.requests[id := Request(t, u, r, Pending, actor, None)])
                  else
                    && s' == s.(userRoles := s'.userRoles, versions := s'.versions)
                    && AddsAssignment(s, s', id, Request(t, u, r, Pending, actor, None), t, now)
                    && RaisesExactly(s, s', t, {u}))
            && (a != Answer(true) ==> s' == s)
  {
    OrdinaryAssignment(s, t, u, r, actor, id, now);
    assert AlreadyAssigned(s, t, u, r) <==> Assigned(s, t, u, r);
    assert AlreadyRequested(s, t, u, r) <==> Awaited(s, t, u, r);
    hide ReferencesOk, InsertUserRole, AlreadyAssigned, AlreadyRequested, Assigned, Awaited, AddsAssignment;
    hide RaisesExactly;
  }

  /** request_or_assign_user_role takes effect exactly when the gate does, and in the same way. */
  lemma RequestingIsAssigning(s: Tables, t: TenantId, u: UserId, r: RoleId, actor: UserId, id: Id, now: Time)
    ensures var (s', a) := RequestOrAssign(s, t, u, r, actor, id, now);
            var (s1, a1) := AssignUserRole(s, t, u, r, actor, id, now);
            s' == s1 && (a == a1 || (a.Failed? && a1.Failed?))
  {
    hide ReferencesOk, Bump, AlreadyAssigned, AlreadyRequested;
  }

  /**
   A removal answers true exactly when the role is assigned; afterwards no row gives it to u directly at any
   instant, the ended rows end now, nobody else's row moves, and u's version is raised.
   */
  lemma UnassignmentTakesEffectExactlyWhen(s: Tables, t: TenantId, u: UserId, r: RoleId, now: Time)
    ensures var (s', a) := RemoveUserRole(s, t, u, r, now);
            && !a.Failed? && (a == Answer(true) <==> Assigned(s, t, u, r))
            && !Assigned(s', t, u, r) && (forall at :: !HasDirect(s', t, u, r, at))
            && s' == s.(userRoles := s'.userRoles, versions := s'.versions)
            && s'.userRoles.Keys == s.userRoles.Keys
            && (forall k :: k in s.userRoles ==>
                  var was, row := s.userRoles[k], s'.userRoles[k];
                  if was.tenant == t && was.user == u && was.role == r && was.active
                  then row == was.(active := false, validity := Validity(was.validity.from, Some(now))) else row == was)
            && RaisesExactly(s, s', t, if a == Answer(true) then {u} else {})
  {
    assert AlreadyAssigned(s, t, u, r) <==> Assigned(s, t, u, r);
    hide ReferencesOk, Bump;
  }

  // ---------------------------------------------------------------------------------------------
  // Groups
  // ---------------------------------------------------------------------------------------------

  lemma GroupCreationTakesEffectExactlyWhen(s: Tables, t: TenantId, g: GroupId, key: string, caption: Caption)
    ensures var (s', a) := CreateGroup(s, t, g, key, caption);
            && a != Answer(false)
            && (a == Answer(true) <==>
                  (t, g) !in s.groups && forall k :: k in s.groups && k.0 == t ==> s.groups[k].key != key)
            && s' == (if a == Answer(true) then s.(groups := s.groups[(t, g) := Group(key, caption, true)]) else s)
  {
    hide ReferencesOk;
  }

  /** What an update writes: the given columns, and the stored ones where none is given. */
  predicate Rewrites(was: Caption, wasActive: bool, e: Edit, caption: Caption, active: bool) {
    && caption.name == (match e.name case Some(name) => name case None => was.name)
    && caption.description == (match e.description case Some(_) => e.description case None => was.description)
    && active == (match e.status case Some(status) => status case None => wasActive)
  }

  lemma BumpRaises(v: Versions, t: TenantId, users: set<UserId>)
    ensures forall u, t' :: VersionIn(Bump(v, t, users), u, t')
                              == VersionIn(v, u, t') + (if t' == t && u in users then 1 else 0)
  {
    hide Bump;
  }

  lemma GroupUpdateWrites(s: Tables, t: TenantId, g: GroupId, e: Edit, now: Time)
    ensures var (s', a) := UpdateGroup(s, t, g, e, now);
            && a == Answer((t, g) in s.groups)
            && (if (t, g) in s.groups
                then (t, g) in s'.groups && s'.groups[(t, g)] == EditedGroup(s.groups[(t, g)], e) else s' == s)
  {
    hide ReferencesOk, Bump, GroupUsers, EditedGroup;
    if (t, g) in s.groups {
      var row := EditedGroup(s.groups[(t, g)], e);
      var s1 := WithGroup(s, (t, g), row);
      assert s1.groups[(t, g)] == row;
      hide WithGroup;
    }
  }

  lemma GroupEditRewrites(was: Group, e: Edit)
    ensures var row := EditedGroup(was, e);
            row.key == was.key && Rewrites(was.caption, was.active, e, row.caption, row.active)
  {}

  /** An update answers true exactly for a stored group; a change of status raises exactly its members' versions. */
  lemma GroupUpdateTakesEffectExactlyWhen(s: Tables, t: TenantId, g: GroupId, e: Edit, now: Time)
    ensures var (s', a) := UpdateGroup(s, t, g, e, now);
            && !a.Failed? && (a == Answer(true) <==> (t, g) in s.groups)
            && s' == s.(groups := s'.groups, versions := s'.versions)
            && (a == Answer(false) ==> s' == s)
            && (a == Answer(true) ==>
                  && (t, g) in s'.groups && s'.groups == s.groups[(t, g) := s'.groups[(t, g)]]
                  && var was, row := s.groups[(t, g)], s'.groups[(t, g)];
                  && row.key == was.key && Rewrites(was.caption, was.active, e, row.caption, row.active)
                  && RaisesExactly(s, s', t, if row.active != was.active then GroupUsers(s, t, g, now) else {}))
  {
    GroupUpdateChanges(s, t, g, e, now);
    GroupUpdateWrites(s, t, g, e, now);
    if (t, g) in s.groups {
      GroupEditRewrites(s.groups[(t, g)], e);
    }
    hide UpdateGroup, GroupUsers, EditedGroup, Rewrites;
    BumpRaises(s.versions, t, GroupUsers(s, t, g, now));
    hide Bump;
  }

  /** A member is added exactly to an ACTIVE group, for an ACTIVE user who is not one yet, and is in it from now on. */
  lemma JoiningTakesEffectExactlyWhen(s: Tables, t: TenantId, g: GroupId, u: UserId, id: Id, now: Time)
    ensures var (s', a) := AddGroupMember(s, t, g, u, id, now);
            && (a == Answer(true) <==>
                  GroupIsOn(s, t, g) && MayUse(s, u) && !Listed(s, t, g, u) && id !in s.groupMembers)
            && (a == Answer(false) <==> GroupIsOn(s, t, g) && MayUse(s, u) && Listed(s, t, g, u))
            && s' == s.(groupMembers := s'.groupMembers, versions := s'.versions)
            && (if a == Answer(true)
                then
                  && id in s'.groupMembers && s'.groupMembers == s.groupMembers[id := s'.groupMembers[id]]
                  && var row := s'.groupMembers[id];
                  && row.tenant == t && row.group == g && row.user == u && row.active && InForceFrom(row.validity, now)
                  && RaisesExactly(s, s', t, {u})
                else s' == s)
  {
    assert Listed(s, t, g, u) <==> exists m :: m in s.groupMembers && MemberRow(s.groupMembers[m], t, g, u);
    hide ReferencesOk, Bump, Listed, MemberRow;
  }

  /** A member is removed exactly when listed; afterwards u is in the group at no instant. */
  lemma LeavingTakesEffectExactlyWhen(s: Tables, t: TenantId, g: GroupId, u: UserId)
    ensures var (s', a) := RemoveGroupMember(s, t, g, u);
            && !a.Failed? && (a == Answer(true) <==> Listed(s, t, g, u))
            && !Listed(s', t, g, u)
            && (forall m, at :: m in s'.groupMembers ==> !Joins(s'.groupMembers[m], t, u, g, at))
            && s' == s.(groupMembers := s'.groupMembers, versions := s'.versions)
            && s'.groupMembers.Keys == s.groupMembers.Keys
            && (forall m :: m in s.groupMembers ==>
                  var was, row := s.groupMembers[m], s'.groupMembers[m];
                  if was.tenant == t && was.group == g && was.user == u
                  then row == was.(active := false) else row == was)
            && RaisesExactly(s, s', t, if a == Answer(true) then {u} else {})
  {
    hide ReferencesOk, Bump;
  }

  /** A group gets a role exactly when both are ACTIVE and it has it not yet; its members' versions are raised. */
  lemma GroupGrantTakesEffectExactlyWhen(s: Tables, t: TenantId, g: GroupId, r: RoleId, id: Id, now: Time)
    ensures var (s', a) := AssignGroupRole(s, t, g, r, id, now);
            && (a == Answer(true) <==>
                  GroupIsOn(s, t, g) && RoleIsOn(s, t, r) && !Carries(s, t, g, r) && id !in s.groupRoles)
            && (a == Answer(false) <==> GroupIsOn(s, t, g) && RoleIsOn(s, t, r) && Carries(s, t, g, r))
            && s' == s.(groupRoles := s'.groupRoles, versions := s'.versions)
            && (if a == Answer(true)
                then
                  && s'.groupRoles == s.groupRoles[id := GroupRole(t, g, r, true)]
                  && RaisesExactly(s, s', t, GroupUsers(s, t, g, now))
                else s' == s)
  {
    GroupRoleAssignChanges(s, t, g, r, id, now);
    hide ReferencesOk, Bump, GroupUsers;
  }

  /** A group loses a role exactly when it has it; afterwards it confers it no more. */
  lemma GroupRevocationTakesEffectExactlyWhen(s: Tables, t: TenantId, g: GroupId, r: RoleId, now: Time)
    ensures var (s', a) := RemoveGroupRole(s, t, g, r, now);
            && !a.Failed? && (a == Answer(true) <==> Carries(s, t, g, r))
            && !Carries(s', t, g, r) && (forall k :: k in s'.groupRoles ==> !Confers(s'.groupRoles[k], t, g, r))
            && s' == s.(groupRoles := s'.groupRoles, versions := s'.versions)
            && s'.groupRoles.Keys == s.groupRoles.Keys
            && (forall k :: k in s.groupRoles ==>
                  var was, row := s.groupRoles[k], s'.groupRoles[k];
                  if was.tenant == t && was.group == g && was.role == r
                  then row == was.(active := false) else row == was)
            && RaisesExactly(s, s', t, if a == Answer(true) then GroupUsers(s, t, g, now) else {})
  {
    hide ReferencesOk, Bump, GroupUsers;
  }

  // ---------------------------------------------------------------------------------------------
  // Roles
  // ---------------------------------------------------------------------------------------------

  predicate PermissionIsOn(s: Tables, p: string) { p in s.permissions && s.permissions[p] == PermissionActive }

  /**
   A role is created exactly under an unreserved free key with distinct ACTIVE permissions, and carries just
   these.
   */
  lemma RoleCreationTakesEffectExactlyWhen(
    s: Tables, t: TenantId, r: RoleId, key: string, caption: Caption, permissions: seq<string>)
    ensures var (s', a) := CreateRole(s, t, r, key, caption, permissions);
            && a != Answer(false)
            && (a == Answer(true) <==>
                  && !("platform." <= key) && !("tenant." <= key)
                  && (forall p :: p in permissions ==> PermissionIsOn(s, p))
                  && (forall i, j :: 0 <= i < j < |permissions| ==> permissions[i] != permissions[j])
                  && (t, r) !in s.roles && (forall k :: k in s.roles && k.0 == t ==> s.roles[k].key != key))
            && s' == s.(roles := s'.roles, rolePermissions := s'.rolePermissions)
            && (if a == Answer(true)
                then
                  && s'.roles == s.roles[(t, r) := Role(key, caption, true)]
                  && (forall t', r', p :: (t', r', p) in s'.rolePermissions <==>
                        (t', r', p) in s.rolePermissions || (t' == t && r' == r && p in permissions))
                else s' == s)
  {
    hide ReferencesOk;
  }

  lemma RoleUpdateWrites(s: Tables, t: TenantId, r: RoleId, e: Edit, now: Time)
    ensures var (s', a) := UpdateRole(s, t, r, e, now);
            && a == Answer((t, r) in s.roles)
            && (if (t, r) in s.roles
                then (t, r) in s'.roles && s'.roles[(t, r)] == EditedRole(s.roles[(t, r)], e) else s' == s)
  {
    hide ReferencesOk, Bump, RoleUsers, EditedRole;
    if (t, r) in s.roles {
      var row := EditedRole(s.roles[(t, r)], e);
      var s1 := WithRole(s, (t, r), row);
      assert s1.roles[(t, r)] == row;
      hide WithRole;
    }
  }

  lemma RoleEditRewrites(was: Role, e: Edit)
    ensures var row := EditedRole(was, e);
            row.key == was.key && Rewrites(was.caption, was.active, e, row.caption, row.active)
  {}

  /** An update answers true exactly for a stored role; a change of status raises exactly the versions it reaches. */
  lemma RoleUpdateTakesEffectExactlyWhen(s: Tables, t: TenantId, r: RoleId, e: Edit, now: Time)
    ensures var (s', a) := UpdateRole(s, t, r, e, now);
            && !a.Failed? && (a == Answer(true) <==> (t, r) in s.roles)
            && s' == s.(roles := s'.roles, versions := s'.versions)
            && (a == Answer(false) ==> s' == s)
            && (a == Answer(true) ==>
                  && (t, r) in s'.roles && s'.roles == s.roles[(t, r) := s'.roles[(t, r)]]
                  && var was, row := s.roles[(t, r)], s'.roles[(t, r)];
                  && row.key == was.key && Rewrites(was.caption, was.active, e, row.caption, row.active)
                  && RaisesExactly(s, s', t, if row.active != was.active then RoleUsers(s, t, r, now) else {}))
  {
    RoleUpdateChanges(s, t, r, e, now);
    RoleUpdateWrites(s, t, r, e, now);
    if (t, r) in s.roles {
      RoleEditRewrites(s.roles[(t, r)], e);
    }
    hide UpdateRole, RoleUsers, EditedRole, Rewrites;
    BumpRaises(s.versions, t, RoleUsers(s, t, r, now));
    hide Bump;
  }

  /** A role gets a permission exactly when both are ACTIVE and it has it not yet. */
  lemma PermissionGrantTakesEffectExactlyWhen(s: Tables, t: TenantId, r: RoleId, p: string, now: Time)
    ensures var (s', a) := AddRolePermission(s, t, r, p, now);
            && (a == Answer(true) <==>
                  PermissionIsOn(s, p) && RoleIsOn(s, t, r) && (t, r, p) !in s.rolePermissions)
            && (a == Answer(false) <==>
                  PermissionIsOn(s, p) && RoleIsOn(s, t, r) && (t, r, p) in s.rolePermissions)
            && s' == s.(rolePermissions := s'.rolePermissions, versions := s'.versions)
            && (if a == Answer(true)
                then
                  && s'.rolePermissions == s.rolePermissions + {(t, r, p)}
                  && RaisesExactly(s, s', t, RoleUsers(s, t, r, now))
                else s' == s)
  {
    RoleUsersIgnorePermissions(s, s.rolePermissions + {(t, r, p)}, t, r, now);
    hide ReferencesOk, Bump, RoleUsers;
  }

  /** A role loses a permission exactly when it has it. */
  lemma PermissionRevocationTakesEffectExactlyWhen(s: Tables, t: TenantId, r: RoleId, p: string, now: Time)
    ensures var (s', a) := RemoveRolePermission(s, t, r, p, now);
            && !a.Failed? && (a == Answer(true) <==> (t, r, p) in s.rolePermissions)
            && s' == s.(rolePermissions := s'.rolePermissions, versions := s'.versions)
            && s'.rolePermissions == s.rolePermissions - {(t, r, p)}
            && RaisesExactly(s, s', t, if a == Answer(true) then RoleUsers(s, t, r, now) else {})
  {
    hide ReferencesOk, Bump, RoleUsers;
  }

  // ---------------------------------------------------------------------------------------------
  // Each removal undoes its addition
  // ---------------------------------------------------------------------------------------------

  /** Every row of s is kept and the rows added are not ACTIVE. */
  ghost predicate OnlyInactiveAdded(s: Tables, s': Tables) {
    && s' == s.(userRoles := s'.userRoles, groupMembers := s'.groupMembers, groupRoles := s'.groupRoles,
                versions := s'.versions)
    && (forall k :: k in s.userRoles ==> k in s'.userRoles && s'.userRoles[k] == s.userRoles[k])
    && (forall k :: k in s'.userRoles && k !in s.userRoles ==> !s'.userRoles[k].active)
    && (forall k :: k in s.groupMembers ==> k in s'.groupMembers && s'.groupMembers[k] == s.groupMembers[k])
    && (forall k :: k in s'.groupMembers && k !in s.groupMembers ==> !s'.groupMembers[k].active)
    && (forall k :: k in s.groupRoles ==> k in s'.groupRoles && s'.groupRoles[k] == s.groupRoles[k])
    && (forall k :: k in s'.groupRoles && k !in s.groupRoles ==> !s'.groupRoles[k].active)
  }

  lemma InactiveRowsGrantNothing(s: Tables, s': Tables, t: TenantId, u: UserId, at: Time)
    requires OnlyInactiveAdded(s, s')
    ensures Grants(s', t, u, at) == Grants(s, t, u, at)
  {
    forall r ensures HasRole(s', t, u, r, at) <==> HasRole(s, t, u, r, at) {
      assert HasDirect(s', t, u, r, at) <==> HasDirect(s, t, u, r, at);
      assert HasThroughGroup(s', t, u, r, at) <==> HasThroughGroup(s, t, u, r, at);
    }
    SameGrants(s, s', t, u, at);
  }

  /** Removing a member who has just joined answers true and leaves everybody with the grants from before. */
  lemma LeavingUndoesJoining(
    s: Tables, t: TenantId, g: GroupId, u: UserId, id: Id, now: Time, t': TenantId, u': UserId, at: Time)
    requires AddGroupMember(s, t, g, u, id, now).1 == Answer(true)
    ensures var s1 := AddGroupMember(s, t, g, u, id, now).0;
            var (s2, a) := RemoveGroupMember(s1, t, g, u);
            a == Answer(true) && Grants(s2, t', u', at) == Grants(s, t', u', at)
  {
    JoiningTakesEffectExactlyWhen(s, t, g, u, id, now);
    var s1 := AddGroupMember(s, t, g, u, id, now).0;
    LeavingTakesEffectExactlyWhen(s1, t, g, u);
    var s2 := RemoveGroupMember(s1, t, g, u).0;
    hide AddGroupMember, RemoveGroupMember, Grants, RaisesExactly, InForceFrom;
    assert forall m :: m in s.groupMembers ==> s1.groupMembers[m] == s.groupMembers[m];
    assert OnlyInactiveAdded(s, s2);
    InactiveRowsGrantNothing(s, s2, t', u', at);
  }

  lemma UnassigningUndoesAssigning(
    s: Tables, t: TenantId, u: UserId, r: RoleId, actor: UserId, id: Id, now: Time, later: Time, t': TenantId,
    u': UserId, at: Time)
    requires AssignUserRole(s, t, u, r, actor, id, now).1 == Answer(true) && !IsPrivileged(s, t, r)
    ensures var s1 := AssignUserRole(s, t, u, r, actor, id, now).0;
            var (s2, a) := RemoveUserRole(s1, t, u, r, later);
            a == Answer(true) && Grants(s2, t', u', at) == Grants(s, t', u', at)
  {
    AssignmentTakesEffectExactlyWhen(s, t, u, r, actor, id, now);
    var s1 := AssignUserRole(s, t, u, r, actor, id, now).0;
    UnassignmentTakesEffectExactlyWhen(s1, t, u, r, later);
    var s2 := RemoveUserRole(s1, t, u, r, later).0;
    hide AssignUserRole, RemoveUserRole, Grants, RaisesExactly, InForceFrom, HasDirect;
    assert forall k :: k in s.userRoles ==> s1.userRoles[k] == s.userRoles[k];
    assert OnlyInactiveAdded(s, s2);
    InactiveRowsGrantNothing(s, s2, t', u', at);
  }

  lemma GroupRevocationUndoesGroupGrant(
    s: Tables, t: TenantId, g: GroupId, r: RoleId, id: Id, now: Time, later: Time, t': TenantId, u': UserId, at: Time)
    requires AssignGroupRole(s, t, g, r, id, now).1 == Answer(true)
    ensures var s1 := AssignGroupRole(s, t, g, r, id, now).0;
            var (s2, a) := RemoveGroupRole(s1, t, g, r, later);
            a == Answer(true) && Grants(s2, t', u', at) == Grants(s, t', u', at)
  {
    GroupGrantTakesEffectExactlyWhen(s, t, g, r, id, now);
    var s1 := AssignGroupRole(s, t, g, r, id, now).0;
    GroupRevocationTakesEffectExactlyWhen(s1, t, g, r, later);
    var s2 := RemoveGroupRole(s1, t, g, r, later).0;
    hide AssignGroupRole, RemoveGroupRole, Grants, RaisesExactly;
    assert s1.groupRoles[id] == GroupRole(t, g, r, true);
    assert forall k :: k in s.groupRoles ==> s1.groupRoles[k] == s.groupRoles[k];
    assert OnlyInactiveAdded(s, s2);
    InactiveRowsGrantNothing(s, s2, t', u', at);
  }

  lemma PermissionRevocationUndoesGrant(
    s: Tables, t: TenantId, r: RoleId, p: string, now: Time, later: Time, t': TenantId, u': UserId, at: Time)
    requires AddRolePermission(s, t, r, p, now).1 == Answer(true)
    ensures var s1 := AddRolePermission(s, t, r, p, now).0;
            var (s2, a) := RemoveRolePermission(s1, t, r, p, later);
            a == Answer(true) && Grants(s2, t', u', at) == Grants(s, t', u', at)
  {
    PermissionGrantTakesEffectExactlyWhen(s, t, r, p, now);
    var s1 := AddRolePermission(s, t, r, p, now).0;
    PermissionRevocationTakesEffectExactlyWhen(s1, t, r, p, later);
    var s2 := RemoveRolePermission(s1, t, r, p, later).0;
    hide AddRolePermission, RemoveRolePermission, Grants, RaisesExactly;
    assert s2.rolePermissions == s.rolePermissions;
    assert OnlyInactiveAdded(s, s2);
    InactiveRowsGrantNothing(s, s2, t', u', at);
  }
}
