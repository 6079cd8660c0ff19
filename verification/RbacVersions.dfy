/**
 The authorization version as a cache stamp: a call that changes what an ACTIVE user is granted
 raises exactly that user's version for that tenant, by one.

 The affected-user queries are written apart from the runtime permission query and only see USERs
 that are ACTIVE; the theorems below say that they nevertheless miss nobody.
 */
module RbacVersions {
  import opened Options
  import opened Rbac

  datatype Call =
    | GroupCreate(t: TenantId, g: GroupId, key: string, caption: Caption)
    | GroupUpdate(t: TenantId, g: GroupId, edit: Edit)
    | MemberAdd(t: TenantId, g: GroupId, u: UserId, id: Id)
    | MemberRemove(t: TenantId, g: GroupId, u: UserId)
    | GroupRoleAssign(t: TenantId, g: GroupId, r: RoleId, id: Id)
    | GroupRoleRemove(t: TenantId, g: GroupId, r: RoleId)
    | RoleCreate(t: TenantId, r: RoleId, key: string, caption: Caption, permissions: seq<string>)
    | RoleUpdate(t: TenantId, r: RoleId, edit: Edit)
    | PermissionAdd(t: TenantId, r: RoleId, p: string)
    | PermissionRemove(t: TenantId, r: RoleId, p: string)
    | UserRoleAssign(t: TenantId, u: UserId, r: RoleId, actor: UserId, id: Id)
    | UserRoleRequestOrAssign(t: TenantId, u: UserId, r: RoleId, actor: UserId, id: Id)
    | UserRoleRemove(t: TenantId, u: UserId, r: RoleId)
    | RequestApprove(t: TenantId, q: Id, approver: UserId, id: Id)
    | RequestReject(t: TenantId, q: Id, approver: UserId)

  function Apply(s: Tables, c: Call, now: Time): (Tables, Outcome) {
    match c
    case GroupCreate(t, g, key, caption) => CreateGroup(s, t, g, key, caption)
    case GroupUpdate(t, g, edit) => UpdateGroup(s, t, g, edit, now)
    case MemberAdd(t, g, u, id) => AddGroupMember(s, t, g, u, id, now)
    case MemberRemove(t, g, u) => RemoveGroupMember(s, t, g, u)
    case GroupRoleAssign(t, g, r, id) => AssignGroupRole(s, t, g, r, id, now)
    case GroupRoleRemove(t, g, r) => RemoveGroupRole(s, t, g, r, now)
    case RoleCreate(t, r, key, caption, permissions) => CreateRole(s, t, r, key, caption, permissions)
    case RoleUpdate(t, r, edit) => UpdateRole(s, t, r, edit, now)
    case PermissionAdd(t, r, p) => AddRolePermission(s, t, r, p, now)
    case PermissionRemove(t, r, p) => RemoveRolePermission(s, t, r, p, now)
    case UserRoleAssign(t, u, r, actor, id) => AssignUserRole(s, t, u, r, actor, id, now)
    case UserRoleRequestOrAssign(t, u, r, actor, id) => RequestOrAssign(s, t, u, r, actor, id, now)
    case UserRoleRemove(t, u, r) => RemoveUserRole(s, t, u, r, now)
    case RequestApprove(t, q, approver, id) => ApproveRequest(s, t, q, approver, id, now)
    case RequestReject(t, q, approver) => RejectRequest(s, t, q, approver)
  }

  /** Whose version the call may raise. */
  function Affected(s: Tables, c: Call, now: Time): set<UserId> {
    match c
    case GroupUpdate(t, g, _) => GroupUsers(s, t, g, now)
    case MemberAdd(_, _, u, _) => {u}
    case MemberRemove(_, _, u) => {u}
    case GroupRoleAssign(t, g, _, _) => GroupUsers(s, t, g, now)
    case GroupRoleRemove(t, g, _) => GroupUsers(s, t, g, now)
    case RoleUpdate(t, r, _) => RoleUsers(s, t, r, now)
    case PermissionAdd(t, r, _) => RoleUsers(s, t, r, now)
    case PermissionRemove(t, r, _) => RoleUsers(s, t, r, now)
    case UserRoleAssign(_, u, _, _, _) => {u}
    case UserRoleRequestOrAssign(_, u, _, _, _) => {u}
    case UserRoleRemove(_, u, _) => {u}
    case RequestApprove(_, q, _, _) => if q in s.requests then {s.requests[q].subject} else {}
    case _ => {}
  }

  // ---------------------------------------------------------------------------------------------
  // Frames: calls that leave a user's grants alone
  // ---------------------------------------------------------------------------------------------

  /** Grants depend only on which permission-carrying roles the user has. */
  lemma SameGrants(s: Tables, s': Tables, t: TenantId, u: UserId, now: Time)
    requires s'.permissions == s.permissions && s'.platformGrants == s.platformGrants
    requires forall g: RolePermission :: g.0 == t ==>
               ((g in s.rolePermissions && HasRole(s, t, u, g.1, now)) <==>
                   (g in s'.rolePermissions && HasRole(s', t, u, g.1, now)))
    requires forall r :: (t, r) in s.roles && (t, r) in s'.roles ==> s'.roles[(t, r)].key == s.roles[(t, r)].key
    ensures Grants(s', t, u, now) == Grants(s, t, u, now)
  {
    assert TenantGrants(s', t, u, now) == TenantGrants(s, t, u, now) by {
      forall k, p | (k, p) in TenantGrants(s, t, u, now) ensures (k, p) in TenantGrants(s', t, u, now) {
        var g :| g in s.rolePermissions && g.0 == t && HasRole(s, t, u, g.1, now) && PermissionIsActive(s, g.2)
                 && (s.roles[(t, g.1)].key, g.2) == (k, p);
        assert g in s'.rolePermissions;
      }
      forall k, p | (k, p) in TenantGrants(s', t, u, now) ensures (k, p) in TenantGrants(s, t, u, now) {
        var g :| g in s'.rolePermissions && g.0 == t && HasRole(s', t, u, g.1, now) && PermissionIsActive(s', g.2)
                 && (s'.roles[(t, g.1)].key, g.2) == (k, p);
        assert g in s.rolePermissions;
      }
    }
  }

  /** A role reaches an ACTIVE user only if the role query lists the user. */
  lemma RoleUsersComplete(s: Tables, t: TenantId, u: UserId, r: RoleId, now: Time)
    requires UserActive(s, u) && (HasDirect(s, t, u, r, now) || HasThroughGroup(s, t, u, r, now))
    ensures u in RoleUsers(s, t, r, now)
  {
    if a :| a in s.userRoles && Assigns(s.userRoles[a], t, u, r, now) {
      assert s.userRoles[a].user == u;
    } else {
      var m, a :| m in s.groupMembers && a in s.groupRoles
        && Joins(s.groupMembers[m], t, u, s.groupMembers[m].group, now)
        && GroupActive(s, t, s.groupMembers[m].group)
        && Confers(s.groupRoles[a], t, s.groupMembers[m].group, r);
      assert s.groupMembers[m].user == u;
    }
  }

  lemma GroupUsersComplete(s: Tables, t: TenantId, u: UserId, m: Id, now: Time)
    requires UserActive(s, u) && m in s.groupMembers && Joins(s.groupMembers[m], t, u, s.groupMembers[m].group, now)
    ensures u in GroupUsers(s, t, s.groupMembers[m].group, now)
  {
    assert s.groupMembers[m].user == u;
  }

  /** Names and descriptions grant nothing. */
  lemma CaptionFrame(s: Tables, s': Tables, t: TenantId, u: UserId, now: Time)
    requires s' == s.(groups := s'.groups, roles := s'.roles)
    requires s'.groups.Keys == s.groups.Keys && s'.roles.Keys == s.roles.Keys
    requires forall k :: k in s.groups ==> s'.groups[k].active == s.groups[k].active
    requires forall k :: k in s.roles ==> s'.roles[k].active == s.roles[k].active && s'.roles[k].key == s.roles[k].key
    ensures Grants(s', t, u, now) == Grants(s, t, u, now)
  {
    forall r ensures HasRole(s', t, u, r, now) <==> HasRole(s, t, u, r, now) {
      assert HasDirect(s', t, u, r, now) <==> HasDirect(s, t, u, r, now);
      assert HasThroughGroup(s', t, u, r, now) <==> HasThroughGroup(s, t, u, r, now);
    }
    SameGrants(s, s', t, u, now);
  }

  /** Switching a role on or off touches only the users it reaches. */
  lemma RoleUpdateFrame(s: Tables, s': Tables, t0: TenantId, r0: RoleId, t: TenantId, u: UserId, now: Time)
    requires (t0, r0) in s.roles && UserActive(s, u)
    requires s'.roles.Keys == s.roles.Keys && (forall k :: k in s.roles ==> s'.roles[k].key == s.roles[k].key)
    requires forall k :: k in s.roles && k != (t0, r0) ==> s'.roles[k] == s.roles[k]
    requires s' == s.(roles := s'.roles, versions := s'.versions)
    requires t == t0 ==> u !in RoleUsers(s, t0, r0, now)
    ensures Grants(s', t, u, now) == Grants(s, t, u, now)
  {
    forall r ensures HasRole(s', t, u, r, now) <==> HasRole(s, t, u, r, now) {
      if t == t0 && r == r0 && (HasDirect(s, t, u, r, now) || HasThroughGroup(s, t, u, r, now)) {
        RoleUsersComplete(s, t, u, r, now);
      }
      assert HasDirect(s', t, u, r, now) <==> HasDirect(s, t, u, r, now);
      assert HasThroughGroup(s', t, u, r, now) <==> HasThroughGroup(s, t, u, r, now);
    }
    SameGrants(s, s', t, u, now);
  }

  /** Giving a role a permission, or taking it away, touches only the users the role reaches. */
  lemma PermissionFrame(s: Tables, s': Tables, t0: TenantId, r0: RoleId, p: string, t: TenantId, u: UserId, now: Time)
    requires UserActive(s, u)
    requires s' == s.(rolePermissions := s'.rolePermissions, versions := s'.versions)
    requires forall g :: g != (t0, r0, p) ==> (g in s'.rolePermissions <==> g in s.rolePermissions)
    requires t == t0 ==> u !in RoleUsers(s, t0, r0, now)
    ensures Grants(s', t, u, now) == Grants(s, t, u, now)
  {
    forall r ensures HasRole(s', t, u, r, now) <==> HasRole(s, t, u, r, now) {
      assert HasDirect(s', t, u, r, now) <==> HasDirect(s, t, u, r, now);
      assert HasThroughGroup(s', t, u, r, now) <==> HasThroughGroup(s, t, u, r, now);
    }
    if t == t0 && HasRole(s, t, u, r0, now) {
      RoleUsersComplete(s, t, u, r0, now);
    }
    SameGrants(s, s', t, u, now);
  }

  /** Changes to one group's status or roles touch only its members. */
  lemma GroupFrame(s: Tables, s': Tables, t0: TenantId, g0: GroupId, t: TenantId, u: UserId, now: Time)
    requires UserActive(s, u)
    requires s' == s.(groups := s'.groups, groupRoles := s'.groupRoles, versions := s'.versions)
    requires forall k :: k != (t0, g0) ==> (k in s'.groups <==> k in s.groups)
    requires forall k :: k != (t0, g0) && k in s.groups ==> s'.groups[k] == s.groups[k]
    requires forall a :: a in s.groupRoles && (s.groupRoles[a].tenant, s.groupRoles[a].group) != (t0, g0) ==>
               a in s'.groupRoles && s'.groupRoles[a] == s.groupRoles[a]
    requires forall a :: a in s'.groupRoles && (s'.groupRoles[a].tenant, s'.groupRoles[a].group) != (t0, g0) ==>
               a in s.groupRoles && s'.groupRoles[a] == s.groupRoles[a]
    requires t == t0 ==> u !in GroupUsers(s, t0, g0, now)
    ensures Grants(s', t, u, now) == Grants(s, t, u, now)
  {
    forall m | m in s.groupMembers && Joins(s.groupMembers[m], t, u, s.groupMembers[m].group, now)
      ensures (t, s.groupMembers[m].group) != (t0, g0)
    {
      GroupUsersComplete(s, t, u, m, now);
    }
    forall r ensures HasRole(s', t, u, r, now) <==> HasRole(s, t, u, r, now) {
      assert HasDirect(s', t, u, r, now) <==> HasDirect(s, t, u, r, now);
      assert HasThroughGroup(s', t, u, r, now) <==> HasThroughGroup(s, t, u, r, now);
    }
    SameGrants(s, s', t, u, now);
  }

  /** Changes to one user's rows in one tenant touch nobody else, and that user nowhere else. */
  lemma UserFrame(s: Tables, s': Tables, t0: TenantId, u0: UserId, t: TenantId, u: UserId, now: Time)
    requires (t, u) != (t0, u0)
    requires s' == s.(userRoles := s'.userRoles, groupMembers := s'.groupMembers, versions := s'.versions,
               requests := s'.requests)
    requires forall a :: a in s.userRoles && (s.userRoles[a].tenant, s.userRoles[a].user) != (t0, u0) ==>
               a in s'.userRoles && s'.userRoles[a] == s.userRoles[a]
    requires forall a :: a in s'.userRoles && (s'.userRoles[a].tenant, s'.userRoles[a].user) != (t0, u0) ==>
               a in s.userRoles && s'.userRoles[a] == s.userRoles[a]
    requires forall a :: a in s.groupMembers && (s.groupMembers[a].tenant, s.groupMembers[a].user) != (t0, u0) ==>
               a in s'.groupMembers && s'.groupMembers[a] == s.groupMembers[a]
    requires forall a :: a in s'.groupMembers && (s'.groupMembers[a].tenant, s'.groupMembers[a].user) != (t0, u0) ==>
               a in s.groupMembers && s'.groupMembers[a] == s.groupMembers[a]
    ensures Grants(s', t, u, now) == Grants(s, t, u, now)
  {
    forall r ensures HasRole(s', t, u, r, now) <==> HasRole(s, t, u, r, now) {
      assert HasDirect(s', t, u, r, now) <==> HasDirect(s, t, u, r, now);
      assert HasThroughGroup(s', t, u, r, now) <==> HasThroughGroup(s, t, u, r, now);
    }
    SameGrants(s, s', t, u, now);
  }

  /** New roles, groups and requests reach nobody yet. */
  lemma CreationFrame(s: Tables, s': Tables, t0: TenantId, r0: RoleId, t: TenantId, u: UserId, now: Time)
    requires ReferencesOk(s)
    requires s' == s.(roles := s'.roles, rolePermissions := s'.rolePermissions, groups := s'.groups,
               requests := s'.requests)
    requires forall k :: k in s.roles ==> k in s'.roles && s'.roles[k] == s.roles[k]
    requires forall k :: k in s'.roles && k !in s.roles ==> k == (t0, r0)
    requires (t0, r0) in s.roles ==> s'.rolePermissions == s.rolePermissions
    requires forall g: RolePermission :: (g.0, g.1) != (t0, r0) ==>
               (g in s'.rolePermissions <==> g in s.rolePermissions)
    requires forall k :: k in s.groups ==> k in s'.groups && s'.groups[k] == s.groups[k]
    ensures Grants(s', t, u, now) == Grants(s, t, u, now)
  {
    forall r ensures HasRole(s', t, u, r, now) <==> HasRole(s, t, u, r, now) {
      assert HasDirect(s', t, u, r, now) <==> HasDirect(s, t, u, r, now);
      assert HasThroughGroup(s', t, u, r, now) <==> HasThroughGroup(s, t, u, r, now);
    }
    SameGrants(s, s', t, u, now);
  }

  // ---------------------------------------------------------------------------------------------
  // Each call stamps every change
  // ---------------------------------------------------------------------------------------------

  /**
   How a call may leave user u in tenant t: the version rises by one or stays, rises only for users
   in the affected set, and rises for certain when the grants of an ACTIVE user changed.
   */
  ghost predicate Stamped(s: Tables, s': Tables, t0: TenantId, affected: set<UserId>, t: TenantId, u: UserId, now: Time)
  {
    && (Version(s', u, t) == Version(s, u, t) || Version(s', u, t) == Version(s, u, t) + 1)
    && (Version(s', u, t) != Version(s, u, t) ==> t == t0 && u in affected)
    && (UserActive(s, u) && Grants(s', t, u, now) != Grants(s, t, u, now) ==> Version(s', u, t) == Version(s, u, t) + 1)
  }

  /** An update rewrites one group; only a change of status bumps, and then every member found before it. */
  lemma GroupUpdateChanges(s: Tables, t0: TenantId, g: GroupId, e: Edit, now: Time)
    ensures var s' := UpdateGroup(s, t0, g, e, now).0;
            || s' == s
            || ((t0, g) in s.groups && (t0, g) in s'.groups && s'.groups == s.groups[(t0, g) := s'.groups[(t0, g)]]
                && s' == s.(groups := s'.groups,
                            versions := if s'.groups[(t0, g)].active == s.groups[(t0, g)].active then s.versions
                                        else Bump(s.versions, t0, GroupUsers(s, t0, g, now))))
  {
    hide Bump, ReferencesOk, GroupUsers, EditedGroup;
    if (t0, g) in s.groups {
      var row := EditedGroup(s.groups[(t0, g)], e);
      var s1 := WithGroup(s, (t0, g), row);
      assert s1.groups[(t0, g)] == row && s1 == s.(groups := s.groups[(t0, g) := row]);
      hide WithGroup;
    }
  }

  lemma GroupUpdateStamped(s: Tables, t0: TenantId, g: GroupId, e: Edit, now: Time, t: TenantId, u: UserId)
    ensures Stamped(s, UpdateGroup(s, t0, g, e, now).0, t0, GroupUsers(s, t0, g, now), t, u, now)
  {
    GroupUpdateChanges(s, t0, g, e, now);
    hide Grants, GroupUsers, UpdateGroup;
    var s' := UpdateGroup(s, t0, g, e, now).0;
    if s' != s && UserActive(s, u) {
      if s'.groups[(t0, g)].active == s.groups[(t0, g)].active {
        CaptionFrame(s, s', t, u, now);
      } else if !(t == t0 && u in GroupUsers(s, t0, g, now)) {
        GroupFrame(s, s', t0, g, t, u, now);
      }
    }
  }

  /** Giving a group a role adds one row and bumps the members. */
  lemma GroupRoleAssignChanges(s: Tables, t0: TenantId, g: GroupId, r: RoleId, id: Id, now: Time)
    ensures var (s', answer) := AssignGroupRole(s, t0, g, r, id, now);
            || (answer != Answer(true) && s' == s)
            || (answer == Answer(true) && id !in s.groupRoles
                && s' == s.(groupRoles := s.groupRoles[id := GroupRole(t0, g, r, true)],
                            versions := Bump(s.versions, t0, GroupUsers(s, t0, g, now))))
  {
    var s' := s.(groupRoles := s.groupRoles[id := GroupRole(t0, g, r, true)]);
    assert GroupUsers(s', t0, g, now) == GroupUsers(s, t0, g, now);
    hide Bump, ReferencesOk, GroupUsers, RoleActive, GroupActive;
  }

  lemma GroupRoleAssignStamped(s: Tables, t0: TenantId, g: GroupId, r: RoleId, id: Id, now: Time, t: TenantId,
      u: UserId)
    ensures Stamped(s, AssignGroupRole(s, t0, g, r, id, now).0, t0, GroupUsers(s, t0, g, now), t, u, now)
  {
    GroupRoleAssignChanges(s, t0, g, r, id, now);
    hide AssignGroupRole, Grants, GroupUsers;
    var s' := AssignGroupRole(s, t0, g, r, id, now).0;
    if s' != s && UserActive(s, u) && !(t == t0 && u in GroupUsers(s, t0, g, now)) {
      GroupFrame(s, s', t0, g, t, u, now);
    }
  }

  lemma GroupRoleRemoveStamped(s: Tables, t0: TenantId, g: GroupId, r: RoleId, now: Time, t: TenantId, u: UserId)
    ensures Stamped(s, RemoveGroupRole(s, t0, g, r, now).0, t0, GroupUsers(s, t0, g, now), t, u, now)
  {
    var s' := RemoveGroupRole(s, t0, g, r, now).0;
    if s' != s && UserActive(s, u) && !(t == t0 && u in GroupUsers(s, t0, g, now)) {
      GroupFrame(s, s', t0, g, t, u, now);
    }
  }

  lemma MemberAddStamped(s: Tables, t0: TenantId, g: GroupId, u0: UserId, id: Id, now: Time, t: TenantId, u: UserId)
    ensures Stamped(s, AddGroupMember(s, t0, g, u0, id, now).0, t0, {u0}, t, u, now)
  {
    var s' := AddGroupMember(s, t0, g, u0, id, now).0;
    if s' != s && (t, u) != (t0, u0) {
      UserFrame(s, s', t0, u0, t, u, now);
    }
  }

  lemma MemberRemoveStamped(s: Tables, t0: TenantId, g: GroupId, u0: UserId, now: Time, t: TenantId, u: UserId)
    ensures Stamped(s, RemoveGroupMember(s, t0, g, u0).0, t0, {u0}, t, u, now)
  {
    var s' := RemoveGroupMember(s, t0, g, u0).0;
    if s' != s && (t, u) != (t0, u0) {
      UserFrame(s, s', t0, u0, t, u, now);
    }
  }

  /** An update rewrites one role but its key; only a change of status bumps, and then every user found before it. */
  lemma RoleUpdateChanges(s: Tables, t0: TenantId, r: RoleId, e: Edit, now: Time)
    ensures var s' := UpdateRole(s, t0, r, e, now).0;
            || s' == s
            || ((t0, r) in s.roles && (t0, r) in s'.roles && s'.roles == s.roles[(t0, r) := s'.roles[(t0, r)]]
                && s'.roles[(t0, r)].key == s.roles[(t0, r)].key
                && s' == s.(roles := s'.roles,
                            versions := if s'.roles[(t0, r)].active == s.roles[(t0, r)].active then s.versions
                                        else Bump(s.versions, t0, RoleUsers(s, t0, r, now))))
  {
    hide Bump, ReferencesOk, RoleUsers, EditedRole;
    if (t0, r) in s.roles {
      var row := EditedRole(s.roles[(t0, r)], e);
      var s1 := WithRole(s, (t0, r), row);
      assert s1.roles[(t0, r)] == row && s1 == s.(roles := s.roles[(t0, r) := row]);
      hide WithRole;
    }
  }

  lemma RoleUpdateStamped(s: Tables, t0: TenantId, r: RoleId, e: Edit, now: Time, t: TenantId, u: UserId)
    ensures Stamped(s, UpdateRole(s, t0, r, e, now).0, t0, RoleUsers(s, t0, r, now), t, u, now)
  {
    RoleUpdateChanges(s, t0, r, e, now);
    hide Grants, RoleUsers, UpdateRole;
    var s' := UpdateRole(s, t0, r, e, now).0;
    if s' != s && UserActive(s, u) {
      if s'.roles[(t0, r)].active == s.roles[(t0, r)].active {
        CaptionFrame(s, s', t, u, now);
      } else if !(t == t0 && u in RoleUsers(s, t0, r, now)) {
        RoleUpdateFrame(s, s', t0, r, t, u, now);
      }
    }
  }

  lemma PermissionAddChanges(s: Tables, t0: TenantId, r: RoleId, p: string, now: Time)
    ensures var s' := AddRolePermission(s, t0, r, p, now).0;
            || s' == s
            || s' == s.(rolePermissions := s.rolePermissions + {(t0, r, p)},
                        versions := Bump(s.versions, t0, RoleUsers(s, t0, r, now)))
  {
    var s' := s.(rolePermissions := s.rolePermissions + {(t0, r, p)});
    RoleUsersIgnorePermissions(s, s'.rolePermissions, t0, r, now);
    hide Bump, ReferencesOk, RoleUsers, RoleActive, PermissionIsActive;
  }

  lemma RoleUsersIgnorePermissions(s: Tables, permissions: set<RolePermission>, t0: TenantId, r: RoleId, now: Time)
    ensures RoleUsers(s.(rolePermissions := permissions), t0, r, now) == RoleUsers(s, t0, r, now)
  {}

  lemma PermissionAddStamped(s: Tables, t0: TenantId, r: RoleId, p: string, now: Time, t: TenantId, u: UserId)
    ensures Stamped(s, AddRolePermission(s, t0, r, p, now).0, t0, RoleUsers(s, t0, r, now), t, u, now)
  {
    PermissionAddChanges(s, t0, r, p, now);
    hide Grants, AddRolePermission, RoleUsers;
    var s' := AddRolePermission(s, t0, r, p, now).0;
    if s' != s && UserActive(s, u) && !(t == t0 && u in RoleUsers(s, t0, r, now)) {
      PermissionFrame(s, s', t0, r, p, t, u, now);
    }
  }

  lemma PermissionRemoveStamped(s: Tables, t0: TenantId, r: RoleId, p: string, now: Time, t: TenantId, u: UserId)
    ensures Stamped(s, RemoveRolePermission(s, t0, r, p, now).0, t0, RoleUsers(s, t0, r, now), t, u, now)
  {
    var s' := RemoveRolePermission(s, t0, r, p, now).0;
    if s' != s && UserActive(s, u) && !(t == t0 && u in RoleUsers(s, t0, r, now)) {
      PermissionFrame(s, s', t0, r, p, t, u, now);
    }
  }

  /** A direct assignment adds one row and bumps its user. */
  lemma InsertChanges(s: Tables, t0: TenantId, u0: UserId, r: RoleId, actor: UserId, id: Id, now: Time)
    ensures var (s', answer) := InsertUserRole(s, t0, u0, r, actor, id, now);
            || (answer != Answer(true) && s' == s)
            || (answer == Answer(true) && id !in s.userRoles && RoleActive(s, t0, r)
                && s' == s.(userRoles := s.userRoles[id := UserRole(t0, u0, r, true, Validity(Some(now), None), actor)],
                            versions := Bump(s.versions, t0, {u0})))
  {
    hide Bump, ReferencesOk, RoleActive, UserActive, AlreadyAssigned;
  }

  lemma InsertUserRoleStamped(s: Tables, t0: TenantId, u0: UserId, r: RoleId, actor: UserId, id: Id, now: Time,
      t: TenantId, u: UserId)
    ensures Stamped(s, InsertUserRole(s, t0, u0, r, actor, id, now).0, t0, {u0}, t, u, now)
  {
    InsertChanges(s, t0, u0, r, actor, id, now);
    hide Grants, InsertUserRole, ReferencesOk;
    var s' := InsertUserRole(s, t0, u0, r, actor, id, now).0;
    if s' != s && (t, u) != (t0, u0) {
      UserFrame(s, s', t0, u0, t, u, now);
    }
  }

  lemma AssignUserRoleStamped(s: Tables, t0: TenantId, u0: UserId, r: RoleId, actor: UserId, id: Id, now: Time,
      t: TenantId, u: UserId)
    ensures Stamped(s, AssignUserRole(s, t0, u0, r, actor, id, now).0, t0, {u0}, t, u, now)
  {
    AssignChanges(s, t0, u0, r, actor, id, now);
    InsertUserRoleStamped(s, t0, u0, r, actor, id, now, t, u);
    RequestsFrame(s, AssignUserRole(s, t0, u0, r, actor, id, now).0, t, u, now);
    hide Grants, AssignUserRole, InsertUserRole, ReferencesOk;
  }

  /** The gate either passes the assignment on or, for a privileged role, records a request. */
  lemma AssignChanges(s: Tables, t0: TenantId, u0: UserId, r: RoleId, actor: UserId, id: Id, now: Time)
    ensures var s' := AssignUserRole(s, t0, u0, r, actor, id, now).0;
            || s' == s
            || (!Privileged(s, t0, r) && s' == InsertUserRole(s, t0, u0, r, actor, id, now).0)
            || (id !in s.requests && s' == s.(requests := s.requests[id := Request(t0, u0, r, Pending, actor, None)]))
  {
    hide InsertUserRole, ReferencesOk, AlreadyAssigned, AlreadyRequested, UserActive;
  }

  lemma RequestOrAssignStamped(s: Tables, t0: TenantId, u0: UserId, r: RoleId, actor: UserId, id: Id, now: Time,
      t: TenantId, u: UserId)
    ensures Stamped(s, RequestOrAssign(s, t0, u0, r, actor, id, now).0, t0, {u0}, t, u, now)
  {
    AssignUserRoleStamped(s, t0, u0, r, actor, id, now, t, u);
    hide AssignUserRole, Grants;
  }

  /** Requests grant nothing. */
  lemma RequestsFrame(s: Tables, s': Tables, t: TenantId, u: UserId, now: Time)
    ensures s' == s.(requests := s'.requests) ==> Grants(s', t, u, now) == Grants(s, t, u, now)
  {
    if s' == s.(requests := s'.requests) {
      forall r ensures HasRole(s', t, u, r, now) <==> HasRole(s, t, u, r, now) {
        assert HasDirect(s', t, u, r, now) <==> HasDirect(s, t, u, r, now);
        assert HasThroughGroup(s', t, u, r, now) <==> HasThroughGroup(s, t, u, r, now);
      }
      SameGrants(s, s', t, u, now);
    }
  }

  lemma UserRoleRemoveStamped(s: Tables, t0: TenantId, u0: UserId, r: RoleId, now: Time, t: TenantId, u: UserId)
    ensures Stamped(s, RemoveUserRole(s, t0, u0, r, now).0, t0, {u0}, t, u, now)
  {
    var s' := RemoveUserRole(s, t0, u0, r, now).0;
    if s' != s && (t, u) != (t0, u0) {
      UserFrame(s, s', t0, u0, t, u, now);
    }
  }

  /** An approval adds at most one assignment of the subject, and then bumps the subject. */
  lemma ApproveChanges(s: Tables, t0: TenantId, q: Id, approver: UserId, id: Id, now: Time)
    requires q in s.requests
    ensures var s' := ApproveRequest(s, t0, q, approver, id, now).0;
            || s' == s.(requests := s'.requests)
            || (s' == s.(userRoles := s'.userRoles, requests := s'.requests,
                 versions := Bump(s.versions, t0, {s.requests[q].subject}))
                && id !in s.userRoles && id in s'.userRoles && s'.userRoles == s.userRoles[id := s'.userRoles[id]]
                && s'.userRoles[id].tenant == t0 && s'.userRoles[id].user == s.requests[q].subject)
  {
    hide Bump, ReferencesOk, UserActive, RoleActive, AlreadyAssigned, Decidable;
  }

  lemma RequestApproveStamped(s: Tables, t0: TenantId, q: Id, approver: UserId, id: Id, now: Time, t: TenantId,
      u: UserId)
    requires q in s.requests
    ensures Stamped(s, ApproveRequest(s, t0, q, approver, id, now).0, t0, {s.requests[q].subject}, t, u, now)
  {
    ApproveChanges(s, t0, q, approver, id, now);
    var s' := ApproveRequest(s, t0, q, approver, id, now).0;
    hide Grants, ApproveRequest, ReferencesOk;
    if s' == s.(requests := s'.requests) {
      RequestsFrame(s, s', t, u, now);
    } else if (t, u) != (t0, s.requests[q].subject) {
      UserFrame(s, s', t0, s.requests[q].subject, t, u, now);
    }
  }

  lemma UnknownRequestStamped(s: Tables, t0: TenantId, q: Id, approver: UserId, id: Id, now: Time, t: TenantId,
      u: UserId)
    requires q !in s.requests
    ensures Stamped(s, ApproveRequest(s, t0, q, approver, id, now).0, t0, {}, t, u, now)
  {
    hide Grants;
  }

  lemma GroupCreateStamped(s: Tables, t0: TenantId, g: GroupId, key: string, caption: Caption, now: Time, t: TenantId,
      u: UserId)
    requires ReferencesOk(s)
    ensures Stamped(s, CreateGroup(s, t0, g, key, caption).0, t0, {}, t, u, now)
  {
    CreationFrame(s, CreateGroup(s, t0, g, key, caption).0, t0, 0, t, u, now);
  }

  lemma RoleCreateStamped(s: Tables, t0: TenantId, r: RoleId, key: string, caption: Caption, permissions: seq<string>,
      now: Time, t: TenantId, u: UserId)
    requires ReferencesOk(s)
    ensures Stamped(s, CreateRole(s, t0, r, key, caption, permissions).0, t0, {}, t, u, now)
  {
    var s' := CreateRole(s, t0, r, key, caption, permissions).0;
    if s' != s {
      CreationFrame(s, s', t0, r, t, u, now);
    }
  }

  lemma RequestRejectStamped(s: Tables, t0: TenantId, q: Id, approver: UserId, now: Time, t: TenantId, u: UserId)
    ensures Stamped(s, RejectRequest(s, t0, q, approver).0, t0, {}, t, u, now)
  {
    RequestsFrame(s, RejectRequest(s, t0, q, approver).0, t, u, now);
  }

  // ---------------------------------------------------------------------------------------------
  // The theorems
  // ---------------------------------------------------------------------------------------------

  predicate IsGroupCall(c: Call) {
    c.GroupCreate? || c.GroupUpdate? || c.MemberAdd? || c.MemberRemove? || c.GroupRoleAssign? || c.GroupRoleRemove?
  }

  predicate IsRoleCall(c: Call) {
    c.RoleCreate? || c.RoleUpdate? || c.PermissionAdd? || c.PermissionRemove?
  }

  ghost predicate CallStamped(s: Tables, c: Call, now: Time, t: TenantId, u: UserId) {
    Stamped(s, Apply(s, c, now).0, c.t, Affected(s, c, now), t, u, now)
  }

  lemma GroupCallIsStamped(s: Tables, c: Call, now: Time, t: TenantId, u: UserId)
    requires ReferencesOk(s) && IsGroupCall(c)
    ensures CallStamped(s, c, now, t, u)
  {
    hide Stamped, ReferencesOk, GroupUsers, CreateGroup, UpdateGroup, AddGroupMember, RemoveGroupMember,
        AssignGroupRole, RemoveGroupRole;
    match c
    case GroupCreate(t0, g, key, caption) => GroupCreateStamped(s, t0, g, key, caption, now, t, u);
    case GroupUpdate(t0, g, edit) => GroupUpdateStamped(s, t0, g, edit, now, t, u);
    case MemberAdd(t0, g, u0, id) => MemberAddStamped(s, t0, g, u0, id, now, t, u);
    case MemberRemove(t0, g, u0) => MemberRemoveStamped(s, t0, g, u0, now, t, u);
    case GroupRoleAssign(t0, g, r, id) => GroupRoleAssignStamped(s, t0, g, r, id, now, t, u);
    case GroupRoleRemove(t0, g, r) => GroupRoleRemoveStamped(s, t0, g, r, now, t, u);
  }

  lemma RoleCallIsStamped(s: Tables, c: Call, now: Time, t: TenantId, u: UserId)
    requires ReferencesOk(s) && IsRoleCall(c)
    ensures CallStamped(s, c, now, t, u)
  {
    hide Stamped, ReferencesOk, RoleUsers, CreateRole, UpdateRole, AddRolePermission, RemoveRolePermission;
    match c
    case RoleCreate(t0, r, key, caption, permissions) => RoleCreateStamped(s, t0, r, key, caption, permissions, now,
        t, u);
    case RoleUpdate(t0, r, edit) => RoleUpdateStamped(s, t0, r, edit, now, t, u);
    case PermissionAdd(t0, r, p) => PermissionAddStamped(s, t0, r, p, now, t, u);
    case PermissionRemove(t0, r, p) => PermissionRemoveStamped(s, t0, r, p, now, t, u);
  }

  lemma UserCallIsStamped(s: Tables, c: Call, now: Time, t: TenantId, u: UserId)
    requires !IsGroupCall(c) && !IsRoleCall(c)
    ensures CallStamped(s, c, now, t, u)
  {
    hide Stamped, RequestOrAssign, AssignUserRole, RemoveUserRole, ApproveRequest, RejectRequest;
    match c
    case UserRoleAssign(t0, u0, r, actor, id) => AssignUserRoleStamped(s, t0, u0, r, actor, id, now, t, u);
    case UserRoleRequestOrAssign(t0, u0, r, actor, id) => RequestOrAssignStamped(s, t0, u0, r, actor, id, now, t, u);
    case UserRoleRemove(t0, u0, r) => UserRoleRemoveStamped(s, t0, u0, r, now, t, u);
    case RequestApprove(t0, q, approver, id) =>
      if q in s.requests {
        RequestApproveStamped(s, t0, q, approver, id, now, t, u);
      } else {
        UnknownRequestStamped(s, t0, q, approver, id, now, t, u);
      }
    case RequestReject(t0, q, approver) => RequestRejectStamped(s, t0, q, approver, now, t, u);
  }

  /** Every administrative call, at its own clock reading, stamps every change it makes, and nothing else. */
  lemma EveryCallIsStamped(s: Tables, c: Call, now: Time, t: TenantId, u: UserId)
    requires ReferencesOk(s)
    ensures Stamped(s, Apply(s, c, now).0, c.t, Affected(s, c, now), t, u, now)
  {
    hide Stamped, ReferencesOk, Apply, Affected;
    if IsGroupCall(c) {
      GroupCallIsStamped(s, c, now, t, u);
    } else if IsRoleCall(c) {
      RoleCallIsStamped(s, c, now, t, u);
    } else {
      UserCallIsStamped(s, c, now, t, u);
    }
  }

  /** The foreign keys hold after every call, so the theorem above applies to any sequence of calls. */
  lemma CallsKeepReferences(s: Tables, c: Call, now: Time)
    requires ReferencesOk(s)
    ensures ReferencesOk(Apply(s, c, now).0) && Apply(s, c, now).0.users == s.users
    ensures Apply(s, c, now).1.Failed? ==> Apply(s, c, now).0 == s
  {
    hide ReferencesOk, CreateGroup, UpdateGroup, AddGroupMember, RemoveGroupMember, AssignGroupRole, RemoveGroupRole;
    hide CreateRole, UpdateRole, AddRolePermission, RemoveRolePermission;
    hide RequestOrAssign, AssignUserRole, RemoveUserRole, ApproveRequest, RejectRequest;
  }

  /** The tables after a sequence of calls, each with its own clock reading. */
  function Run(s: Tables, calls: seq<(Call, Time)>): Tables {
    if calls == [] then s
    else
      var last := |calls| - 1;
      Apply(Run(s, calls[..last]), calls[last].0, calls[last].1).0
  }

  lemma LastCall(s: Tables, calls: seq<(Call, Time)>, t: TenantId, u: UserId)
    requires calls != [] && ReferencesOk(Run(s, calls[..|calls| - 1]))
    ensures var (s1, s2) := (Run(s, calls[..|calls| - 1]), Run(s, calls));
            && ReferencesOk(s2) && s2.users == s1.users
            && Version(s1, u, t) <= Version(s2, u, t)
            && (UserActive(s1, u) && Version(s1, u, t) == Version(s2, u, t) ==>
                  Grants(s2, t, u, calls[|calls| - 1].1) == Grants(s1, t, u, calls[|calls| - 1].1))
  {
    var s1, last := Run(s, calls[..|calls| - 1]), calls[|calls| - 1];
    EveryCallIsStamped(s1, last.0, last.1, t, u);
    CallsKeepReferences(s1, last.0, last.1);
  }

  /** Over any run versions never fall. */
  lemma {:induction false} VersionsNeverFall(s: Tables, calls: seq<(Call, Time)>, t: TenantId, u: UserId)
    requires ReferencesOk(s)
    ensures ReferencesOk(Run(s, calls)) && Run(s, calls).users == s.users
    ensures Version(s, u, t) <= Version(Run(s, calls), u, t)
  {
    if calls != [] {
      VersionsNeverFall(s, calls[..|calls| - 1], t, u);
      LastCall(s, calls, t, u);
    }
  }

  /**
   Cache soundness: while an ACTIVE user's version in a tenant stands still over a run, no call of
   the run changed what the user is granted there.
   */
  lemma {:induction false} StillVersionMeansSameGrants(s: Tables, calls: seq<(Call, Time)>, k: nat, t: TenantId,
      u: UserId)
    requires ReferencesOk(s) && UserActive(s, u) && k < |calls|
    requires Version(Run(s, calls), u, t) == Version(s, u, t)
    ensures var (before, after) := (Run(s, calls[..k]), Run(s, calls[..k + 1]));
            && Grants(after, t, u, calls[k].1) == Grants(before, t, u, calls[k].1)
            && EffectiveRoles(after, t, u, calls[k].1) == EffectiveRoles(before, t, u, calls[k].1)
            && EffectivePermissions(after, t, u, calls[k].1) == EffectivePermissions(before, t, u, calls[k].1)
    decreases |calls|
  {
    hide Apply, Grants, ReferencesOk, VersionIn;
    var front := calls[..|calls| - 1];
    VersionsNeverFall(s, front, t, u);
    LastCall(s, calls, t, u);
    if k < |front| {
      assert front[..k] == calls[..k] && front[..k + 1] == calls[..k + 1];
      StillVersionMeansSameGrants(s, front, k, t, u);
    } else {
      assert calls[..k + 1] == calls;
    }
  }
}
