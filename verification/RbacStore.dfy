/**
 The tenant RBAC services as they run: one object per database session, whose calls update the
 tables in place.  Every call is tied to the specification function of the same name in `Rbac`,
 about which `RbacVersions` and `MakerChecker` prove what the services promise.
 */
module RbacStore {
  import opened Options
  import opened Rbac

  lemma SomeMember(users: set<UserId>)
    ensures users != {} ==> exists u :: u in users
  {
    if forall u :: u !in users {
      assert users == {};
    }
  }

  lemma BumpNext(v: Versions, t: TenantId, done: set<UserId>, u: UserId)
    requires u !in done
    ensures Bump(v, t, done + {u}) == Bump(v, t, done)[(u, t) := VersionIn(Bump(v, t, done), u, t) + 1]
  {
    var next := Bump(v, t, done)[(u, t) := VersionIn(Bump(v, t, done), u, t) + 1];
    assert (set w | w in done + {u} :: (w, t)) == (set w | w in done :: (w, t)) + {(u, t)};
    forall k | k in next ensures next[k] == Bump(v, t, done + {u})[k] {
      assert VersionIn(next, k.0, k.1) == next[k];
      assert VersionIn(Bump(v, t, done + {u}), k.0, k.1) == Bump(v, t, done + {u})[k];
    }
  }

  class Store {
    var users: map<UserId, User>
    var permissions: map<string, PermissionStatus>
    var roles: map<(TenantId, RoleId), Role>
    var rolePermissions: set<RolePermission>
    var userRoles: map<Id, UserRole>
    var groups: map<(TenantId, GroupId), Group>
    var groupMembers: map<Id, GroupMember>
    var groupRoles: map<Id, GroupRole>
    var platformGrants: set<(UserId, string, string)>
    var versions: Versions
    var requests: map<Id, Request>
    var privilegedKeys: set<string>

    function State(): Tables
      reads this
    {
      Tables(users, permissions, roles, rolePermissions, userRoles, groups, groupMembers, groupRoles,
             platformGrants, versions, requests, privilegedKeys)
    }

    /** One upsert per affected user: a missing row is inserted at version 2, a stored one goes up by one. */
    method BumpVersions(t: TenantId, affected: set<UserId>)
      modifies `versions
      ensures versions == Bump(old(versions), t, affected)
    {
      var todo := affected;
      assert Bump(versions, t, {}) == versions;
      while todo != {}
        invariant todo <= affected
        invariant versions == Bump(old(versions), t, affected - todo)
      {
        SomeMember(todo);
        var u :| u in todo;
        BumpNext(old(versions), t, affected - todo, u);
        assert affected - (todo - {u}) == (affected - todo) + {u};
        if (u, t) in versions {
          versions := versions[(u, t) := versions[(u, t)] + 1];
        } else {
          versions := versions[(u, t) := 2];
        }
        todo := todo - {u};
      }
      assert affected - todo == affected;
    }

    method CreateGroup(t: TenantId, g: GroupId, key: string, caption: Caption) returns (o: Outcome)
      modifies this
      ensures (State(), o) == Rbac.CreateGroup(old(State()), t, g, key, caption)
    {
      if (t, g) in groups || exists k :: k in groups && k.0 == t && groups[k].key == key {
        return Failed(IntegrityError);
      }
      groups := groups[(t, g) := Group(key, caption, true)];
      return Answer(true);
    }

    method UpdateGroup(t: TenantId, g: GroupId, e: Edit, now: Time) returns (o: Outcome)
      modifies this
      ensures (State(), o) == Rbac.UpdateGroup(old(State()), t, g, e, now)
    {
      if (t, g) !in groups {
        return Answer(false);
      }
      var affected := GroupUsers(State(), t, g, now);
      var current := groups[(t, g)];
      var name := if e.name.Some? then e.name.value else current.caption.name;
      var description := if e.description.Some? then e.description else current.caption.description;
      var active := if e.status.Some? then e.status.value else current.active;
      groups := groups[(t, g) := Group(current.key, Caption(name, description), active)];
      if current.active != active {
        BumpVersions(t, affected);
      }
      return Answer(true);
    }

    method AddGroupMember(t: TenantId, g: GroupId, u: UserId, id: Id, now: Time) returns (o: Outcome)
      modifies this
      ensures (State(), o) == Rbac.AddGroupMember(old(State()), t, g, u, id, now)
    {
      hide ReferencesOk, Bump, GroupActive, UserActive, MemberRow;
      if !GroupActive(State(), t, g) {
        return Failed(GroupNotActive);
      }
      if !UserActive(State(), u) {
        return Failed(UserNotActive);
      }
      if exists m :: m in groupMembers && MemberRow(groupMembers[m], t, g, u) {
        return Answer(false);
      }
      if id in groupMembers {
        return Failed(IntegrityError);
      }
      groupMembers := groupMembers[id := GroupMember(t, g, u, true, Validity(Some(now), None))];
      BumpVersions(t, {u});
      return Answer(true);
    }

    method RemoveGroupMember(t: TenantId, g: GroupId, u: UserId) returns (o: Outcome)
      modifies this
      ensures (State(), o) == Rbac.RemoveGroupMember(old(State()), t, g, u)
    {
      if !exists m :: m in groupMembers && MemberRow(groupMembers[m], t, g, u) {
        return Answer(false);
      }
      groupMembers := EndMembers(groupMembers, t, g, u);
      BumpVersions(t, {u});
      return Answer(true);
    }

    method AssignGroupRole(t: TenantId, g: GroupId, r: RoleId, id: Id, now: Time) returns (o: Outcome)
      modifies this
      ensures (State(), o) == Rbac.AssignGroupRole(old(State()), t, g, r, id, now)
    {
      if !GroupActive(State(), t, g) {
        return Failed(GroupNotActive);
      }
      if !RoleActive(State(), t, r) {
        return Failed(RoleNotActive);
      }
      if exists a :: a in groupRoles && GroupRoleRow(groupRoles[a], t, g, r) {
        return Answer(false);
      }
      if id in groupRoles {
        return Failed(IntegrityError);
      }
      groupRoles := groupRoles[id := GroupRole(t, g, r, true)];
      BumpVersions(t, GroupUsers(State(), t, g, now));
      return Answer(true);
    }

    method RemoveGroupRole(t: TenantId, g: GroupId, r: RoleId, now: Time) returns (o: Outcome)
      modifies this
      ensures (State(), o) == Rbac.RemoveGroupRole(old(State()), t, g, r, now)
    {
      var affected := GroupUsers(State(), t, g, now);
      if !exists a :: a in groupRoles && GroupRoleRow(groupRoles[a], t, g, r) {
        return Answer(false);
      }
      groupRoles := EndGroupRoles(groupRoles, t, g, r);
      BumpVersions(t, affected);
      return Answer(true);
    }

    method InsertRolePermissions(t: TenantId, r: RoleId, permissionKeys: seq<string>)
      modifies `rolePermissions
      ensures rolePermissions == old(rolePermissions) + set p | p in permissionKeys :: (t, r, p)
    {
      for i := 0 to |permissionKeys|
        invariant rolePermissions == old(rolePermissions) + set p | p in permissionKeys[..i] :: (t, r, p)
      {
        assert permissionKeys[..i + 1] == permissionKeys[..i] + [permissionKeys[i]];
        rolePermissions := rolePermissions + {(t, r, permissionKeys[i])};
      }
      assert permissionKeys[..|permissionKeys|] == permissionKeys;
    }

    method CreateRole(t: TenantId, r: RoleId, key: string, caption: Caption, permissionKeys: seq<string>)
        returns (o: Outcome)
      modifies this
      ensures (State(), o) == Rbac.CreateRole(old(State()), t, r, key, caption, permissionKeys)
    {
      if StartsWith(key, "platform.") || StartsWith(key, "tenant.") {
        return Failed(ReservedRoleKey);
      }
      if exists p :: p in permissionKeys && !PermissionIsActive(State(), p) {
        return Failed(PermissionNotActive);
      }
      if (t, r) in roles || (exists k :: k in roles && k.0 == t && roles[k].key == key) || !Distinct(permissionKeys) {
        return Failed(IntegrityError);
      }
      roles := roles[(t, r) := Role(key, caption, true)];
      InsertRolePermissions(t, r, permissionKeys);
      return Answer(true);
    }

    method UpdateRole(t: TenantId, r: RoleId, e: Edit, now: Time) returns (o: Outcome)
      modifies this
      ensures (State(), o) == Rbac.UpdateRole(old(State()), t, r, e, now)
    {
      if (t, r) !in roles {
        return Answer(false);
      }
      var affected := RoleUsers(State(), t, r, now);
      var current := roles[(t, r)];
      var name := if e.name.Some? then e.name.value else current.caption.name;
      var description := if e.description.Some? then e.description else current.caption.description;
      var active := if e.status.Some? then e.status.value else current.active;
      roles := roles[(t, r) := Role(current.key, Caption(name, description), active)];
      if current.active != active {
        BumpVersions(t, affected);
      }
      return Answer(true);
    }

    method AddRolePermission(t: TenantId, r: RoleId, p: string, now: Time) returns (o: Outcome)
      modifies this
      ensures (State(), o) == Rbac.AddRolePermission(old(State()), t, r, p, now)
    {
      if !PermissionIsActive(State(), p) {
        return Failed(PermissionNotActive);
      }
      if !RoleActive(State(), t, r) {
        return Failed(RoleNotActive);
      }
      if (t, r, p) in rolePermissions {
        return Answer(false);
      }
      rolePermissions := rolePermissions + {(t, r, p)};
      BumpVersions(t, RoleUsers(State(), t, r, now));
      return Answer(true);
    }

    method RemoveRolePermission(t: TenantId, r: RoleId, p: string, now: Time) returns (o: Outcome)
      modifies this
      ensures (State(), o) == Rbac.RemoveRolePermission(old(State()), t, r, p, now)
    {
      var affected := RoleUsers(State(), t, r, now);
      if (t, r, p) !in rolePermissions {
        return Answer(false);
      }
      rolePermissions := rolePermissions - {(t, r, p)};
      BumpVersions(t, affected);
      return Answer(true);
    }

    /** The base service's assignment, which the gate calls for ordinary roles. */
    method InsertUserRole(t: TenantId, u: UserId, r: RoleId, actor: UserId, id: Id, now: Time) returns (o: Outcome)
      modifies this
      ensures (State(), o) == Rbac.InsertUserRole(old(State()), t, u, r, actor, id, now)
    {
      if !UserActive(State(), u) {
        return Failed(UserNotActive);
      }
      if !RoleActive(State(), t, r) {
        return Failed(RoleNotActive);
      }
      if AlreadyAssigned(State(), t, u, r) {
        return Answer(false);
      }
      if id in userRoles {
        return Failed(IntegrityError);
      }
      userRoles := userRoles[id := UserRole(t, u, r, true, Validity(Some(now), None), actor)];
      BumpVersions(t, {u});
      return Answer(true);
    }

    method AssignUserRole(t: TenantId, u: UserId, r: RoleId, actor: UserId, id: Id, now: Time) returns (o: Outcome)
      modifies this
      ensures (State(), o) == Rbac.AssignUserRole(old(State()), t, u, r, actor, id, now)
    {
      if !RoleActive(State(), t, r) {
        return Failed(RoleNotActive);
      }
      if roles[(t, r)].key !in privilegedKeys {
        o := InsertUserRole(t, u, r, actor, id, now);
        return;
      }
      if !UserActive(State(), u) {
        return Failed(UserNotActive);
      }
      if AlreadyAssigned(State(), t, u, r) || AlreadyRequested(State(), t, u, r) {
        return Answer(false);
      }
      if id in requests {
        return Failed(IntegrityError);
      }
      requests := requests[id := Request(t, u, r, Pending, actor, None)];
      return Answer(true);
    }

    method RequestOrAssign(t: TenantId, u: UserId, r: RoleId, actor: UserId, id: Id, now: Time) returns (o: Outcome)
      modifies this
      ensures (State(), o) == Rbac.RequestOrAssign(old(State()), t, u, r, actor, id, now)
    {
      if !UserActive(State(), u) {
        return Failed(UserNotActive);
      }
      o := AssignUserRole(t, u, r, actor, id, now);
    }

    method RemoveUserRole(t: TenantId, u: UserId, r: RoleId, now: Time) returns (o: Outcome)
      modifies this
      ensures (State(), o) == Rbac.RemoveUserRole(old(State()), t, u, r, now)
    {
      if !AlreadyAssigned(State(), t, u, r) {
        return Answer(false);
      }
      userRoles := EndUserRoles(userRoles, t, u, r, now);
      BumpVersions(t, {u});
      return Answer(true);
    }

    method ApproveRequest(t: TenantId, q: Id, approver: UserId, id: Id, now: Time) returns (o: Outcome)
      modifies this
      ensures (State(), o) == Rbac.ApproveRequest(old(State()), t, q, approver, id, now)
    {
      hide ReferencesOk, Bump;
      if !Decidable(State(), t, q, approver) {
        return Failed(RequestNotDecidable);
      }
      var request := requests[q];
      if !UserActive(State(), request.subject) {
        return Failed(UserNotActive);
      }
      if !RoleActive(State(), t, request.role) {
        return Failed(RoleNotActive);
      }
      if !AlreadyAssigned(State(), t, request.subject, request.role) {
        if id in userRoles {
          return Failed(IntegrityError);
        }
        userRoles := userRoles[id := UserRole(t, request.subject, request.role, true, Validity(Some(now), None),
                                              request.requestedBy)];
        BumpVersions(t, {request.subject});
      }
      requests := requests[q := request.(status := Approved, decidedBy := Some(approver))];
      return Answer(true);
    }

    method RejectRequest(t: TenantId, q: Id, approver: UserId) returns (o: Outcome)
      modifies this
      ensures (State(), o) == Rbac.RejectRequest(old(State()), t, q, approver)
    {
      if !Decidable(State(), t, q, approver) {
        return Failed(RequestNotDecidable);
      }
      requests := requests[q := requests[q].(status := Rejected, decidedBy := Some(approver))];
      return Answer(true);
    }
  }
}
