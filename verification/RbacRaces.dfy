/**
 The same administrative calls when they overlap.

 Under READ COMMITTED each statement of a call sees what was committed when the statement began, and
 nothing another open call has written.  So a call has several views of the tables, and `tables` are those
 at its commit.  Bumps are upserts of locked rows, so they add to whatever has been committed.
 */
module RbacRaces {
  import opened GrantSources
  import opened Options
  import opened Rbac
  import opened RbacVersions

  // ---------------------------------------------------------------------------------------------
  // A call that commits later than it looked
  // ---------------------------------------------------------------------------------------------

  /** What was committed when the call read the row it updates, asked whom to bump, and ended or deleted rows. */
  datatype Views = Views(read: Tables, listed: Tables, written: Tables)

  /** Nothing was committed while the call ran. */
  function Alone(s: Tables): Views { Views(s, s, s) }

  /**
   The call reaches its commit.  Its checks may have looked at any tables, so their answers are left open; what
   its other statements found, and that its inserts broke no unique index, is not.
   */
  ghost predicate Went(v: Views, tables: Tables, c: Call) {
    match c
    case GroupUpdate(t, g, _) => (t, g) in v.read.groups && (t, g) in tables.groups
    case RoleUpdate(t, r, _) =>
      (t, r) in v.read.roles && (t, r) in tables.roles && tables.roles[(t, r)].key == v.read.roles[(t, r)].key
    case MemberAdd(t, g, u, id) =>
      && id !in tables.groupMembers
      && !exists m :: m in tables.groupMembers && MemberRow(tables.groupMembers[m], t, g, u)
    case MemberRemove(t, g, u) =>
      exists k :: k in v.written.groupMembers && k in tables.groupMembers && MemberRow(tables.groupMembers[k], t, g, u)
    case GroupRoleAssign(t, g, r, id) =>
      && id !in tables.groupRoles
      && !exists a :: a in tables.groupRoles && GroupRoleRow(tables.groupRoles[a], t, g, r)
    case GroupRoleRemove(t, g, r) =>
      exists k :: k in v.written.groupRoles && k in tables.groupRoles && GroupRoleRow(tables.groupRoles[k], t, g, r)
    case UserRoleAssign(t, u, r, _, id) =>
      !Privileged(v.read, t, r) && id !in tables.userRoles && !AlreadyAssigned(tables, t, u, r)
    case UserRoleRemove(t, u, r) =>
      exists k :: k in v.written.userRoles && k in tables.userRoles && UserRoleRow(tables.userRoles[k], t, u, r)
    case PermissionAdd(t, r, p) => (t, r, p) !in tables.rolePermissions
    case PermissionRemove(t, r, p) => (t, r, p) in v.written.rolePermissions && (t, r, p) in tables.rolePermissions
    case _ => false
  }

  /** The memberships a removal ends: those of u in g that it could see. */
  function MembersEnded(keys: set<Id>, rows: map<Id, GroupMember>, t: TenantId, g: GroupId, u: UserId):
      (r: map<Id, GroupMember>)
    ensures r.Keys == rows.Keys
    ensures forall k :: k in rows && (rows[k].tenant, rows[k].user) != (t, u) ==> r[k] == rows[k]
    ensures forall k :: k in rows ==> r[k].tenant == rows[k].tenant && r[k].user == rows[k].user
  {
    map k | k in rows :: if k in keys && MemberRow(rows[k], t, g, u) then rows[k].(active := false) else rows[k]
  }

  function GroupRolesEnded(keys: set<Id>, rows: map<Id, GroupRole>, t: TenantId, g: GroupId, r: RoleId):
      (rows': map<Id, GroupRole>)
    ensures rows'.Keys == rows.Keys
    ensures forall k :: k in rows && (rows[k].tenant, rows[k].group) != (t, g) ==> rows'[k] == rows[k]
    ensures forall k :: k in rows ==> rows'[k].tenant == rows[k].tenant && rows'[k].group == rows[k].group
  {
    map k | k in rows :: if k in keys && GroupRoleRow(rows[k], t, g, r) then rows[k].(active := false) else rows[k]
  }

  function AssignmentsEnded(keys: set<Id>, rows: map<Id, UserRole>, t: TenantId, u: UserId, r: RoleId, now: Time):
      (rows': map<Id, UserRole>)
    ensures rows'.Keys == rows.Keys
    ensures forall k :: k in rows && (rows[k].tenant, rows[k].user) != (t, u) ==> rows'[k] == rows[k]
    ensures forall k :: k in rows ==> rows'[k].tenant == rows[k].tenant && rows'[k].user == rows[k].user
  {
    var ended := EndUserRoles(rows, t, u, r, now);
    map k | k in rows :: if k in keys then ended[k] else rows[k]
  }

  function GroupsAfter(v: Views, tables: Tables, c: Call): map<(TenantId, GroupId), Group> {
    if c.GroupUpdate? && (c.t, c.g) in v.read.groups
    then tables.groups[(c.t, c.g) := EditedGroup(v.read.groups[(c.t, c.g)], c.edit)]
    else tables.groups
  }

  function RolesAfter(v: Views, tables: Tables, c: Call): map<(TenantId, RoleId), Role> {
    if c.RoleUpdate? && (c.t, c.r) in v.read.roles
    then tables.roles[(c.t, c.r) := EditedRole(v.read.roles[(c.t, c.r)], c.edit)]
    else tables.roles
  }

  function MembersAfter(v: Views, rows: map<Id, GroupMember>, c: Call, now: Time): map<Id, GroupMember> {
    match c
    case MemberAdd(t, g, u, id) =>
      rows[id := GroupMember(t, g, u, true, Validity(Some(now), None))]
    case MemberRemove(t, g, u) => MembersEnded(v.written.groupMembers.Keys, rows, t, g, u)
    case _ => rows
  }

  function GroupRolesAfter(v: Views, rows: map<Id, GroupRole>, c: Call): map<Id, GroupRole> {
    match c
    case GroupRoleAssign(t, g, r, id) => rows[id := GroupRole(t, g, r, true)]
    case GroupRoleRemove(t, g, r) => GroupRolesEnded(v.written.groupRoles.Keys, rows, t, g, r)
    case _ => rows
  }

  function AssignmentsAfter(v: Views, rows: map<Id, UserRole>, c: Call, now: Time): map<Id, UserRole> {
    match c
    case UserRoleAssign(t, u, r, actor, id) =>
      rows[id := UserRole(t, u, r, true, Validity(Some(now), None), actor)]
    case UserRoleRemove(t, u, r) => AssignmentsEnded(v.written.userRoles.Keys, rows, t, u, r, now)
    case _ => rows
  }

  function PermissionsAfter(rows: set<RolePermission>, c: Call): set<RolePermission> {
    match c
    case PermissionAdd(t, r, p) => rows + {(t, r, p)}
    case PermissionRemove(t, r, p) => rows - {(t, r, p)}
    case _ => rows
  }

  /** The rows a call writes.  An update writes back every column it has read. */
  function Install(v: Views, tables: Tables, c: Call, now: Time): Tables {
    tables.(groups := GroupsAfter(v, tables, c),
            roles := RolesAfter(v, tables, c),
            groupMembers := MembersAfter(v, tables.groupMembers, c, now),
            groupRoles := GroupRolesAfter(v, tables.groupRoles, c),
            userRoles := AssignmentsAfter(v, tables.userRoles, c, now),
            rolePermissions := PermissionsAfter(tables.rolePermissions, c))
  }

  /** Whom the call bumps: an update only if it changes the status it has read. */
  function BumpedUsers(v: Views, c: Call, now: Time): set<UserId> {
    match c
    case GroupUpdate(t, g, e) =>
      if (t, g) in v.read.groups && EditedGroup(v.read.groups[(t, g)], e).active != v.read.groups[(t, g)].active
      then Affected(v.listed, c, now) else {}
    case RoleUpdate(t, r, e) =>
      if (t, r) in v.read.roles && EditedRole(v.read.roles[(t, r)], e).active != v.read.roles[(t, r)].active
      then Affected(v.listed, c, now) else {}
    case _ => Affected(v.listed, c, now)
  }

  ghost function Commit(v: Views, tables: Tables, c: Call, now: Time): Tables {
    if !Went(v, tables, c) then tables
    else
      var written := Install(v, tables, c, now);
      written.(versions := Bump(tables.versions, c.t, BumpedUsers(v, c, now)))
  }

  /** u is ACTIVE, the commit changes what u is granted in t, and u's version there stands still. */
  ghost predicate Misses(v: Views, tables: Tables, c: Call, now: Time, t: TenantId, u: UserId) {
    var tables' := Commit(v, tables, c, now);
    && UserActive(tables, u) && Grants(tables', t, u, now) != Grants(tables, t, u, now)
    && Version(tables', u, t) == Version(tables, u, t)
  }

  // ---------------------------------------------------------------------------------------------
  // Only users the query would list at the commit are touched
  // ---------------------------------------------------------------------------------------------

  lemma GroupRolesTouch(tables: Tables, rows: map<Id, GroupRole>, t0: TenantId, g: GroupId, now: Time, t: TenantId,
      u: UserId)
    requires UserActive(tables, u) && !(t == t0 && u in GroupUsers(tables, t0, g, now))
    requires forall a ::
               a in tables.groupRoles && (tables.groupRoles[a].tenant, tables.groupRoles[a].group) != (t0, g) ==>
                 a in rows && rows[a] == tables.groupRoles[a]
    requires forall a :: a in rows && (rows[a].tenant, rows[a].group) != (t0, g) ==>
               a in tables.groupRoles && rows[a] == tables.groupRoles[a]
    ensures Grants(tables.(groupRoles := rows), t, u, now) == Grants(tables, t, u, now)
  {
    hide Grants, GroupUsers, UserActive;
    GroupFrame(tables, tables.(groupRoles := rows), t0, g, t, u, now);
  }

  lemma MembersTouch(tables: Tables, rows: map<Id, GroupMember>, t0: TenantId, u0: UserId, now: Time, t: TenantId,
      u: UserId)
    requires (t, u) != (t0, u0)
    requires forall a ::
               a in tables.groupMembers && (tables.groupMembers[a].tenant, tables.groupMembers[a].user) != (t0, u0) ==>
                 a in rows && rows[a] == tables.groupMembers[a]
    requires forall a :: a in rows && (rows[a].tenant, rows[a].user) != (t0, u0) ==>
               a in tables.groupMembers && rows[a] == tables.groupMembers[a]
    ensures Grants(tables.(groupMembers := rows), t, u, now) == Grants(tables, t, u, now)
  {
    hide Grants;
    UserFrame(tables, tables.(groupMembers := rows), t0, u0, t, u, now);
  }

  lemma AssignmentsTouch(tables: Tables, rows: map<Id, UserRole>, t0: TenantId, u0: UserId, now: Time, t: TenantId,
      u: UserId)
    requires (t, u) != (t0, u0)
    requires forall a :: a in tables.userRoles && (tables.userRoles[a].tenant, tables.userRoles[a].user) != (t0, u0) ==>
               a in rows && rows[a] == tables.userRoles[a]
    requires forall a :: a in rows && (rows[a].tenant, rows[a].user) != (t0, u0) ==>
               a in tables.userRoles && rows[a] == tables.userRoles[a]
    ensures Grants(tables.(userRoles := rows), t, u, now) == Grants(tables, t, u, now)
  {
    hide Grants;
    UserFrame(tables, tables.(userRoles := rows), t0, u0, t, u, now);
  }

  lemma GroupWriteTouches(v: Views, tables: Tables, c: Call, now: Time, t: TenantId, u: UserId)
    requires Went(v, tables, c)
    requires (c.GroupRoleAssign? || c.GroupRoleRemove?) && UserActive(tables, u)
    requires !(t == c.t && u in GroupUsers(tables, c.t, c.g, now))
    ensures Grants(Install(v, tables, c, now), t, u, now) == Grants(tables, t, u, now)
  {
    hide Grants, GroupUsers, UserActive;
    var rows := Install(v, tables, c, now).groupRoles;
    assert Install(v, tables, c, now) == tables.(groupRoles := rows);
    GroupRolesTouch(tables, rows, c.t, c.g, now, t, u);
  }

  lemma GroupEditTouches(v: Views, tables: Tables, c: Call, now: Time, t: TenantId, u: UserId)
    requires Went(v, tables, c)
    requires c.GroupUpdate? && UserActive(tables, u)
    requires !(t == c.t && u in GroupUsers(tables, c.t, c.g, now))
    ensures Grants(Install(v, tables, c, now), t, u, now) == Grants(tables, t, u, now)
  {
    hide Grants, GroupUsers, UserActive, EditedGroup;
    GroupFrame(tables, Install(v, tables, c, now), c.t, c.g, t, u, now);
  }

  lemma RoleWriteTouches(v: Views, tables: Tables, c: Call, now: Time, t: TenantId, u: UserId)
    requires Went(v, tables, c)
    requires (c.RoleUpdate? || c.PermissionAdd? || c.PermissionRemove?) && UserActive(tables, u)
    requires !(t == c.t && u in RoleUsers(tables, c.t, c.r, now))
    ensures Grants(Install(v, tables, c, now), t, u, now) == Grants(tables, t, u, now)
  {
    hide Grants, RoleUsers, UserActive, Recaption;
    var tables' := Install(v, tables, c, now);
    if c.RoleUpdate? {
      if tables' != tables {
        RoleUpdateFrame(tables, tables', c.t, c.r, t, u, now);
      }
    } else {
      PermissionFrame(tables, tables', c.t, c.r, c.p, t, u, now);
    }
  }

  lemma MemberWriteTouches(v: Views, tables: Tables, c: Call, now: Time, t: TenantId, u: UserId)
    requires Went(v, tables, c)
    requires (c.MemberAdd? || c.MemberRemove?) && (t, u) != (c.t, c.u)
    ensures Grants(Install(v, tables, c, now), t, u, now) == Grants(tables, t, u, now)
  {
    hide Grants;
    var rows := Install(v, tables, c, now).groupMembers;
    assert Install(v, tables, c, now) == tables.(groupMembers := rows);
    MembersTouch(tables, rows, c.t, c.u, now, t, u);
  }

  lemma AssignmentWriteTouches(v: Views, tables: Tables, c: Call, now: Time, t: TenantId, u: UserId)
    requires Went(v, tables, c)
    requires (c.UserRoleAssign? || c.UserRoleRemove?) && (t, u) != (c.t, c.u)
    ensures Grants(Install(v, tables, c, now), t, u, now) == Grants(tables, t, u, now)
  {
    hide Grants;
    var rows := Install(v, tables, c, now).userRoles;
    assert Install(v, tables, c, now) == tables.(userRoles := rows);
    AssignmentsTouch(tables, rows, c.t, c.u, now, t, u);
  }

  /** Whatever was seen, the rows written touch only users the affected query would list at the commit. */
  lemma InstallTouchesAffected(v: Views, tables: Tables, c: Call, now: Time, t: TenantId, u: UserId)
    requires Went(v, tables, c) && UserActive(tables, u)
    requires Grants(Install(v, tables, c, now), t, u, now) != Grants(tables, t, u, now)
    ensures t == c.t && u in Affected(tables, c, now)
  {
    hide Grants, Install, GroupUsers, RoleUsers, UserActive;
    if !(t == c.t && u in Affected(tables, c, now)) {
      if c.GroupUpdate? {
        GroupEditTouches(v, tables, c, now, t, u);
      } else if c.GroupRoleAssign? || c.GroupRoleRemove? {
        GroupWriteTouches(v, tables, c, now, t, u);
      } else if c.RoleUpdate? || c.PermissionAdd? || c.PermissionRemove? {
        RoleWriteTouches(v, tables, c, now, t, u);
      } else if c.MemberAdd? || c.MemberRemove? {
        MemberWriteTouches(v, tables, c, now, t, u);
      } else {
        AssignmentWriteTouches(v, tables, c, now, t, u);
      }
    }
  }

  /** Versions grant nothing. */
  lemma VersionsGrantNothing(s: Tables, v: Versions, t: TenantId, u: UserId, now: Time)
    ensures Grants(s.(versions := v), t, u, now) == Grants(s, t, u, now)
  {
    var s' := s.(versions := v);
    forall r ensures HasRole(s', t, u, r, now) <==> HasRole(s, t, u, r, now) {
      assert HasDirect(s', t, u, r, now) <==> HasDirect(s, t, u, r, now);
      assert HasThroughGroup(s', t, u, r, now) <==> HasThroughGroup(s, t, u, r, now);
    }
    SameGrants(s, s', t, u, now);
  }

  /** A commit misses an ACTIVE user exactly when its rows change the grants and it did not bump the user. */
  lemma MissesTheUnbumped(v: Views, tables: Tables, c: Call, now: Time, t: TenantId, u: UserId)
    ensures Misses(v, tables, c, now, t, u) <==>
              && Went(v, tables, c) && UserActive(tables, u) && t == c.t
              && u in Affected(tables, c, now) && u !in BumpedUsers(v, c, now)
              && Grants(Install(v, tables, c, now), t, u, now) != Grants(tables, t, u, now)
  {
    hide Grants, Went, Install, Affected, BumpedUsers, UserActive;
    if Went(v, tables, c) {
      var written := Install(v, tables, c, now);
      VersionsGrantNothing(written, Bump(tables.versions, c.t, BumpedUsers(v, c, now)), t, u, now);
      if UserActive(tables, u) && Grants(written, t, u, now) != Grants(tables, t, u, now) {
        InstallTouchesAffected(v, tables, c, now, t, u);
      }
    }
  }

  /** Calls about one user bump that user whatever they see, so no interleaving makes them miss anybody. */
  lemma UserCallsNeverMiss(v: Views, tables: Tables, c: Call, now: Time, t: TenantId, u: UserId)
    requires c.MemberAdd? || c.MemberRemove? || c.UserRoleRemove? || c.UserRoleAssign?
    ensures !Misses(v, tables, c, now, t, u)
  {
    MissesTheUnbumped(v, tables, c, now, t, u);
    hide Misses, Grants, Went, Install, GroupUsers, RoleUsers, UserActive;
  }

  // ---------------------------------------------------------------------------------------------
  // Whom each call misses
  // ---------------------------------------------------------------------------------------------

  /**
   update_group misses a member when it writes another status than the committed one, has not bumped the member
   (it read the status it writes, or the member joined after it asked), and a role of the group brings the
   member a pair, or is the only source of one.
   */
  ghost predicate GroupUpdateMisses(
    v: Views, tables: Tables, t: TenantId, g: GroupId, e: Edit, now: Time, u: UserId)
    requires (t, g) in v.read.groups && (t, g) in tables.groups
  {
    var on := EditedGroup(v.read.groups[(t, g)], e).active;
    && on != tables.groups[(t, g)].active
    && u in GroupUsers(tables, t, g, now)
    && (on == v.read.groups[(t, g)].active || u !in GroupUsers(v.listed, t, g, now))
    && if on then exists r :: GroupConfers(tables, t, g, r) && GainsFrom(tables, t, u, r, now)
       else LosesWithout(tables, t, u, WithoutGroup(g), now)
  }

  /** update_role misses a user the role reaches in the same way. */
  ghost predicate RoleUpdateMisses(
    v: Views, tables: Tables, t: TenantId, r: RoleId, e: Edit, now: Time, u: UserId)
    requires (t, r) in v.read.roles && (t, r) in tables.roles
  {
    var on := EditedRole(v.read.roles[(t, r)], e).active;
    && on != tables.roles[(t, r)].active
    && u in RoleUsers(tables, t, r, now)
    && (on == v.read.roles[(t, r)].active || u !in RoleUsers(v.listed, t, r, now))
    && if on then Brings(tables, t, u, r, now) else LosesWithout(tables, t, u, WithoutRole(r), now)
  }

  /** assign_group_role misses a member who joined after it asked and to whom the role brings a pair. */
  ghost predicate GroupRoleAssignMisses(
    v: Views, tables: Tables, t: TenantId, g: GroupId, r: RoleId, now: Time, u: UserId)
  {
    && u in GroupUsers(tables, t, g, now) && u !in GroupUsers(v.listed, t, g, now)
    && GroupActive(tables, t, g) && GainsFrom(tables, t, u, r, now)
  }

  /**
   remove_group_role misses a member who joined after it asked, when it ends every assignment of the role to the
   group and that was the only source of some pair.
   */
  ghost predicate GroupRoleRemoveMisses(
    v: Views, tables: Tables, t: TenantId, g: GroupId, r: RoleId, now: Time, u: UserId)
  {
    && u in GroupUsers(tables, t, g, now) && u !in GroupUsers(v.listed, t, g, now)
    && (forall a :: a in tables.groupRoles && GroupRoleRow(tables.groupRoles[a], t, g, r) ==> a in v.written.groupRoles)
    && LosesWithout(tables, t, u, WithoutGroupRole(g, r), now)
  }

  /** add_role_permission misses a holder the role reached after it asked and who lacks the pair. */
  ghost predicate PermissionAddMisses(
    v: Views, tables: Tables, t: TenantId, r: RoleId, p: string, now: Time, u: UserId)
  {
    && u in RoleUsers(tables, t, r, now) && u !in RoleUsers(v.listed, t, r, now)
    && HasRole(tables, t, u, r, now) && PermissionIsActive(tables, p)
    && Pair(tables, t, r, p) !in Grants(tables, t, u, now)
  }

  /** remove_role_permission misses such a holder who has no other source of the pair. */
  ghost predicate PermissionRemoveMisses(
    v: Views, tables: Tables, t: TenantId, r: RoleId, p: string, now: Time, u: UserId)
  {
    && u in RoleUsers(tables, t, r, now) && u !in RoleUsers(v.listed, t, r, now)
    && HasRole(tables, t, u, r, now) && PermissionIsActive(tables, p)
    && !OtherSource(tables, t, u, WithoutRole(r), Pair(tables, t, r, p), now)
  }

  ghost predicate MissedBy(v: Views, tables: Tables, c: Call, now: Time, u: UserId)
    requires Went(v, tables, c)
  {
    match c
    case GroupUpdate(t, g, e) => GroupUpdateMisses(v, tables, t, g, e, now, u)
    case RoleUpdate(t, r, e) => RoleUpdateMisses(v, tables, t, r, e, now, u)
    case GroupRoleAssign(t, g, r, _) => GroupRoleAssignMisses(v, tables, t, g, r, now, u)
    case GroupRoleRemove(t, g, r) => GroupRoleRemoveMisses(v, tables, t, g, r, now, u)
    case PermissionAdd(t, r, p) => PermissionAddMisses(v, tables, t, r, p, now, u)
    case PermissionRemove(t, r, p) => PermissionRemoveMisses(v, tables, t, r, p, now, u)
    case _ => false
  }

  // What switching a group does to the roles u has.

  lemma GroupSwitched(s: Tables, t: TenantId, g: GroupId, row: Group, u: UserId, q: RoleId, now: Time)
    requires (t, g) in s.groups && row.active != s.groups[(t, g)].active
    ensures var s' := s.(groups := s.groups[(t, g) := row]);
            HasRole(s', t, u, q, now) <==>
              if row.active
              then HasRole(s, t, u, q, now)
                   || (RoleActive(s, t, q) && Member(s, t, u, g, now) && GroupConfers(s, t, g, q))
              else HasElsewhere(s, t, u, q, g, now)
  {
    var s' := s.(groups := s.groups[(t, g) := row]);
    assert forall h :: GroupConfers(s', t, h, q) <==> GroupConfers(s, t, h, q);
    assert forall h :: h != g ==> (GroupActive(s', t, h) <==> GroupActive(s, t, h));
    assert Member(s', t, u, g, now) <==> Member(s, t, u, g, now);
    assert HasDirect(s', t, u, q, now) <==> HasDirect(s, t, u, q, now);
    hide Member, GroupConfers, HasDirect, HasThroughGroup, HasThroughOther;
    ThroughSplits(s, t, u, g, q, now);
    ThroughSplits(s', t, u, g, q, now);
    OthersAlike(s, s', t, u, g, q, now);
  }

  lemma GroupSwitchChanges(s: Tables, t: TenantId, g: GroupId, row: Group, u: UserId, now: Time)
    requires (t, g) in s.groups && row.active != s.groups[(t, g)].active && Member(s, t, u, g, now)
    ensures var s' := s.(groups := s.groups[(t, g) := row]);
            Grants(s', t, u, now) != Grants(s, t, u, now) <==>
              if row.active then exists r :: GroupConfers(s, t, g, r) && GainsFrom(s, t, u, r, now)
              else LosesWithout(s, t, u, WithoutGroup(g), now)
  {
    var s' := s.(groups := s.groups[(t, g) := row]);
    forall q {
      GroupSwitched(s, t, g, row, u, q, now);
    }
    if row.active {
      var gained := iset q | RoleActive(s, t, q) && GroupConfers(s, t, g, q);
      GrantsGrowExactlyWhen(s, s', t, u, gained, now);
      assert (exists q :: q in gained && Brings(s, t, u, q, now)) <==>
          (exists r :: GroupConfers(s, t, g, r) && GainsFrom(s, t, u, r, now)) by {
        hide Brings, GroupConfers, RoleActive;
        if q :| q in gained && Brings(s, t, u, q, now) {
          assert GroupConfers(s, t, g, q) && GainsFrom(s, t, u, q, now);
        }
        if r :| GroupConfers(s, t, g, r) && GainsFrom(s, t, u, r, now) {
          assert r in gained && Brings(s, t, u, r, now);
        }
      }
    } else {
      GrantsShrinkExactlyWhen(s, s', t, u, WithoutGroup(g), now);
    }
    hide Grants, Brings, LosesWithout, HasRole, HasElsewhere, GroupConfers, GainsFrom;
  }

  lemma GroupUpdateMissesExactlyWhen(
    v: Views, tables: Tables, t: TenantId, g: GroupId, e: Edit, now: Time, u: UserId)
    requires Went(v, tables, GroupUpdate(t, g, e))
    ensures Misses(v, tables, GroupUpdate(t, g, e), now, t, u) <==> GroupUpdateMisses(v, tables, t, g, e, now, u)
  {
    var c := GroupUpdate(t, g, e);
    var row := EditedGroup(v.read.groups[(t, g)], e);
    var s' := tables.(groups := tables.groups[(t, g) := row]);
    MissesTheUnbumped(v, tables, c, now, t, u);
    ListedIsMember(tables, t, u, g, now);
    assert Install(v, tables, c, now) == s';
    if row.active == tables.groups[(t, g)].active {
      CaptionFrame(tables, s', t, u, now);
    } else if u in GroupUsers(tables, t, g, now) {
      GroupSwitchChanges(tables, t, g, row, u, now);
    }
    hide Misses, Grants, Install, UserActive, GroupUsers, Member, LosesWithout, GainsFrom, GroupConfers, EditedGroup;
  }

  // What switching a role does.

  lemma RoleSwitched(s: Tables, t: TenantId, r: RoleId, row: Role, u: UserId, q: RoleId, now: Time)
    requires (t, r) in s.roles && row.active != s.roles[(t, r)].active
    ensures var s' := s.(roles := s.roles[(t, r) := row]);
            HasRole(s', t, u, q, now) <==>
              if row.active
              then HasRole(s, t, u, q, now)
                   || (q == r && (HasDirect(s, t, u, r, now) || HasThroughGroup(s, t, u, r, now)))
              else HasStill(s, t, u, q, WithoutRole(r), now)
  {
    var s' := s.(roles := s.roles[(t, r) := row]);
    assert HasDirect(s', t, u, q, now) <==> HasDirect(s, t, u, q, now);
    assert HasThroughGroup(s', t, u, q, now) <==> HasThroughGroup(s, t, u, q, now);
    hide HasDirect, HasThroughGroup;
  }

  lemma RoleSwitchChanges(s: Tables, t: TenantId, r: RoleId, row: Role, u: UserId, now: Time)
    requires (t, r) in s.roles && row.active != s.roles[(t, r)].active && row.key == s.roles[(t, r)].key
    requires HasDirect(s, t, u, r, now) || HasThroughGroup(s, t, u, r, now)
    ensures var s' := s.(roles := s.roles[(t, r) := row]);
            Grants(s', t, u, now) != Grants(s, t, u, now) <==>
              if row.active then Brings(s, t, u, r, now) else LosesWithout(s, t, u, WithoutRole(r), now)
  {
    var s' := s.(roles := s.roles[(t, r) := row]);
    forall q {
      RoleSwitched(s, t, r, row, u, q, now);
    }
    if row.active {
      GrantsGrowExactlyWhen(s, s', t, u, iset{r}, now);
    } else {
      GrantsShrinkExactlyWhen(s, s', t, u, WithoutRole(r), now);
    }
    hide Grants, Brings, LosesWithout, HasRole, HasStill;
  }

  lemma RoleUpdateMissesExactlyWhen(
    v: Views, tables: Tables, t: TenantId, r: RoleId, e: Edit, now: Time, u: UserId)
    requires Went(v, tables, RoleUpdate(t, r, e))
    ensures Misses(v, tables, RoleUpdate(t, r, e), now, t, u) <==> RoleUpdateMisses(v, tables, t, r, e, now, u)
  {
    var c := RoleUpdate(t, r, e);
    var row := EditedRole(v.read.roles[(t, r)], e);
    var s' := tables.(roles := tables.roles[(t, r) := row]);
    MissesTheUnbumped(v, tables, c, now, t, u);
    ListedIsReached(tables, t, u, r, now);
    assert Install(v, tables, c, now) == s';
    if row.active == tables.roles[(t, r)].active {
      CaptionFrame(tables, s', t, u, now);
    } else if u in RoleUsers(tables, t, r, now) {
      RoleSwitchChanges(tables, t, r, row, u, now);
    }
    hide Misses, Grants, Install, UserActive, RoleUsers, HasDirect, HasThroughGroup, LosesWithout, Brings, EditedRole;
  }

  // What a group's roles do.

  lemma GroupRolesChanged(
    s: Tables, rows: map<Id, GroupRole>, t: TenantId, g: GroupId, r: RoleId, u: UserId, q: RoleId, now: Time)
    requires forall h, p :: h != g || p != r ==>
               (GroupConfers(s.(groupRoles := rows), t, h, p) <==> GroupConfers(s, t, h, p))
    ensures var s' := s.(groupRoles := rows);
            HasRole(s', t, u, q, now) <==>
              if q != r then HasRole(s, t, u, q, now)
              else
                || HasElsewhere(s, t, u, r, g, now)
                || (RoleActive(s, t, r) && Member(s, t, u, g, now) && GroupActive(s, t, g) && GroupConfers(s', t, g, r))
  {
    var s' := s.(groupRoles := rows);
    assert Member(s', t, u, g, now) <==> Member(s, t, u, g, now);
    assert HasDirect(s', t, u, q, now) <==> HasDirect(s, t, u, q, now);
    hide Member, GroupConfers, HasDirect, HasThroughGroup, HasThroughOther;
    ThroughSplits(s, t, u, g, q, now);
    ThroughSplits(s', t, u, g, q, now);
    OthersAlike(s, s', t, u, g, q, now);
  }

  lemma GroupRoleAdded(s: Tables, t: TenantId, g: GroupId, r: RoleId, id: Id, u: UserId, now: Time)
    requires id !in s.groupRoles && Member(s, t, u, g, now)
    ensures var s' := s.(groupRoles := s.groupRoles[id := GroupRole(t, g, r, true)]);
            Grants(s', t, u, now) != Grants(s, t, u, now) <==> GroupActive(s, t, g) && GainsFrom(s, t, u, r, now)
  {
    var rows := s.groupRoles[id := GroupRole(t, g, r, true)];
    var s' := s.(groupRoles := rows);
    AddedConfers(s, t, g, r, id);
    forall q {
      GroupRolesChanged(s, rows, t, g, r, u, q, now);
    }
    ThroughSplits(s, t, u, g, r, now);
    hide Member, GroupConfers, HasDirect, HasThroughGroup, HasThroughOther;
    var gained := if RoleActive(s, t, r) && GroupActive(s, t, g) then iset{r} else iset{};
    GrantsGrowExactlyWhen(s, s', t, u, gained, now);
    hide Grants, Brings, HasRole;
  }

  lemma AddedConfers(s: Tables, t: TenantId, g: GroupId, r: RoleId, id: Id)
    requires id !in s.groupRoles
    ensures var s' := s.(groupRoles := s.groupRoles[id := GroupRole(t, g, r, true)]);
            forall h, p :: GroupConfers(s', t, h, p) <==> GroupConfers(s, t, h, p) || (h == g && p == r)
  {
    var s' := s.(groupRoles := s.groupRoles[id := GroupRole(t, g, r, true)]);
    forall h, p ensures GroupConfers(s', t, h, p) <==> GroupConfers(s, t, h, p) || (h == g && p == r) {
      if a :| a in s.groupRoles && Confers(s.groupRoles[a], t, h, p) {
        assert a in s'.groupRoles && Confers(s'.groupRoles[a], t, h, p);
      }
      if h == g && p == r {
        assert Confers(s'.groupRoles[id], t, h, p);
      }
    }
  }

  lemma GroupRoleAssignMissesExactlyWhen(
    v: Views, tables: Tables, t: TenantId, g: GroupId, r: RoleId, id: Id, now: Time, u: UserId)
    requires Went(v, tables, GroupRoleAssign(t, g, r, id))
    ensures Misses(v, tables, GroupRoleAssign(t, g, r, id), now, t, u) <==>
              GroupRoleAssignMisses(v, tables, t, g, r, now, u)
  {
    var c := GroupRoleAssign(t, g, r, id);
    MissesTheUnbumped(v, tables, c, now, t, u);
    ListedIsMember(tables, t, u, g, now);
    assert Install(v, tables, c, now) == tables.(groupRoles := tables.groupRoles[id := GroupRole(t, g, r, true)]);
    if u in GroupUsers(tables, t, g, now) {
      GroupRoleAdded(tables, t, g, r, id, u, now);
    }
    hide Misses, Grants, Install, UserActive, GroupUsers, Member, GainsFrom, GroupActive;
  }

  /** After the removal the group confers the role exactly through rows the removal could not see. */
  lemma RemovedConfers(s: Tables, keys: set<Id>, t: TenantId, g: GroupId, r: RoleId)
    ensures var s' := s.(groupRoles := GroupRolesEnded(keys, s.groupRoles, t, g, r));
            && (forall h, p :: h != g || p != r ==> (GroupConfers(s', t, h, p) <==> GroupConfers(s, t, h, p)))
            && (GroupConfers(s', t, g, r) <==>
                  exists a :: a in s.groupRoles && GroupRoleRow(s.groupRoles[a], t, g, r) && a !in keys)
  {
    var rows := GroupRolesEnded(keys, s.groupRoles, t, g, r);
    var s' := s.(groupRoles := rows);
    forall h, p | h != g || p != r ensures GroupConfers(s', t, h, p) <==> GroupConfers(s, t, h, p) {
      if a :| a in s.groupRoles && Confers(s.groupRoles[a], t, h, p) {
        assert a in rows && Confers(rows[a], t, h, p);
      }
      if a :| a in rows && Confers(rows[a], t, h, p) {
        assert a in s.groupRoles && Confers(s.groupRoles[a], t, h, p);
      }
    }
    if a :| a in s.groupRoles && GroupRoleRow(s.groupRoles[a], t, g, r) && a !in keys {
      assert a in rows && Confers(rows[a], t, g, r);
    }
    if a :| a in rows && Confers(rows[a], t, g, r) {
      assert a in s.groupRoles && GroupRoleRow(s.groupRoles[a], t, g, r) && a !in keys;
    }
  }

  lemma GroupRoleRemoved(s: Tables, keys: set<Id>, t: TenantId, g: GroupId, r: RoleId, u: UserId, now: Time)
    requires exists k :: k in keys && k in s.groupRoles && GroupRoleRow(s.groupRoles[k], t, g, r)
    requires Member(s, t, u, g, now)
    ensures var s' := s.(groupRoles := GroupRolesEnded(keys, s.groupRoles, t, g, r));
            Grants(s', t, u, now) != Grants(s, t, u, now) <==>
              && (forall a :: a in s.groupRoles && GroupRoleRow(s.groupRoles[a], t, g, r) ==> a in keys)
              && LosesWithout(s, t, u, WithoutGroupRole(g, r), now)
  {
    var rows := GroupRolesEnded(keys, s.groupRoles, t, g, r);
    var s' := s.(groupRoles := rows);
    RemovedConfers(s, keys, t, g, r);
    ConfersNow(s, keys, t, g, r);
    forall q {
      GroupRolesChanged(s, rows, t, g, r, u, q, now);
    }
    ThroughSplits(s, t, u, g, r, now);
    hide Member, GroupConfers, HasDirect, HasThroughGroup, HasThroughOther, GroupRoleRow, GroupRolesEnded;
    if GroupConfers(s', t, g, r) {
      forall q ensures HasRole(s', t, u, q, now) <==> HasRole(s, t, u, q, now) {}
      SameGrants(s, s', t, u, now);
    } else {
      GrantsShrinkExactlyWhen(s, s', t, u, WithoutGroupRole(g, r), now);
    }
    hide Grants, LosesWithout, HasRole;
  }

  lemma ConfersNow(s: Tables, keys: set<Id>, t: TenantId, g: GroupId, r: RoleId)
    requires exists k :: k in keys && k in s.groupRoles && GroupRoleRow(s.groupRoles[k], t, g, r)
    ensures GroupConfers(s, t, g, r)
  {
    var k :| k in keys && k in s.groupRoles && GroupRoleRow(s.groupRoles[k], t, g, r);
    assert Confers(s.groupRoles[k], t, g, r);
  }

  lemma GroupRoleRemoveMissesExactlyWhen(
    v: Views, tables: Tables, t: TenantId, g: GroupId, r: RoleId, now: Time, u: UserId)
    requires Went(v, tables, GroupRoleRemove(t, g, r))
    ensures Misses(v, tables, GroupRoleRemove(t, g, r), now, t, u) <==>
              GroupRoleRemoveMisses(v, tables, t, g, r, now, u)
  {
    var c := GroupRoleRemove(t, g, r);
    MissesTheUnbumped(v, tables, c, now, t, u);
    ListedIsMember(tables, t, u, g, now);
    var keys := v.written.groupRoles.Keys;
    assert Install(v, tables, c, now)
        == tables.(groupRoles := GroupRolesEnded(keys, tables.groupRoles, t, g, r));
    if u in GroupUsers(tables, t, g, now) {
      GroupRoleRemoved(tables, keys, t, g, r, u, now);
    }
    hide Misses, Grants, Install, UserActive, GroupUsers, Member, LosesWithout, GroupRolesEnded;
  }

  // What the permissions of a role do.

  lemma PermissionAddMissesExactlyWhen(
    v: Views, tables: Tables, t: TenantId, r: RoleId, p: string, now: Time, u: UserId)
    requires Went(v, tables, PermissionAdd(t, r, p))
    ensures Misses(v, tables, PermissionAdd(t, r, p), now, t, u) <==> PermissionAddMisses(v, tables, t, r, p, now, u)
  {
    var c := PermissionAdd(t, r, p);
    MissesTheUnbumped(v, tables, c, now, t, u);
    PermissionGains(tables, t, r, p, u, now);
    ListedIsReached(tables, t, u, r, now);
    assert Install(v, tables, c, now) == tables.(rolePermissions := tables.rolePermissions + {(t, r, p)});
    hide Misses, Grants, HasRole, PermissionIsActive, Install, RoleUsers, UserActive, HasDirect, HasThroughGroup;
  }

  lemma PermissionGains(s: Tables, t: TenantId, r: RoleId, p: string, u: UserId, now: Time)
    requires (t, r, p) !in s.rolePermissions
    ensures var s' := s.(rolePermissions := s.rolePermissions + {(t, r, p)});
            Grants(s', t, u, now) != Grants(s, t, u, now) <==>
              HasRole(s, t, u, r, now) && PermissionIsActive(s, p) && (s.roles[(t, r)].key, p) !in Grants(s, t, u, now)
  {
    var s' := s.(rolePermissions := s.rolePermissions + {(t, r, p)});
    forall q ensures HasRole(s', t, u, q, now) <==> HasRole(s, t, u, q, now) {
      assert HasDirect(s', t, u, q, now) <==> HasDirect(s, t, u, q, now);
      assert HasThroughGroup(s', t, u, q, now) <==> HasThroughGroup(s, t, u, q, now);
    }
    hide HasRole, TenantGrants;
    forall x | x in TenantGrants(s, t, u, now) ensures x in TenantGrants(s', t, u, now) {
      var q := GrantHow(s, t, u, now, x);
      GrantBy(s', t, u, now, q, x.1);
    }
    if x :| x in Grants(s', t, u, now) && x !in Grants(s, t, u, now) {
      PermissionExplains(s, s', t, r, p, u, now, x);
    }
    if HasRole(s, t, u, r, now) && PermissionIsActive(s, p) {
      GrantBy(s', t, u, now, r, p);
    }
  }

  /** A pair that the new permission brings is that permission under the role's key. */
  lemma PermissionExplains(
    s: Tables, s': Tables, t: TenantId, r: RoleId, p: string, u: UserId, now: Time, x: (string, string))
    requires s' == s.(rolePermissions := s.rolePermissions + {(t, r, p)})
    requires forall q :: HasRole(s', t, u, q, now) <==> HasRole(s, t, u, q, now)
    requires x in Grants(s', t, u, now) && x !in Grants(s, t, u, now)
    ensures x == (s.roles[(t, r)].key, p) && HasRole(s, t, u, r, now) && PermissionIsActive(s, p)
  {
    assert x in TenantGrants(s', t, u, now);
    hide HasRole, TenantGrants;
    var q := GrantHow(s', t, u, now, x);
    if (t, q, x.1) in s.rolePermissions {
      GrantBy(s, t, u, now, q, x.1);
    }
  }

  /** Losing a permission changes the grants exactly when the role was the only source of the pair. */
  lemma PermissionLosses(s: Tables, t: TenantId, r: RoleId, p: string, u: UserId, now: Time)
    requires (t, r, p) in s.rolePermissions
    ensures var s' := s.(rolePermissions := s.rolePermissions - {(t, r, p)});
            Grants(s', t, u, now) != Grants(s, t, u, now) <==>
              && HasRole(s, t, u, r, now) && PermissionIsActive(s, p)
              && !OtherSource(s, t, u, WithoutRole(r), Pair(s, t, r, p), now)
  {
    var s' := s.(rolePermissions := s.rolePermissions - {(t, r, p)});
    forall q ensures HasRole(s', t, u, q, now) <==> HasRole(s, t, u, q, now) {
      assert HasDirect(s', t, u, q, now) <==> HasDirect(s, t, u, q, now);
      assert HasThroughGroup(s', t, u, q, now) <==> HasThroughGroup(s, t, u, q, now);
    }
    hide HasRole, TenantGrants;
    forall x | x in TenantGrants(s', t, u, now) ensures x in TenantGrants(s, t, u, now) {
      var q := GrantHow(s', t, u, now, x);
      GrantBy(s, t, u, now, q, x.1);
    }
    if x :| x in Grants(s, t, u, now) && x !in Grants(s', t, u, now) {
      PermissionLost(s, s', t, r, p, u, now, x);
    }
    if HasRole(s, t, u, r, now) && PermissionIsActive(s, p)
       && !OtherSource(s, t, u, WithoutRole(r), Pair(s, t, r, p), now) {
      GrantBy(s, t, u, now, r, p);
      StillGrantedElsewhere(s, s', t, r, p, u, now);
    }
  }

  lemma PermissionLost(
    s: Tables, s': Tables, t: TenantId, r: RoleId, p: string, u: UserId, now: Time, x: (string, string))
    requires s' == s.(rolePermissions := s.rolePermissions - {(t, r, p)})
    requires forall q :: HasRole(s', t, u, q, now) <==> HasRole(s, t, u, q, now)
    requires x in Grants(s, t, u, now) && x !in Grants(s', t, u, now)
    ensures HasRole(s, t, u, r, now) && PermissionIsActive(s, p)
    ensures !OtherSource(s, t, u, WithoutRole(r), Pair(s, t, r, p), now)
  {
    assert x in TenantGrants(s, t, u, now);
    assert PlatformGrants(s', u) == PlatformGrants(s, u);
    hide HasRole, TenantGrants, PlatformGrants;
    var q := GrantHow(s, t, u, now, x);
    if (t, q, x.1) in s'.rolePermissions {
      GrantBy(s', t, u, now, q, x.1);
    }
    if h :| HasStill(s, t, u, h, WithoutRole(r), now) && Carries(s, t, h, p) && Pair(s, t, h, p) == Pair(s, t, r, p) {
      GrantBy(s', t, u, now, h, p);
    }
  }

  lemma StillGrantedElsewhere(s: Tables, s': Tables, t: TenantId, r: RoleId, p: string, u: UserId, now: Time)
    requires s' == s.(rolePermissions := s.rolePermissions - {(t, r, p)}) && (t, r) in s.roles
    requires forall q :: HasRole(s', t, u, q, now) <==> HasRole(s, t, u, q, now)
    ensures Pair(s, t, r, p) in Grants(s', t, u, now) ==> OtherSource(s, t, u, WithoutRole(r), Pair(s, t, r, p), now)
  {
    assert PlatformGrants(s', u) == PlatformGrants(s, u);
    assert forall q :: HasRole(s', t, u, q, now) ==> RoleActive(s, t, q);
    hide HasRole, TenantGrants, PlatformGrants;
    if Pair(s, t, r, p) in TenantGrants(s', t, u, now) {
      var q := GrantHow(s', t, u, now, Pair(s, t, r, p));
      OtherSourceBy(s, t, u, WithoutRole(r), Pair(s, t, r, p), now, q);
    }
  }

  lemma PermissionRemoveMissesExactlyWhen(
    v: Views, tables: Tables, t: TenantId, r: RoleId, p: string, now: Time, u: UserId)
    requires Went(v, tables, PermissionRemove(t, r, p))
    ensures Misses(v, tables, PermissionRemove(t, r, p), now, t, u) <==>
              PermissionRemoveMisses(v, tables, t, r, p, now, u)
  {
    var c := PermissionRemove(t, r, p);
    MissesTheUnbumped(v, tables, c, now, t, u);
    PermissionLosses(tables, t, r, p, u, now);
    ListedIsReached(tables, t, u, r, now);
    assert Install(v, tables, c, now) == tables.(rolePermissions := tables.rolePermissions - {(t, r, p)});
    hide Misses, Grants, HasRole, PermissionIsActive, Install, RoleUsers, UserActive, HasDirect, HasThroughGroup;
    hide OtherSource;
  }

  /**
   Exactly whom a commit misses, for every call, whatever was committed between its statements: an ACTIVE user
   whose grants in the tenant change while the version there stands still.
   */
  lemma MissesExactlyWhen(v: Views, tables: Tables, c: Call, now: Time, t: TenantId, u: UserId)
    ensures Misses(v, tables, c, now, t, u) <==> Went(v, tables, c) && t == c.t && MissedBy(v, tables, c, now, u)
  {
    MissesTheUnbumped(v, tables, c, now, t, u);
    if Went(v, tables, c) && t == c.t {
      match c
      case GroupUpdate(_, g, e) => GroupUpdateMissesExactlyWhen(v, tables, t, g, e, now, u);
      case RoleUpdate(_, r, e) => RoleUpdateMissesExactlyWhen(v, tables, t, r, e, now, u);
      case GroupRoleAssign(_, g, r, id) => GroupRoleAssignMissesExactlyWhen(v, tables, t, g, r, id, now, u);
      case GroupRoleRemove(_, g, r) => GroupRoleRemoveMissesExactlyWhen(v, tables, t, g, r, now, u);
      case PermissionAdd(_, r, p) => PermissionAddMissesExactlyWhen(v, tables, t, r, p, now, u);
      case PermissionRemove(_, r, p) => PermissionRemoveMissesExactlyWhen(v, tables, t, r, p, now, u);
      case MemberAdd(_, _, _, _) => UserCallsNeverMiss(v, tables, c, now, t, u);
      case MemberRemove(_, _, _) => UserCallsNeverMiss(v, tables, c, now, t, u);
      case UserRoleAssign(_, _, _, _, _) => UserCallsNeverMiss(v, tables, c, now, t, u);
      case UserRoleRemove(_, _, _) => UserCallsNeverMiss(v, tables, c, now, t, u);
    }
    hide Misses, Grants, Install, Affected, BumpedUsers, UserActive;
    hide GroupUpdateMisses, RoleUpdateMisses, GroupRoleAssignMisses, GroupRoleRemoveMisses;
    hide PermissionAddMisses, PermissionRemoveMisses;
  }

  // ---------------------------------------------------------------------------------------------
  // Without overlap, and with it
  // ---------------------------------------------------------------------------------------------

  lemma SerialRows(s: Tables, c: Call, now: Time)
    ensures c.MemberRemove? ==>
              MembersEnded(s.groupMembers.Keys, s.groupMembers, c.t, c.g, c.u)
                == EndMembers(s.groupMembers, c.t, c.g, c.u)
    ensures c.GroupRoleRemove? ==>
              GroupRolesEnded(s.groupRoles.Keys, s.groupRoles, c.t, c.g, c.r)
                == EndGroupRoles(s.groupRoles, c.t, c.g, c.r)
    ensures c.UserRoleRemove? ==>
              AssignmentsEnded(s.userRoles.Keys, s.userRoles, c.t, c.u, c.r, now)
                == EndUserRoles(s.userRoles, c.t, c.u, c.r, now)
  {}

  /** Neither affected query looks at the rows its own call adds. */
  lemma QueriesIgnoreOwnRows(s: Tables, rows: map<Id, GroupRole>, permissions: set<RolePermission>, t: TenantId,
      g: GroupId, r: RoleId, now: Time)
    ensures GroupUsers(s.(groupRoles := rows), t, g, now) == GroupUsers(s, t, g, now)
    ensures RoleUsers(s.(rolePermissions := permissions), t, r, now) == RoleUsers(s, t, r, now)
  {}

  /** A call nothing overlaps does what the serial specification says, table by table. */
  lemma SerialEdit(s: Tables, c: Call, now: Time)
    requires (c.GroupUpdate? || c.RoleUpdate?) && s.versions == Bump(s.versions, c.t, {})
    requires Went(Alone(s), s, c) && Apply(s, c, now).1 == Answer(true)
    ensures Commit(Alone(s), s, c, now) == Apply(s, c, now).0
  {
    hide ReferencesOk, Bump, Recaption, GroupUsers, RoleUsers;
  }

  lemma SerialMember(s: Tables, c: Call, now: Time)
    requires c.MemberAdd? || c.MemberRemove?
    requires Went(Alone(s), s, c) && Apply(s, c, now).1 == Answer(true)
    ensures Commit(Alone(s), s, c, now) == Apply(s, c, now).0
  {
    SerialRows(s, c, now);
    hide ReferencesOk, Bump, UserActive, GroupActive, MembersEnded, EndMembers, MemberRow;
  }

  lemma SerialGroupRole(s: Tables, c: Call, now: Time)
    requires c.GroupRoleAssign? || c.GroupRoleRemove?
    requires Went(Alone(s), s, c) && Apply(s, c, now).1 == Answer(true)
    ensures Commit(Alone(s), s, c, now) == Apply(s, c, now).0
  {
    if c.GroupRoleAssign? {
      SerialGroupRoleAssign(s, c, now);
    } else {
      SerialRows(s, c, now);
      hide ReferencesOk, Bump, GroupUsers, GroupRolesEnded, EndGroupRoles, GroupRoleRow;
    }
  }

  lemma GroupRoleInstalls(s: Tables, c: Call, now: Time)
    requires c.GroupRoleAssign?
    ensures c.id !in s.groupRoles ==>
              Install(Alone(s), s, c, now) == s.(groupRoles := s.groupRoles[c.id := GroupRole(c.t, c.g, c.r, true)])
  {}

  lemma SerialGroupRoleAssign(s: Tables, c: Call, now: Time)
    requires c.GroupRoleAssign? && Went(Alone(s), s, c) && Apply(s, c, now).1 == Answer(true)
    ensures Commit(Alone(s), s, c, now) == Apply(s, c, now).0
  {
    GroupRoleAssignChanges(s, c.t, c.g, c.r, c.id, now);
    GroupRoleInstalls(s, c, now);
    hide ReferencesOk, Bump, Install, AssignGroupRole, GroupUsers, RoleUsers;
  }

  lemma SerialPermission(s: Tables, c: Call, now: Time)
    requires c.PermissionAdd? || c.PermissionRemove?
    requires Went(Alone(s), s, c) && Apply(s, c, now).1 == Answer(true)
    ensures Commit(Alone(s), s, c, now) == Apply(s, c, now).0
  {
    if c.PermissionAdd? {
      QueriesIgnoreOwnRows(s, s.groupRoles, s.rolePermissions + {(c.t, c.r, c.p)}, c.t, 0, c.r, now);
    }
    hide ReferencesOk, Bump, RoleActive, PermissionIsActive, RoleUsers;
  }

  lemma SerialAssignment(s: Tables, c: Call, now: Time)
    requires c.UserRoleAssign? || c.UserRoleRemove?
    requires Went(Alone(s), s, c) && Apply(s, c, now).1 == Answer(true)
    ensures Commit(Alone(s), s, c, now) == Apply(s, c, now).0
  {
    if c.UserRoleAssign? {
      SerialUserRoleAssign(s, c, now);
    } else {
      SerialRows(s, c, now);
      hide ReferencesOk, Bump, AlreadyAssigned, AssignmentsEnded, EndUserRoles;
    }
  }

  lemma SerialUserRoleAssign(s: Tables, c: Call, now: Time)
    requires c.UserRoleAssign? && Went(Alone(s), s, c) && Apply(s, c, now).1 == Answer(true)
    ensures Commit(Alone(s), s, c, now) == Apply(s, c, now).0
  {
    InsertChanges(s, c.t, c.u, c.r, c.actor, c.id, now);
    AssignmentInstalls(s, c, now);
    SerialGate(s, c, now);
    hide Apply, ReferencesOk, Bump, Install, InsertUserRole, GroupUsers, RoleUsers, RoleActive, Privileged;
  }

  lemma AssignmentInstalls(s: Tables, c: Call, now: Time)
    requires c.UserRoleAssign?
    ensures c.id !in s.userRoles ==>
              Install(Alone(s), s, c, now)
                == s.(userRoles := s.userRoles[
                        c.id := UserRole(c.t, c.u, c.r, true, Validity(Some(now), None), c.actor)])
  {}

  /** The gate lets an ordinary assignment through; only the order of its refusals is its own. */
  lemma SerialGate(s: Tables, c: Call, now: Time)
    requires c.UserRoleAssign? && !Privileged(s, c.t, c.r)
    ensures var o := InsertUserRole(s, c.t, c.u, c.r, c.actor, c.id, now);
            Apply(s, c, now).0 == o.0 && (Apply(s, c, now).1 == Answer(true) <==> o.1 == Answer(true))
  {
    hide ReferencesOk, Bump, Bumped, AlreadyAssigned, AlreadyRequested;
  }

  lemma BumpNobody(v: Versions, t: TenantId)
    ensures Bump(v, t, {}) == v
  {}

  lemma WentKind(v: Views, tables: Tables, c: Call)
    requires Went(v, tables, c)
    ensures || c.GroupUpdate? || c.RoleUpdate? || c.MemberAdd? || c.MemberRemove? || c.GroupRoleAssign?
            || c.GroupRoleRemove? || c.PermissionAdd? || c.PermissionRemove? || c.UserRoleAssign? || c.UserRoleRemove?
  {}

  /** A call nothing overlaps misses nobody. */
  lemma NoOverlapNoMiss(s: Tables, c: Call, now: Time, t: TenantId, u: UserId)
    requires ReferencesOk(s) && Went(Alone(s), s, c) && Apply(s, c, now).1 == Answer(true)
    ensures Commit(Alone(s), s, c, now) == Apply(s, c, now).0
    ensures !Misses(Alone(s), s, c, now, t, u)
  {
    WentKind(Alone(s), s, c);
    hide Went, ReferencesOk, Apply, Commit, Affected, Grants;
    BumpNobody(s.versions, c.t);
    if c.GroupUpdate? || c.RoleUpdate? {
      SerialEdit(s, c, now);
    } else if c.MemberAdd? || c.MemberRemove? {
      SerialMember(s, c, now);
    } else if c.GroupRoleAssign? || c.GroupRoleRemove? {
      SerialGroupRole(s, c, now);
    } else if c.PermissionAdd? || c.PermissionRemove? {
      SerialPermission(s, c, now);
    } else {
      SerialAssignment(s, c, now);
    }
    EveryCallIsStamped(s, c, now, t, u);
  }

  /** A tenant with one ACTIVE user, group and role, the role carrying p. */
  function SmallTenant(key: string, p: string, members: map<Id, GroupMember>, groupRoles: map<Id, GroupRole>): Tables {
    Tables(map[1 := User(true, true)], map[p := PermissionActive],
           map[(1, 1) := Role(key, Caption(key, None), true)], {(1, 1, p)}, map[],
           map[(1, 1) := Group(key, Caption(key, None), true)], members, groupRoles, {}, map[], map[], {})
  }

  /**
   An overlap: one administrator adds the user to a group while another gives the group a role.  Both look
   at the same tables, the member is committed first, and the role reaches the user without a bump.
   */
  lemma NewMemberMissesNewRole(key: string, p: string) returns (s0: Tables, join: Call, grant: Call)
    ensures ReferencesOk(s0) && join.MemberAdd? && grant.GroupRoleAssign? && join.g == grant.g
    ensures Apply(s0, join, 0).1 == Answer(true) && Apply(s0, grant, 0).1 == Answer(true)
    ensures Misses(Alone(s0), Commit(Alone(s0), s0, join, 0), grant, 0, grant.t, join.u)
  {
    s0 := SmallTenant(key, p, map[], map[]);
    join, grant := MemberAdd(1, 1, 1, 7), GroupRoleAssign(1, 1, 1, 8);
    var s1 := Commit(Alone(s0), s0, join, 0);
    JoinCommits(s0, 7);
    EmptyGroupGetsRole(key, p);
    NewMemberGains(key, p, s1);
    assert s1.groupRoles == map[] && Went(Alone(s0), s1, grant);
    hide SmallTenant, Commit, Apply, Grants, Misses, GroupUsers, GainsFrom, ReferencesOk;
    GroupRoleAssignMissesExactlyWhen(Alone(s0), s1, 1, 1, 1, 8, 0, 1);
  }

  lemma EmptyGroupGetsRole(key: string, p: string)
    ensures var s := SmallTenant(key, p, map[], map[]);
            && ReferencesOk(s) && Apply(s, GroupRoleAssign(1, 1, 1, 8), 0).1 == Answer(true)
            && 1 !in GroupUsers(s, 1, 1, 0)
  {
    hide Bump;
  }

  /** Once in the group the user has nothing yet, so its new role brings a new pair. */
  lemma NewMemberGains(key: string, p: string, s: Tables)
    requires s == SmallTenant(key, p, map[], map[]).(
               groupMembers := map[7 := GroupMember(1, 1, 1, true, Validity(Some(0), None))], versions := s.versions)
    ensures 1 in GroupUsers(s, 1, 1, 0) && GroupActive(s, 1, 1) && GainsFrom(s, 1, 1, 1, 0)
  {
    assert 7 in s.groupMembers && s.groupMembers[7].user == 1;
    NobodyGranted(s, 1, 1, 0);
    hide Grants;
    assert Carries(s, 1, 1, p);
  }

  lemma JoinCommits(s: Tables, id: Id)
    requires GroupActive(s, 1, 1) && UserActive(s, 1) && s.groupMembers == map[]
    ensures Apply(s, MemberAdd(1, 1, 1, id), 0).1 == Answer(true)
    ensures var s1 := Commit(Alone(s), s, MemberAdd(1, 1, 1, id), 0);
            s1 == s.(groupMembers := map[id := GroupMember(1, 1, 1, true, Validity(Some(0), None))],
                versions := s1.versions)
  {
    hide Bump, ReferencesOk;
  }

  /**
   The other direction: the user joins a group while its role is being taken away.  The join bumps and hands
   the role out, the removal takes it back and bumps nobody.
   */
  lemma NewMemberMissesRemoval(key: string, p: string) returns (s0: Tables, join: Call, remove: Call)
    ensures ReferencesOk(s0) && join.MemberAdd? && remove.GroupRoleRemove? && join.g == remove.g
    ensures Apply(s0, join, 0).1 == Answer(true) && Apply(s0, remove, 0).1 == Answer(true)
    ensures Misses(Alone(s0), Commit(Alone(s0), s0, join, 0), remove, 0, remove.t, join.u)
  {
    s0 := SmallTenant(key, p, map[], map[8 := GroupRole(1, 1, 1, true)]);
    join, remove := MemberAdd(1, 1, 1, 7), GroupRoleRemove(1, 1, 1);
    var s1 := Commit(Alone(s0), s0, join, 0);
    JoinCommits(s0, 7);
    RoleIsRemovable(key, p);
    NewMemberLoses(key, p, s1);
    assert 8 in s1.groupRoles && GroupRoleRow(s1.groupRoles[8], 1, 1, 1) && Went(Alone(s0), s1, remove);
    hide SmallTenant, Commit, Apply, Grants, Misses, GroupUsers, LosesWithout, ReferencesOk;
    GroupRoleRemoveMissesExactlyWhen(Alone(s0), s1, 1, 1, 1, 0, 1);
  }

  lemma RoleIsRemovable(key: string, p: string)
    ensures var s := SmallTenant(key, p, map[], map[8 := GroupRole(1, 1, 1, true)]);
            && ReferencesOk(s) && Apply(s, GroupRoleRemove(1, 1, 1), 0).1 == Answer(true)
            && 1 !in GroupUsers(s, 1, 1, 0)
  {
    var s := SmallTenant(key, p, map[], map[8 := GroupRole(1, 1, 1, true)]);
    assert 8 in s.groupRoles && GroupRoleRow(s.groupRoles[8], 1, 1, 1);
    hide Bump;
  }

  /** The group is all the new member has. */
  lemma NewMemberLoses(key: string, p: string, s: Tables)
    requires s == SmallTenant(key, p, map[], map[8 := GroupRole(1, 1, 1, true)]).(
               groupMembers := map[7 := GroupMember(1, 1, 1, true, Validity(Some(0), None))], versions := s.versions)
    ensures 1 in GroupUsers(s, 1, 1, 0) && LosesWithout(s, 1, 1, WithoutGroupRole(1, 1), 0)
  {
    assert 7 in s.groupMembers && s.groupMembers[7].user == 1;
    ThroughGroupBy(s, 1, 1, 1, 0, 7, 8);
    assert Carries(s, 1, 1, p);
    forall r ensures !HasStill(s, 1, 1, r, WithoutGroupRole(1, 1), 0) {
      assert !HasDirect(s, 1, 1, r, 0) && !HasThroughOther(s, 1, 1, r, 1, 0);
    }
    LosesBy(s, 1, 1, WithoutGroupRole(1, 1), 1, p, 0);
  }

  lemma NobodyGranted(s: Tables, t: TenantId, u: UserId, now: Time)
    requires s.userRoles == map[] && s.groupRoles == map[] && s.platformGrants == {}
    ensures Grants(s, t, u, now) == {}
  {
    forall r ensures !HasRole(s, t, u, r, now) {
      assert !HasDirect(s, t, u, r, now) && !HasThroughGroup(s, t, u, r, now);
    }
    hide HasRole;
  }

  /**
   Another: a rename writes back the status it has read.  When the group is switched off in between, the
   rename switches it on again, the members get their grants back, and nobody is bumped.
   */
  lemma RenameRevivesGroup(key: string, p: string, name: string) returns (s0: Tables, disable: Call, rename: Call)
    ensures ReferencesOk(s0) && disable.GroupUpdate? && rename.GroupUpdate? && disable.g == rename.g
    ensures disable.edit.status == Some(false) && rename.edit.status == None
    ensures Misses(Alone(s0), Commit(Alone(s0), s0, disable, 0), rename, 0, 1, 1)
  {
    s0 := SmallTenant(key, p, map[7 := GroupMember(1, 1, 1, true, Validity(None, None))],
        map[8 := GroupRole(1, 1, 1, true)]);
    disable, rename := GroupUpdate(1, 1, Edit(None, None, Some(false))),
      GroupUpdate(1, 1, Edit(Some(name), None, None));
    hide Grants, Commit, Recaption, Bump;
    var s1 := Commit(Alone(s0), s0, disable, 0);
    var s2 := Commit(Alone(s0), s1, rename, 0);
    EditCommits(s0, s0, disable.edit);
    EditCommits(s0, s1, rename.edit);
    BumpNobody(s1.versions, 1);
    GroupOffNoGrants(s1);
    GroupOnGrants(s2, p);
  }

  /** An update writes the columns it has read, edited, over whatever is there at its commit. */
  lemma EditCommits(read: Tables, tables: Tables, e: Edit)
    requires (1, 1) in read.groups && (1, 1) in tables.groups
    ensures var tables' := Commit(Alone(read), tables, GroupUpdate(1, 1, e), 0);
            && tables' == tables.(groups := tables.groups[(1, 1) := EditedGroup(read.groups[(1, 1)], e)],
                                  versions := tables'.versions)
            && (e.status.None? ==> tables'.versions == Bump(tables.versions, 1, {}))
  {
    hide Bump, ReferencesOk, GroupUsers, Recaption;
  }

  lemma GroupOffNoGrants(s: Tables)
    requires s.userRoles == map[] && s.platformGrants == {} && !GroupActive(s, 1, 1)
    requires forall m :: m in s.groupMembers ==> s.groupMembers[m].group == 1
    ensures Grants(s, 1, 1, 0) == {}
  {
    forall r ensures !HasRole(s, 1, 1, r, 0) {
      assert !HasDirect(s, 1, 1, r, 0) && !HasThroughGroup(s, 1, 1, r, 0);
    }
    hide HasRole;
  }

  lemma GroupOnGrants(s: Tables, p: string)
    requires GroupActive(s, 1, 1) && RoleActive(s, 1, 1) && (1, 1, p) in s.rolePermissions && PermissionIsActive(s, p)
    requires 7 in s.groupMembers && s.groupMembers[7] == GroupMember(1, 1, 1, true, Validity(None, None))
    requires 8 in s.groupRoles && s.groupRoles[8] == GroupRole(1, 1, 1, true)
    ensures Grants(s, 1, 1, 0) != {}
  {
    assert Joins(s.groupMembers[7], 1, 1, s.groupMembers[7].group, 0);
    assert Confers(s.groupRoles[8], 1, s.groupMembers[7].group, 1);
    var g: RolePermission := (1, 1, p);
    assert g in s.rolePermissions && HasRole(s, 1, 1, g.1, 0);
    assert (s.roles[(1, 1)].key, p) in TenantGrants(s, 1, 1, 0);
  }
}
