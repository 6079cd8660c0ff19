/**
 Tenant RBAC tables, the queries that read them, and what each administrative call does to them.

 A table with a primary key is a map; `id` arguments are the call's uuid4() values, and inserting a
 key that is already there is the IntegrityError the database would raise.  Each call reads the
 clock once (`now`) and is one database transaction: an error leaves the tables as they were.
 */
module Rbac {
  import opened Options

  type TenantId = int
  type UserId = int
  type RoleId = int
  type GroupId = int
  type Id = int
  type Time = int
  type RolePermission = (TenantId, RoleId, string)

  // ---------------------------------------------------------------------------------------------
  // Tables
  // ---------------------------------------------------------------------------------------------

  datatype PermissionStatus = PermissionActive | PermissionDeprecated | PermissionRetired

  datatype User = User(active: bool, principalActive: bool)

  /** The columns people read. */
  datatype Caption = Caption(name: string, description: Option<string>)

  datatype Role = Role(key: string, caption: Caption, active: bool)
  datatype Group = Group(key: string, caption: Caption, active: bool)

  /** The arguments of an update call; an absent one keeps the stored value. */
  datatype Edit = Edit(name: Option<string>, description: Option<string>, status: Option<bool>)

  function Recaption(l: Caption, e: Edit): Caption {
    Caption(if e.name.Some? then e.name.value else l.name,
          if e.description.Some? then e.description else l.description)
  }

  /** valid_from_utc and valid_to_utc. */
  datatype Validity = Validity(from: Option<Time>, to: Option<Time>) {
    predicate Covers(now: Time) {
      && (from.Some? ==> from.value <= now)
      && (to.Some? ==> now < to.value)
    }
  }

  datatype UserRole = UserRole(tenant: TenantId, user: UserId, role: RoleId, active: bool, validity: Validity,
      assignedBy: UserId)
  datatype GroupMember = GroupMember(tenant: TenantId, group: GroupId, user: UserId, active: bool, validity: Validity)
  datatype GroupRole = GroupRole(tenant: TenantId, group: GroupId, role: RoleId, active: bool)

  datatype RequestStatus = Pending | Approved | Rejected
  datatype Request = Request(tenant: TenantId, subject: UserId, role: RoleId, status: RequestStatus,
                             requestedBy: UserId, decidedBy: Option<UserId>)

  datatype Tables = Tables(
    users: map<UserId, User>,
    permissions: map<string, PermissionStatus>,
    roles: map<(TenantId, RoleId), Role>,
    rolePermissions: set<RolePermission>,
    userRoles: map<Id, UserRole>,
    groups: map<(TenantId, GroupId), Group>,
    groupMembers: map<Id, GroupMember>,
    groupRoles: map<Id, GroupRole>,
    // (user, platform role key, permission key) through ACTIVE platform assignments of ACTIVE roles
    platformGrants: set<(UserId, string, string)>,
    versions: Versions,
    requests: map<Id, Request>,
    // PRIVILEGED_ROLE_KEYS, the same frozen set in all three services; no call changes it
    privilegedKeys: set<string>)

  /** The foreign keys among these tables. */
  ghost predicate ReferencesOk(s: Tables) {
    && (forall a :: a in s.userRoles ==> (s.userRoles[a].tenant, s.userRoles[a].role) in s.roles)
    && (forall m :: m in s.groupMembers ==> (s.groupMembers[m].tenant, s.groupMembers[m].group) in s.groups)
    && (forall a :: a in s.groupRoles ==>
          && (s.groupRoles[a].tenant, s.groupRoles[a].group) in s.groups
          && (s.groupRoles[a].tenant, s.groupRoles[a].role) in s.roles)
    && (forall g :: g in s.rolePermissions ==> (g.0, g.1) in s.roles)
    && (forall q :: q in s.requests ==> (s.requests[q].tenant, s.requests[q].role) in s.roles)
  }

  // ---------------------------------------------------------------------------------------------
  // What access is issued for: effective_user_permissions
  // ---------------------------------------------------------------------------------------------

  predicate RoleActive(s: Tables, t: TenantId, r: RoleId) { (t, r) in s.roles && s.roles[(t, r)].active }

  predicate GroupActive(s: Tables, t: TenantId, g: GroupId) { (t, g) in s.groups && s.groups[(t, g)].active }

  predicate PermissionIsActive(s: Tables, p: string) { p in s.permissions && s.permissions[p].PermissionActive? }

  predicate Assigns(a: UserRole, t: TenantId, u: UserId, r: RoleId, now: Time) {
    a.tenant == t && a.user == u && a.role == r && a.active && a.validity.Covers(now)
  }

  predicate Joins(m: GroupMember, t: TenantId, u: UserId, g: GroupId, now: Time) {
    m.tenant == t && m.user == u && m.group == g && m.active && m.validity.Covers(now)
  }

  predicate Confers(a: GroupRole, t: TenantId, g: GroupId, r: RoleId) {
    a.tenant == t && a.group == g && a.role == r && a.active
  }

  ghost predicate HasDirect(s: Tables, t: TenantId, u: UserId, r: RoleId, now: Time) {
    exists a :: a in s.userRoles && Assigns(s.userRoles[a], t, u, r, now)
  }

  ghost predicate HasThroughGroup(s: Tables, t: TenantId, u: UserId, r: RoleId, now: Time) {
    exists m, a :: m in s.groupMembers && a in s.groupRoles
      && Joins(s.groupMembers[m], t, u, s.groupMembers[m].group, now)
      && GroupActive(s, t, s.groupMembers[m].group)
      && Confers(s.groupRoles[a], t, s.groupMembers[m].group, r)
  }

  /** effective_tenant_roles: an ACTIVE role held directly or through an ACTIVE group. */
  ghost predicate HasRole(s: Tables, t: TenantId, u: UserId, r: RoleId, now: Time) {
    RoleActive(s, t, r) && (HasDirect(s, t, u, r, now) || HasThroughGroup(s, t, u, r, now))
  }

  /** The (role key, permission key) pairs u obtains in t through tenant roles. */
  ghost function TenantGrants(s: Tables, t: TenantId, u: UserId, now: Time): set<(string, string)> {
    set g | g in s.rolePermissions && g.0 == t && HasRole(s, t, u, g.1, now) && PermissionIsActive(s, g.2)
      :: (s.roles[(t, g.1)].key, g.2)
  }

  lemma GrantBy(s: Tables, t: TenantId, u: UserId, now: Time, r: RoleId, p: string)
    requires (t, r, p) in s.rolePermissions && HasRole(s, t, u, r, now) && PermissionIsActive(s, p)
    ensures (s.roles[(t, r)].key, p) in TenantGrants(s, t, u, now)
  {
    var g: RolePermission := (t, r, p);
    assert g in s.rolePermissions && g.0 == t && HasRole(s, t, u, g.1, now) && PermissionIsActive(s, g.2);
  }

  lemma GrantHow(s: Tables, t: TenantId, u: UserId, now: Time, pair: (string, string))
    returns (r: RoleId)
    requires pair in TenantGrants(s, t, u, now)
    ensures (t, r, pair.1) in s.rolePermissions && HasRole(s, t, u, r, now) && PermissionIsActive(s, pair.1)
    ensures s.roles[(t, r)].key == pair.0
  {
    var g: RolePermission :|
      && g in s.rolePermissions && g.0 == t && HasRole(s, t, u, g.1, now) && PermissionIsActive(s, g.2)
      && (s.roles[(t, g.1)].key, g.2) == pair;
    r := g.1;
  }

  ghost function PlatformGrants(s: Tables, u: UserId): set<(string, string)> {
    set g | g in s.platformGrants && g.0 == u && PermissionIsActive(s, g.2) :: (g.1, g.2)
  }

  /** effective_grants; access is denied with ROLE_REQUIRED when it is empty. */
  ghost function Grants(s: Tables, t: TenantId, u: UserId, now: Time): set<(string, string)> {
    TenantGrants(s, t, u, now) + PlatformGrants(s, u)
  }

  ghost function EffectiveRoles(s: Tables, t: TenantId, u: UserId, now: Time): set<string> {
    set g | g in Grants(s, t, u, now) :: g.0
  }

  ghost function EffectivePermissions(s: Tables, t: TenantId, u: UserId, now: Time): set<string> {
    set g | g in Grants(s, t, u, now) :: g.1
  }

  type Versions = map<(UserId, TenantId), int>

  /** authorization_version as get_user_context reads it: a missing row counts as version 1. */
  function VersionIn(v: Versions, u: UserId, t: TenantId): int {
    if (u, t) in v then v[(u, t)] else 1
  }

  function Version(s: Tables, u: UserId, t: TenantId): int { VersionIn(s.versions, u, t) }

  // ---------------------------------------------------------------------------------------------
  // The separately written queries of the gate service
  // ---------------------------------------------------------------------------------------------

  /** `_active_membership`: the USER and its principal are ACTIVE. */
  predicate UserActive(s: Tables, u: UserId) { u in s.users && s.users[u].active && s.users[u].principalActive }

  /** `_effective_group_users` */
  function GroupUsers(s: Tables, t: TenantId, g: GroupId, now: Time): set<UserId> {
    set m | m in s.groupMembers
            && s.groupMembers[m].tenant == t && s.groupMembers[m].group == g && s.groupMembers[m].active
            && s.groupMembers[m].validity.Covers(now) && UserActive(s, s.groupMembers[m].user)
      :: s.groupMembers[m].user
  }

  /** `_effective_role_users` */
  function RoleUsers(s: Tables, t: TenantId, r: RoleId, now: Time): set<UserId> {
    (set a | a in s.userRoles
             && s.userRoles[a].tenant == t && s.userRoles[a].role == r && s.userRoles[a].active
             && s.userRoles[a].validity.Covers(now) && UserActive(s, s.userRoles[a].user)
       :: s.userRoles[a].user)
    +
    (set a, m | a in s.groupRoles && m in s.groupMembers
                && s.groupRoles[a].tenant == t && s.groupRoles[a].role == r && s.groupRoles[a].active
                && GroupActive(s, t, s.groupRoles[a].group)
                && s.groupMembers[m].tenant == t && s.groupMembers[m].group == s.groupRoles[a].group
                && s.groupMembers[m].active && s.groupMembers[m].validity.Covers(now)
                && UserActive(s, s.groupMembers[m].user)
       :: s.groupMembers[m].user)
  }

  /** `effective_role_references`: the ACTIVE roles that carry p and that somebody holds right now. */
  function RoleReferences(s: Tables, p: string, now: Time): set<(TenantId, RoleId)> {
    set k | k in s.roles && s.roles[k].active && (k.0, k.1, p) in s.rolePermissions
            && ((exists a :: a in s.userRoles && s.userRoles[a].tenant == k.0 && s.userRoles[a].role == k.1
                             && s.userRoles[a].active && s.userRoles[a].validity.Covers(now))
                || (exists a, m :: a in s.groupRoles && m in s.groupMembers
                                   && s.groupRoles[a].tenant == k.0 && s.groupRoles[a].role == k.1
                                      && s.groupRoles[a].active
                                   && GroupActive(s, k.0, s.groupRoles[a].group)
                                   && s.groupMembers[m].tenant == k.0
                                      && s.groupMembers[m].group == s.groupRoles[a].group
                                   && s.groupMembers[m].active && s.groupMembers[m].validity.Covers(now)))
  }

  // ---------------------------------------------------------------------------------------------
  // Calls
  // ---------------------------------------------------------------------------------------------

  /** How a call ends: an exception, or an answer that says whether anything was created or ended. */
  datatype Outcome = Failed(error: Refusal) | Answer(changed: bool)

  datatype Refusal =
    | GroupNotActive
    | UserNotActive
    | RoleNotActive
    | PermissionNotActive
    | ReservedRoleKey
    | RequestNotDecidable
    | AccessNotValid
    | PrivilegedRoleRefused
    | IntegrityError

  predicate Privileged(s: Tables, t: TenantId, r: RoleId) {
    (t, r) in s.roles && s.roles[(t, r)].key in s.privilegedKeys
  }

  /** `_bump_versions` for every user of the set; the upsert inserts version 2. */
  function Bump(v: Versions, t: TenantId, users: set<UserId>): (v': Versions)
    ensures forall u, t' ::
              VersionIn(v', u, t') == VersionIn(v, u, t') + (if t' == t && u in users then 1 else 0)
  {
    assert forall u :: u in users ==> (u, t) in (set w | w in users :: (w, t));
    map k | k in v.Keys + (set u | u in users :: (u, t))
      :: if k.1 == t && k.0 in users then VersionIn(v, k.0, t) + 1 else v[k]
  }

  function Bumped(s: Tables, t: TenantId, users: set<UserId>): (s': Tables)
    ensures ReferencesOk(s) ==> ReferencesOk(s')
  {
    s.(versions := Bump(s.versions, t, users))
  }

  function CreateGroup(s: Tables, t: TenantId, g: GroupId, key: string, caption: Caption): (r': (Tables, Outcome))
    ensures ReferencesOk(s) ==> ReferencesOk(r'.0)
    ensures r'.0 == s.(groups := r'.0.groups) && (r'.1.Failed? ==> r'.0 == s)
  {
    if (t, g) in s.groups || (exists k :: k in s.groups && k.0 == t && s.groups[k].key == key)
    then (s, Failed(IntegrityError))
    else (s.(groups := s.groups[(t, g) := Group(key, caption, true)]), Answer(true))
  }

  function WithGroup(s: Tables, k: (TenantId, GroupId), row: Group): (s': Tables)
    requires k in s.groups
    ensures ReferencesOk(s) ==> ReferencesOk(s')
  {
    s.(groups := s.groups[k := row])
  }

  function EditedGroup(row: Group, e: Edit): Group {
    row.(caption := Recaption(row.caption, e), active := if e.status.Some? then e.status.value else row.active)
  }

  function UpdateGroup(s: Tables, t: TenantId, g: GroupId, e: Edit, now: Time): (r': (Tables, Outcome))
    ensures ReferencesOk(s) ==> ReferencesOk(r'.0)
    ensures r'.0 == s.(groups := r'.0.groups, versions := r'.0.versions) && (r'.1.Failed? ==> r'.0 == s)
  {
    if (t, g) !in s.groups then (s, Answer(false))
    else
      var row := EditedGroup(s.groups[(t, g)], e);
      var s' := WithGroup(s, (t, g), row);
      (if row.active != s.groups[(t, g)].active then Bumped(s', t, GroupUsers(s, t, g, now)) else s', Answer(true))
  }

  function AddGroupMember(s: Tables, t: TenantId, g: GroupId, u: UserId, id: Id, now: Time): (r': (Tables, Outcome))
    ensures ReferencesOk(s) ==> ReferencesOk(r'.0)
    ensures r'.0 == s.(groupMembers := r'.0.groupMembers, versions := r'.0.versions) && (r'.1.Failed? ==> r'.0 == s)
  {
    if !GroupActive(s, t, g) then (s, Failed(GroupNotActive))
    else if !UserActive(s, u) then (s, Failed(UserNotActive))
    else if exists m :: m in s.groupMembers && MemberRow(s.groupMembers[m], t, g, u) then (s, Answer(false))
    else if id in s.groupMembers then (s, Failed(IntegrityError))
    else
      (Bumped(s.(groupMembers := s.groupMembers[id := GroupMember(t, g, u, true, Validity(Some(now), None))]), t, {u}),
       Answer(true))
  }

  predicate MemberRow(m: GroupMember, t: TenantId, g: GroupId, u: UserId) {
    m.tenant == t && m.group == g && m.user == u && m.active
  }

  function EndMembers(rows: map<Id, GroupMember>, t: TenantId, g: GroupId, u: UserId): (rows': map<Id, GroupMember>)
    ensures rows'.Keys == rows.Keys
    ensures forall m :: m in rows ==>
              rows'[m] == if MemberRow(rows[m], t, g, u) then rows[m].(active := false) else rows[m]
  {
    map m | m in rows :: if MemberRow(rows[m], t, g, u) then rows[m].(active := false) else rows[m]
  }

  function RemoveGroupMember(s: Tables, t: TenantId, g: GroupId, u: UserId): (r': (Tables, Outcome))
    ensures ReferencesOk(s) ==> ReferencesOk(r'.0)
    ensures r'.0 == s.(groupMembers := r'.0.groupMembers, versions := r'.0.versions) && (r'.1.Failed? ==> r'.0 == s)
  {
    if !exists m :: m in s.groupMembers && MemberRow(s.groupMembers[m], t, g, u) then (s, Answer(false))
    else
      (Bumped(s.(groupMembers := EndMembers(s.groupMembers, t, g, u)), t, {u}), Answer(true))
  }

  predicate GroupRoleRow(a: GroupRole, t: TenantId, g: GroupId, r: RoleId) {
    a.tenant == t && a.group == g && a.role == r && a.active
  }

  function AssignGroupRole(s: Tables, t: TenantId, g: GroupId, r: RoleId, id: Id, now: Time): (r': (Tables, Outcome))
    ensures ReferencesOk(s) ==> ReferencesOk(r'.0)
    ensures r'.0 == s.(groupRoles := r'.0.groupRoles, versions := r'.0.versions) && (r'.1.Failed? ==> r'.0 == s)
  {
    if !GroupActive(s, t, g) then (s, Failed(GroupNotActive))
    else if !RoleActive(s, t, r) then (s, Failed(RoleNotActive))
    else if exists a :: a in s.groupRoles && GroupRoleRow(s.groupRoles[a], t, g, r) then (s, Answer(false))
    else if id in s.groupRoles then (s, Failed(IntegrityError))
    else
      var s' := s.(groupRoles := s.groupRoles[id := GroupRole(t, g, r, true)]);
      (Bumped(s', t, GroupUsers(s', t, g, now)), Answer(true))
  }

  function EndGroupRoles(rows: map<Id, GroupRole>, t: TenantId, g: GroupId, r: RoleId): (rows': map<Id, GroupRole>)
    ensures rows'.Keys == rows.Keys
    ensures forall a :: a in rows ==>
              rows'[a] == if GroupRoleRow(rows[a], t, g, r) then rows[a].(active := false) else rows[a]
  {
    map a | a in rows :: if GroupRoleRow(rows[a], t, g, r) then rows[a].(active := false) else rows[a]
  }

  function RemoveGroupRole(s: Tables, t: TenantId, g: GroupId, r: RoleId, now: Time): (r': (Tables, Outcome))
    ensures ReferencesOk(s) ==> ReferencesOk(r'.0)
    ensures r'.0 == s.(groupRoles := r'.0.groupRoles, versions := r'.0.versions) && (r'.1.Failed? ==> r'.0 == s)
  {
    if !exists a :: a in s.groupRoles && GroupRoleRow(s.groupRoles[a], t, g, r) then (s, Answer(false))
    else
      (Bumped(s.(groupRoles := EndGroupRoles(s.groupRoles, t, g, r)), t, GroupUsers(s, t, g, now)), Answer(true))
  }

  predicate StartsWith(text: string, prefix: string) { prefix <= text }

  predicate Distinct(keys: seq<string>) {
    forall i, j :: 0 <= i < j < |keys| ==> keys[i] != keys[j]
  }

  function CreateRole(s: Tables, t: TenantId, r: RoleId, key: string, caption: Caption, permissions: seq<string>):
      (r': (Tables, Outcome))
    ensures ReferencesOk(s) ==> ReferencesOk(r'.0)
    ensures r'.0 == s.(roles := r'.0.roles, rolePermissions := r'.0.rolePermissions) && (r'.1.Failed? ==> r'.0 == s)
  {
    if StartsWith(key, "platform.") || StartsWith(key, "tenant.") then (s, Failed(ReservedRoleKey))
    else if exists p :: p in permissions && !PermissionIsActive(s, p) then (s, Failed(PermissionNotActive))
    else if (t, r) in s.roles || (exists k :: k in s.roles && k.0 == t && s.roles[k].key == key)
      || !Distinct(permissions)
    then (s, Failed(IntegrityError))
    else
      (s.(roles := s.roles[(t, r) := Role(key, caption, true)],
          rolePermissions := s.rolePermissions + set p | p in permissions :: (t, r, p)),
       Answer(true))
  }

  function EditedRole(row: Role, e: Edit): (row': Role)
    ensures row'.key == row.key
  {
    row.(caption := Recaption(row.caption, e), active := if e.status.Some? then e.status.value else row.active)
  }

  function WithRole(s: Tables, k: (TenantId, RoleId), row: Role): (s': Tables)
    requires k in s.roles && row.key == s.roles[k].key
    ensures ReferencesOk(s) ==> ReferencesOk(s')
  {
    s.(roles := s.roles[k := row])
  }

  function UpdateRole(s: Tables, t: TenantId, r: RoleId, e: Edit, now: Time): (r': (Tables, Outcome))
    ensures ReferencesOk(s) ==> ReferencesOk(r'.0)
    ensures r'.0 == s.(roles := r'.0.roles, versions := r'.0.versions) && (r'.1.Failed? ==> r'.0 == s)
  {
    if (t, r) !in s.roles then (s, Answer(false))
    else
      var row := EditedRole(s.roles[(t, r)], e);
      var s' := WithRole(s, (t, r), row);
      (if row.active != s.roles[(t, r)].active then Bumped(s', t, RoleUsers(s, t, r, now)) else s', Answer(true))
  }

  function AddRolePermission(s: Tables, t: TenantId, r: RoleId, p: string, now: Time): (r': (Tables, Outcome))
    ensures ReferencesOk(s) ==> ReferencesOk(r'.0)
    ensures r'.0 == s.(rolePermissions := r'.0.rolePermissions, versions := r'.0.versions)
            && (r'.1.Failed? ==> r'.0 == s)
  {
    if !PermissionIsActive(s, p) then (s, Failed(PermissionNotActive))
    else if !RoleActive(s, t, r) then (s, Failed(RoleNotActive))
    else if (t, r, p) in s.rolePermissions then (s, Answer(false))
    else
      var s' := s.(rolePermissions := s.rolePermissions + {(t, r, p)});
      (Bumped(s', t, RoleUsers(s', t, r, now)), Answer(true))
  }

  function RemoveRolePermission(s: Tables, t: TenantId, r: RoleId, p: string, now: Time): (r': (Tables, Outcome))
    ensures ReferencesOk(s) ==> ReferencesOk(r'.0)
    ensures r'.0 == s.(rolePermissions := r'.0.rolePermissions, versions := r'.0.versions)
            && (r'.1.Failed? ==> r'.0 == s)
  {
    if (t, r, p) !in s.rolePermissions then (s, Answer(false))
    else
      (Bumped(s.(rolePermissions := s.rolePermissions - {(t, r, p)}), t, RoleUsers(s, t, r, now)), Answer(true))
  }

  predicate UserRoleRow(a: UserRole, t: TenantId, u: UserId, r: RoleId) {
    a.tenant == t && a.user == u && a.role == r && a.active
  }

  predicate AlreadyAssigned(s: Tables, t: TenantId, u: UserId, r: RoleId) {
    exists a :: a in s.userRoles && UserRoleRow(s.userRoles[a], t, u, r)
  }

  predicate AlreadyRequested(s: Tables, t: TenantId, u: UserId, r: RoleId) {
    exists q :: q in s.requests && s.requests[q].tenant == t && s.requests[q].subject == u && s.requests[q].role == r
                && s.requests[q].status.Pending?
  }

  /** The ordinary role assignment of the base service. */
  function InsertUserRole(s: Tables, t: TenantId, u: UserId, r: RoleId, actor: UserId, id: Id, now: Time):
      (r': (Tables, Outcome))
    ensures ReferencesOk(s) ==> ReferencesOk(r'.0)
    ensures r'.0 == s.(userRoles := r'.0.userRoles, versions := r'.0.versions) && (r'.1.Failed? ==> r'.0 == s)
  {
    if !UserActive(s, u) then (s, Failed(UserNotActive))
    else if !RoleActive(s, t, r) then (s, Failed(RoleNotActive))
    else if AlreadyAssigned(s, t, u, r) then (s, Answer(false))
    else if id in s.userRoles then (s, Failed(IntegrityError))
    else
      (Bumped(s.(userRoles := s.userRoles[id := UserRole(t, u, r, true, Validity(Some(now), None), actor)]), t, {u}),
       Answer(true))
  }

  /** The gate: ordinary roles are assigned at once, privileged ones become a PENDING request. */
  function AssignUserRole(s: Tables, t: TenantId, u: UserId, r: RoleId, actor: UserId, id: Id, now: Time):
      (r': (Tables, Outcome))
    ensures ReferencesOk(s) ==> ReferencesOk(r'.0)
    ensures r'.0 == s.(userRoles := r'.0.userRoles, versions := r'.0.versions, requests := r'.0.requests)
            && (r'.1.Failed? ==> r'.0 == s)
  {
    if !RoleActive(s, t, r) then (s, Failed(RoleNotActive))
    else if !Privileged(s, t, r) then InsertUserRole(s, t, u, r, actor, id, now)
    else if !UserActive(s, u) then (s, Failed(UserNotActive))
    else if AlreadyAssigned(s, t, u, r) || AlreadyRequested(s, t, u, r) then (s, Answer(false))
    else if id in s.requests then (s, Failed(IntegrityError))
    else (s.(requests := s.requests[id := Request(t, u, r, Pending, actor, None)]), Answer(true))
  }

  /** request_or_assign_user_role looks at the user before the role, and is otherwise the gate. */
  function RequestOrAssign(s: Tables, t: TenantId, u: UserId, r: RoleId, actor: UserId, id: Id, now: Time):
      (r': (Tables, Outcome))
    ensures ReferencesOk(s) ==> ReferencesOk(r'.0)
    ensures r'.0 == s.(userRoles := r'.0.userRoles, versions := r'.0.versions, requests := r'.0.requests)
            && (r'.1.Failed? ==> r'.0 == s)
  {
    if !UserActive(s, u) then (s, Failed(UserNotActive))
    else AssignUserRole(s, t, u, r, actor, id, now)
  }

  function EndUserRoles(rows: map<Id, UserRole>, t: TenantId, u: UserId, r: RoleId, now: Time):
      (rows': map<Id, UserRole>)
    ensures rows'.Keys == rows.Keys
    ensures forall a :: a in rows ==>
              rows'[a] == if UserRoleRow(rows[a], t, u, r)
                          then rows[a].(active := false, validity := rows[a].validity.(to := Some(now)))
                          else rows[a]
  {
    map a | a in rows ::
      if UserRoleRow(rows[a], t, u, r)
      then rows[a].(active := false, validity := rows[a].validity.(to := Some(now)))
      else rows[a]
  }

  function RemoveUserRole(s: Tables, t: TenantId, u: UserId, r: RoleId, now: Time): (r': (Tables, Outcome))
    ensures ReferencesOk(s) ==> ReferencesOk(r'.0)
    ensures r'.0 == s.(userRoles := r'.0.userRoles, versions := r'.0.versions) && (r'.1.Failed? ==> r'.0 == s)
    ensures r'.0.userRoles.Keys == s.userRoles.Keys
    ensures forall a :: a in s.userRoles && r'.0.userRoles[a].active ==> r'.0.userRoles[a] == s.userRoles[a]
  {
    if !AlreadyAssigned(s, t, u, r) then (s, Answer(false))
    else
      (Bumped(s.(userRoles := EndUserRoles(s.userRoles, t, u, r, now)), t, {u}), Answer(true))
  }

  /** `_locked_request` and `_require_pending_and_independent`. */
  predicate Decidable(s: Tables, t: TenantId, q: Id, approver: UserId) {
    && q in s.requests && s.requests[q].tenant == t
    && s.requests[q].status.Pending?
    && s.requests[q].requestedBy != approver
    && s.requests[q].subject != approver
  }

  function ApproveRequest(s: Tables, t: TenantId, q: Id, approver: UserId, id: Id, now: Time): (r': (Tables, Outcome))
    ensures ReferencesOk(s) ==> ReferencesOk(r'.0)
    ensures r'.0 == s.(userRoles := r'.0.userRoles, versions := r'.0.versions, requests := r'.0.requests)
            && (r'.1.Failed? ==> r'.0 == s)
  {
    if !Decidable(s, t, q, approver) then (s, Failed(RequestNotDecidable))
    else
      var Request(_, u, r, _, requestedBy, _) := s.requests[q];
      if !UserActive(s, u) then (s, Failed(UserNotActive))
      else if !RoleActive(s, t, r) then (s, Failed(RoleNotActive))
      else if !AlreadyAssigned(s, t, u, r) && id in s.userRoles then (s, Failed(IntegrityError))
      else
        var s' := if AlreadyAssigned(s, t, u, r) then s
                  else Bumped(s.(userRoles := s.userRoles[id := UserRole(t, u, r, true, Validity(Some(now), None),
                      requestedBy)]),
                              t, {u});
        (s'.(requests := s'.requests[q := s.requests[q].(status := Approved, decidedBy := Some(approver))]),
            Answer(true))
  }

  function RejectRequest(s: Tables, t: TenantId, q: Id, approver: UserId): (r': (Tables, Outcome))
    ensures ReferencesOk(s) ==> ReferencesOk(r'.0)
    ensures r'.0 == s.(requests := r'.0.requests) && (r'.1.Failed? ==> r'.0 == s)
  {
    if !Decidable(s, t, q, approver) then (s, Failed(RequestNotDecidable))
    else
      (s.(requests := s.requests[q := s.requests[q].(status := Rejected, decidedBy := Some(approver))]), Answer(true))
  }
}
