/**
 What access handed out by onboarding adds to a user's grants, and so when it leaves an ACTIVE user
 with new grants under an old authorization version.
 */
module OnboardingGrants {
  import opened Options
  import opened GrantSources
  import opened Rbac
  import opened RbacVersions
  import opened MakerChecker

  ghost predicate FreshRoleIds(s: Tables, ids: Id -> Id) {
    && (forall n :: ids(n) !in s.userRoles)
    && (forall m, n :: ids(m) == ids(n) ==> m == n)
  }

  ghost predicate FreshMemberIds(s: Tables, ids: Id -> Id) {
    && (forall n :: ids(n) !in s.groupMembers)
    && (forall m, n :: ids(m) == ids(n) ==> m == n)
  }

  /** uuid4() repeats neither itself nor a stored key. */
  ghost predicate FreshIds(s: Tables, ids: Id -> Id) {
    FreshRoleIds(s, ids) && FreshMemberIds(s, ids)
  }

  predicate AlreadyMember(s: Tables, t: TenantId, g: GroupId, u: UserId) {
    exists m :: m in s.groupMembers && MemberRow(s.groupMembers[m], t, g, u)
  }

  lemma AssignedBy(s: Tables, t: TenantId, u: UserId, r: RoleId, a: Id)
    requires a in s.userRoles && UserRoleRow(s.userRoles[a], t, u, r)
    ensures AlreadyAssigned(s, t, u, r)
  {}

  lemma MemberBy(s: Tables, t: TenantId, g: GroupId, u: UserId, m: Id)
    requires m in s.groupMembers && MemberRow(s.groupMembers[m], t, g, u)
    ensures AlreadyMember(s, t, g, u)
  {}

  // ---------------------------------------------------------------------------------------------
  // The two loops
  // ---------------------------------------------------------------------------------------------

  /** What the role loop has done: the listed roles without an ACTIVE assignment have one from now on. */
  ghost predicate RolesGranted(s: Tables, s': Tables, t: TenantId, u: UserId, roles: seq<RoleId>, ids: Id -> Id,
      now: Time)
  {
    && s' == s.(userRoles := s'.userRoles)
    && (forall a :: a in s.userRoles ==> a in s'.userRoles && s'.userRoles[a] == s.userRoles[a])
    && (forall a :: a in s'.userRoles && a !in s.userRoles ==>
          && (exists k :: 0 <= k < |roles| && a == ids(k))
          && s'.userRoles[a].role in roles && !AlreadyAssigned(s, t, u, s'.userRoles[a].role)
          && Assigns(s'.userRoles[a], t, u, s'.userRoles[a].role, now))
    && (forall r :: r in roles ==> AlreadyAssigned(s', t, u, r))
  }

  lemma {:induction false} GrantRolesGrants(s: Tables, t: TenantId, u: UserId, roles: seq<RoleId>, actor: UserId,
      ids: Id -> Id, now: Time)
    requires FreshRoleIds(s, ids)
    ensures RolesGranted(s, GrantRoles(s, t, u, roles, actor, ids, now), t, u, roles, ids, now)
  {
    if roles != [] {
      var n := |roles| - 1;
      GrantRolesGrants(s, t, u, roles[..n], actor, ids, now);
      var s1 := GrantRoles(s, t, u, roles[..n], actor, ids, now);
      GrantOneRole(s, s1, t, u, roles, actor, ids, now);
    }
  }

  lemma GrantOneRole(s: Tables, s1: Tables, t: TenantId, u: UserId, roles: seq<RoleId>, actor: UserId, ids: Id -> Id,
      now: Time)
    requires FreshRoleIds(s, ids) && roles != [] && RolesGranted(s, s1, t, u, roles[..|roles| - 1], ids, now)
    ensures var n := |roles| - 1;
            ids(n) !in s1.userRoles
            && RolesGranted(s, if AlreadyAssigned(s1, t, u, roles[n]) then s1
                               else s1.(userRoles := s1.userRoles[ids(n) := UserRole(t, u, roles[n], true,
                                   Validity(Some(now), None), actor)]),
                            t, u, roles, ids, now)
  {
    var n := |roles| - 1;
    assert forall r :: r in roles <==> r in roles[..n] || r == roles[n];
    if AlreadyAssigned(s1, t, u, roles[n]) {
      assert RolesGranted(s, s1, t, u, roles, ids, now);
    } else {
      var row := UserRole(t, u, roles[n], true, Validity(Some(now), None), actor);
      NewRoleRow(s, s1, t, u, roles, row, ids, now);
    }
  }

  /** A row that is kept or added leaves what was assigned assigned. */
  lemma StaysAssigned(s: Tables, s': Tables, t: TenantId, u: UserId, r: RoleId)
    requires forall a :: a in s.userRoles ==> a in s'.userRoles && s'.userRoles[a] == s.userRoles[a]
    ensures AlreadyAssigned(s, t, u, r) ==> AlreadyAssigned(s', t, u, r)
  {
    if a :| a in s.userRoles && UserRoleRow(s.userRoles[a], t, u, r) {
      AssignedBy(s', t, u, r, a);
    }
  }

  lemma NewRoleRow(s: Tables, s1: Tables, t: TenantId, u: UserId, roles: seq<RoleId>, row: UserRole, ids: Id -> Id,
      now: Time)
    requires FreshRoleIds(s, ids) && roles != [] && RolesGranted(s, s1, t, u, roles[..|roles| - 1], ids, now)
    requires !AlreadyAssigned(s1, t, u, roles[|roles| - 1]) && Assigns(row, t, u, roles[|roles| - 1], now)
    ensures ids(|roles| - 1) !in s1.userRoles
    ensures RolesGranted(s, s1.(userRoles := s1.userRoles[ids(|roles| - 1) := row]), t, u, roles, ids, now)
  {
    var n := |roles| - 1;
    var s' := s1.(userRoles := s1.userRoles[ids(n) := row]);
    StaysAssigned(s, s1, t, u, roles[n]);
    AssignedBy(s', t, u, roles[n], ids(n));
    hide AlreadyAssigned;
    assert forall k :: 0 <= k < n ==> ids(k) != ids(n);
    assert forall r :: r in roles <==> r in roles[..n] || r == roles[n];
    forall r | r in roles ensures AlreadyAssigned(s', t, u, r) {
      if r != roles[n] {
        StaysAssigned(s1, s', t, u, r);
      }
    }
  }

  /** What the group loop has done: the listed groups without an ACTIVE membership have one from now on. */
  ghost predicate GroupsGranted(s: Tables, s': Tables, t: TenantId, u: UserId, groups: seq<GroupId>, ids: Id -> Id,
      now: Time)
  {
    && s' == s.(groupMembers := s'.groupMembers)
    && (forall m :: m in s.groupMembers ==> m in s'.groupMembers && s'.groupMembers[m] == s.groupMembers[m])
    && (forall m :: m in s'.groupMembers && m !in s.groupMembers ==>
          && (exists k :: 0 <= k < |groups| && m == ids(k))
          && s'.groupMembers[m].group in groups && !AlreadyMember(s, t, s'.groupMembers[m].group, u)
          && Joins(s'.groupMembers[m], t, u, s'.groupMembers[m].group, now))
    && (forall g :: g in groups ==> AlreadyMember(s', t, g, u))
  }

  lemma StaysMember(s: Tables, s': Tables, t: TenantId, g: GroupId, u: UserId)
    requires forall m :: m in s.groupMembers ==> m in s'.groupMembers && s'.groupMembers[m] == s.groupMembers[m]
    ensures AlreadyMember(s, t, g, u) ==> AlreadyMember(s', t, g, u)
  {
    if m :| m in s.groupMembers && MemberRow(s.groupMembers[m], t, g, u) {
      MemberBy(s', t, g, u, m);
    }
  }

  lemma NewMemberRow(s: Tables, s1: Tables, t: TenantId, u: UserId, groups: seq<GroupId>, row: GroupMember,
      ids: Id -> Id, now: Time)
    requires FreshMemberIds(s, ids) && groups != [] && GroupsGranted(s, s1, t, u, groups[..|groups| - 1], ids, now)
    requires !AlreadyMember(s1, t, groups[|groups| - 1], u) && Joins(row, t, u, groups[|groups| - 1], now)
    ensures ids(|groups| - 1) !in s1.groupMembers
    ensures GroupsGranted(s, s1.(groupMembers := s1.groupMembers[ids(|groups| - 1) := row]), t, u, groups, ids, now)
  {
    var n := |groups| - 1;
    var s' := s1.(groupMembers := s1.groupMembers[ids(n) := row]);
    StaysMember(s, s1, t, groups[n], u);
    MemberBy(s', t, groups[n], u, ids(n));
    hide AlreadyMember;
    assert forall k :: 0 <= k < n ==> ids(k) != ids(n);
    assert forall g :: g in groups <==> g in groups[..n] || g == groups[n];
    forall g | g in groups ensures AlreadyMember(s', t, g, u) {
      if g != groups[n] {
        StaysMember(s1, s', t, g, u);
      }
    }
  }

  lemma {:induction false} GrantGroupsGrants(s: Tables, t: TenantId, u: UserId, groups: seq<GroupId>, ids: Id -> Id,
      now: Time)
    requires FreshMemberIds(s, ids)
    ensures GroupsGranted(s, GrantGroups(s, t, u, groups, ids, now), t, u, groups, ids, now)
  {
    if groups != [] {
      var n := |groups| - 1;
      GrantGroupsGrants(s, t, u, groups[..n], ids, now);
      var s1 := GrantGroups(s, t, u, groups[..n], ids, now);
      if AlreadyMember(s1, t, groups[n], u) {
        assert forall g :: g in groups <==> g in groups[..n] || g == groups[n];
      } else {
        NewMemberRow(s, s1, t, u, groups, GroupMember(t, groups[n], u, true, Validity(Some(now), None)), ids, now);
      }
    }
  }

  // ---------------------------------------------------------------------------------------------
  // The grants
  // ---------------------------------------------------------------------------------------------

  /** A listed group u has not joined yet confers r. */
  ghost predicate ConferredAnew(s: Tables, t: TenantId, u: UserId, groups: seq<GroupId>, r: RoleId) {
    exists g :: g in groups && !AlreadyMember(s, t, g, u) && GroupConfers(s, t, g, r)
  }

  /** Role r is handed out: listed and not assigned yet, or conferred by a listed group not joined yet. */
  ghost predicate HandsOut(s: Tables, t: TenantId, u: UserId, roles: seq<RoleId>, groups: seq<GroupId>, r: RoleId) {
    (r in roles && !AlreadyAssigned(s, t, u, r)) || ConferredAnew(s, t, u, groups, r)
  }

  /** Whether a move inserts access rows at all: the access is valid and names no privileged role. */
  ghost predicate Inserts(s: Tables, m: Move)
    requires !m.Admin?
  {
    AccessValid(s, m.t, Dedup(m.roles), Dedup(m.groups)) && PrivilegedOf(s, m.t, Dedup(m.roles)) == []
  }

  lemma RoleLoopRoles(s: Tables, s': Tables, t: TenantId, u: UserId, roles: seq<RoleId>, ids: Id -> Id, now: Time,
      t': TenantId, u': UserId, r: RoleId)
    requires RolesGranted(s, s', t, u, roles, ids, now)
    ensures HasDirect(s', t', u', r, now) <==>
              HasDirect(s, t', u', r, now) || (t' == t && u' == u && r in roles && !AlreadyAssigned(s, t, u, r))
    ensures HasThroughGroup(s', t', u', r, now) <==> HasThroughGroup(s, t', u', r, now)
  {
    if a :| a in s.userRoles && Assigns(s.userRoles[a], t', u', r, now) {
      assert a in s'.userRoles && Assigns(s'.userRoles[a], t', u', r, now);
    }
    if t' == t && u' == u && r in roles && !AlreadyAssigned(s, t, u, r) {
      var a :| a in s'.userRoles && UserRoleRow(s'.userRoles[a], t, u, r);
      assert a !in s.userRoles;
      assert Assigns(s'.userRoles[a], t, u, r, now);
    }
  }

  lemma GroupLoopRoles(s: Tables, s': Tables, t: TenantId, u: UserId, groups: seq<GroupId>, ids: Id -> Id, now: Time,
      t': TenantId, u': UserId, r: RoleId)
    requires GroupsGranted(s, s', t, u, groups, ids, now) && (forall g :: g in groups ==> GroupActive(s, t, g))
    ensures HasDirect(s', t', u', r, now) <==> HasDirect(s, t', u', r, now)
    ensures HasThroughGroup(s', t', u', r, now) <==>
              || HasThroughGroup(s, t', u', r, now)
              || (t' == t && u' == u && ConferredAnew(s, t, u, groups, r))
  {
    if HasThroughGroup(s, t', u', r, now) {
      GroupLoopKeeps(s, s', t, u, groups, ids, now, t', u', r);
    } else if HasThroughGroup(s', t', u', r, now) {
      GroupLoopExplains(s, s', t, u, groups, ids, now, t', u', r);
    }
    if t' == t && u' == u {
      forall g | g in groups && !AlreadyMember(s, t, g, u) && GroupConfers(s, t, g, r)
        ensures HasThroughGroup(s', t, u, r, now)
      {
        GroupLoopJoins(s, s', t, u, groups, ids, now, g, r);
      }
    }
  }

  lemma GroupLoopKeeps(s: Tables, s': Tables, t: TenantId, u: UserId, groups: seq<GroupId>, ids: Id -> Id, now: Time,
      t': TenantId, u': UserId, r: RoleId)
    requires GroupsGranted(s, s', t, u, groups, ids, now) && HasThroughGroup(s, t', u', r, now)
    ensures HasThroughGroup(s', t', u', r, now)
  {
    var m, a :| m in s.groupMembers && a in s.groupRoles
                && Joins(s.groupMembers[m], t', u', s.groupMembers[m].group, now)
                && GroupActive(s, t', s.groupMembers[m].group)
                   && Confers(s.groupRoles[a], t', s.groupMembers[m].group, r);
    ThroughGroupBy(s', t', u', r, now, m, a);
  }

  lemma GroupLoopJoins(s: Tables, s': Tables, t: TenantId, u: UserId, groups: seq<GroupId>, ids: Id -> Id, now: Time,
      g: GroupId, r: RoleId)
    requires GroupsGranted(s, s', t, u, groups, ids, now) && g in groups && GroupActive(s, t, g)
    requires !AlreadyMember(s, t, g, u) && GroupConfers(s, t, g, r)
    ensures HasThroughGroup(s', t, u, r, now)
  {
    var m :| m in s'.groupMembers && MemberRow(s'.groupMembers[m], t, g, u);
    assert m !in s.groupMembers;
    var a :| a in s.groupRoles && Confers(s.groupRoles[a], t, g, r);
    ThroughGroupBy(s', t, u, r, now, m, a);
  }

  lemma GroupLoopExplains(s: Tables, s': Tables, t: TenantId, u: UserId, groups: seq<GroupId>, ids: Id -> Id,
      now: Time, t': TenantId, u': UserId, r: RoleId)
    requires GroupsGranted(s, s', t, u, groups, ids, now) && HasThroughGroup(s', t', u', r, now)
             && !HasThroughGroup(s, t', u', r, now)
    ensures t' == t && u' == u && ConferredAnew(s, t, u, groups, r)
  {
    var m, a :| m in s'.groupMembers && a in s'.groupRoles
                && Joins(s'.groupMembers[m], t', u', s'.groupMembers[m].group, now)
                && GroupActive(s', t', s'.groupMembers[m].group)
                   && Confers(s'.groupRoles[a], t', s'.groupMembers[m].group, r);
    assert m !in s.groupMembers;
    assert GroupConfers(s, t, s'.groupMembers[m].group, r);
  }

  lemma InsertsAreLoops(s: Tables, m: Move, now: Time)
    requires !m.Admin? && Inserts(s, m)
    ensures var actor := if m.Accept? then m.invitedBy else m.actor;
            Do(s, m, now)
              == GrantGroups(GrantRoles(s, m.t, m.u, Dedup(m.roles), actor, m.ids, now), m.t, m.u, Dedup(m.groups),
                  m.ids, now)
  {
    hide Dedup, PrivilegedOf, AccessValid, GrantGroups, GrantRoles;
  }

  lemma {:induction false} RoleRowsSay(
    s: Tables, t: TenantId, u: UserId, roles: seq<RoleId>, actor: UserId, ids: Id -> Id, now: Time, a: Id)
    requires var s' := GrantRoles(s, t, u, roles, actor, ids, now);
             a in s'.userRoles && (a !in s.userRoles || s'.userRoles[a] != s.userRoles[a])
    ensures var row := GrantRoles(s, t, u, roles, actor, ids, now).userRoles[a];
            row.role in roles && row == UserRole(t, u, row.role, true, Validity(Some(now), None), actor)
  {
    if roles != [] {
      var n := |roles| - 1;
      var s1 := GrantRoles(s, t, u, roles[..n], actor, ids, now);
      hide AlreadyAssigned;
      if a in s1.userRoles && (a !in s.userRoles || s1.userRoles[a] != s.userRoles[a]) {
        RoleRowsSay(s, t, u, roles[..n], actor, ids, now, a);
      }
    }
  }

  lemma {:induction false} GroupRowsSay(
    s: Tables, t: TenantId, u: UserId, groups: seq<GroupId>, ids: Id -> Id, now: Time, a: Id)
    requires var s' := GrantGroups(s, t, u, groups, ids, now);
             a in s'.groupMembers && (a !in s.groupMembers || s'.groupMembers[a] != s.groupMembers[a])
    ensures var s' := GrantGroups(s, t, u, groups, ids, now);
            var row := s'.groupMembers[a];
            row.group in groups && row == GroupMember(t, row.group, u, true, Validity(Some(now), None))
  {
    if groups != [] {
      var n := |groups| - 1;
      var s1 := GrantGroups(s, t, u, groups[..n], ids, now);
      hide MemberRow;
      if a in s1.groupMembers && (a !in s.groupMembers || s1.groupMembers[a] != s.groupMembers[a]) {
        GroupRowsSay(s, t, u, groups[..n], ids, now, a);
      }
    }
  }

  /**
   Whatever access rows a move inserts are its user's in its tenant, for something it lists, ACTIVE from now on
   without end, and name as assigner whoever invited or approved.
   */
  lemma InsertedRowsSay(s: Tables, m: Move, now: Time, a: Id)
    requires !m.Admin? && Inserts(s, m)
    ensures var s', actor := Do(s, m, now), if m.Accept? then m.invitedBy else m.actor;
            && (a in s'.userRoles && (a !in s.userRoles || s'.userRoles[a] != s.userRoles[a]) ==>
                  && s'.userRoles[a].role in m.roles
                  && s'.userRoles[a]
                     == UserRole(m.t, m.u, s'.userRoles[a].role, true, Validity(Some(now), None), actor))
            && (a in s'.groupMembers && (a !in s.groupMembers || s'.groupMembers[a] != s.groupMembers[a]) ==>
                  && s'.groupMembers[a].group in m.groups
                  && s'.groupMembers[a]
                     == GroupMember(m.t, s'.groupMembers[a].group, m.u, true, Validity(Some(now), None)))
  {
    var s', actor := Do(s, m, now), if m.Accept? then m.invitedBy else m.actor;
    var s1 := GrantRoles(s, m.t, m.u, Dedup(m.roles), actor, m.ids, now);
    InsertsAreLoops(s, m, now);
    RoleLoopKeeps(s, m.t, m.u, Dedup(m.roles), actor, m.ids, now);
    MemberLoopKeeps(s1, m.t, m.u, Dedup(m.groups), m.ids, now);
    if a in s1.userRoles && (a !in s.userRoles || s1.userRoles[a] != s.userRoles[a]) {
      RoleRowsSay(s, m.t, m.u, Dedup(m.roles), actor, m.ids, now, a);
    }
    if a in s'.groupMembers && (a !in s1.groupMembers || s'.groupMembers[a] != s1.groupMembers[a]) {
      GroupRowsSay(s1, m.t, m.u, Dedup(m.groups), m.ids, now, a);
    }
    hide Do, Inserts, GrantRoles, GrantGroups, Dedup;
  }

  /** Each loop writes its own table. */
  lemma {:induction false} RoleLoopKeeps(
    s: Tables, t: TenantId, u: UserId, roles: seq<RoleId>, actor: UserId, ids: Id -> Id, now: Time)
    ensures var s1 := GrantRoles(s, t, u, roles, actor, ids, now); s1 == s.(userRoles := s1.userRoles)
  {
    hide AlreadyAssigned;
    if roles != [] {
      RoleLoopKeeps(s, t, u, roles[..|roles| - 1], actor, ids, now);
    }
  }

  lemma {:induction false} MemberLoopKeeps(
    s: Tables, t: TenantId, u: UserId, groups: seq<GroupId>, ids: Id -> Id, now: Time)
    ensures var s1 := GrantGroups(s, t, u, groups, ids, now); s1 == s.(groupMembers := s1.groupMembers)
  {
    hide MemberRow;
    if groups != [] {
      MemberLoopKeeps(s, t, u, groups[..|groups| - 1], ids, now);
    }
  }

  /** A move that inserts access gives its user exactly the ACTIVE roles it hands out, and nobody else anything. */
  lemma InsertedRoles(s: Tables, m: Move, now: Time, t: TenantId, u: UserId, r: RoleId)
    requires !m.Admin? && Inserts(s, m) && FreshIds(s, m.ids)
    ensures HasRole(Do(s, m, now), t, u, r, now) <==>
              || HasRole(s, t, u, r, now)
              || (t == m.t && u == m.u && RoleActive(s, t, r) && HandsOut(s, t, u, Dedup(m.roles), Dedup(m.groups), r))
  {
    var roles, groups := Dedup(m.roles), Dedup(m.groups);
    var actor := if m.Accept? then m.invitedBy else m.actor;
    var s1 := GrantRoles(s, m.t, m.u, roles, actor, m.ids, now);
    GrantRolesGrants(s, m.t, m.u, roles, actor, m.ids, now);
    LaterGroups(s, s1, m.t, m.u, roles, groups, m.ids, now);
    RoleLoopRoles(s, s1, m.t, m.u, roles, m.ids, now, t, u, r);
    var s2 := GrantGroups(s1, m.t, m.u, groups, m.ids, now);
    GroupLoopRoles(s1, s2, m.t, m.u, groups, m.ids, now, t, u, r);
    InsertsAreLoops(s, m, now);
    assert s2.roles == s1.roles == s.roles;
    hide Do, Inserts, RolesGranted, GroupsGranted, GrantRoles, GrantGroups, AlreadyAssigned, AlreadyMember, HasDirect,
        HasThroughGroup, ConferredAnew;
    hide Dedup, PrivilegedOf, AccessValid, FreshRoleIds, FreshMemberIds;
  }

  /** The group loop does not look at the assignments the role loop has just made. */
  lemma LaterGroups(s: Tables, s1: Tables, t: TenantId, u: UserId, roles: seq<RoleId>, groups: seq<GroupId>,
      ids: Id -> Id, now: Time)
    requires FreshIds(s, ids) && RolesGranted(s, s1, t, u, roles, ids, now)
    ensures GroupsGranted(s1, GrantGroups(s1, t, u, groups, ids, now), t, u, groups, ids, now)
    ensures forall r :: ConferredAnew(s1, t, u, groups, r) <==> ConferredAnew(s, t, u, groups, r)
  {
    GrantGroupsGrants(s1, t, u, groups, ids, now);
    assert forall g :: AlreadyMember(s1, t, g, u) <==> AlreadyMember(s, t, g, u);
    assert forall g, r :: GroupConfers(s1, t, g, r) <==> GroupConfers(s, t, g, r);
    hide GrantGroups, GroupsGranted;
  }

  // ---------------------------------------------------------------------------------------------
  // The theorems
  // ---------------------------------------------------------------------------------------------

  /**
   The move hands its user an ACTIVE role that carries an ACTIVE permission the user has not got under that
   role key.
   */
  ghost predicate HandsOutNewGrant(s: Tables, m: Move, now: Time)
    requires !m.Admin?
  {
    exists r, p ::
      && (m.t, r, p) in s.rolePermissions && PermissionIsActive(s, p) && RoleActive(s, m.t, r)
      && HandsOut(s, m.t, m.u, Dedup(m.roles), Dedup(m.groups), r)
      && (s.roles[(m.t, r)].key, p) !in Grants(s, m.t, m.u, now)
  }

  /** Without inserts nothing that grants changes. */
  lemma NoInsertsNoGrants(s: Tables, m: Move, now: Time, t: TenantId, u: UserId)
    requires !m.Admin? && !Inserts(s, m)
    ensures Grants(Do(s, m, now), t, u, now) == Grants(s, t, u, now)
  {
    var roles, groups := Dedup(m.roles), Dedup(m.groups);
    if AccessValid(s, m.t, roles, groups) && m.Accept? {
      RequestRolesKeeps(s, m.t, m.u, PrivilegedOf(s, m.t, roles), m.invitedBy, m.ids);
    }
    hide Grants, AccessValid, RequestRoles, GrantRoles, GrantGroups;
    RequestsFrame(s, Do(s, m, now), t, u, now);
  }

  lemma InsertsFrame(s: Tables, m: Move, now: Time)
    requires !m.Admin? && Inserts(s, m) && FreshIds(s, m.ids)
    ensures var s' := Do(s, m, now); s' == s.(userRoles := s'.userRoles, groupMembers := s'.groupMembers)
  {
    var roles, groups := Dedup(m.roles), Dedup(m.groups);
    var actor := if m.Accept? then m.invitedBy else m.actor;
    var s1 := GrantRoles(s, m.t, m.u, roles, actor, m.ids, now);
    GrantRolesGrants(s, m.t, m.u, roles, actor, m.ids, now);
    LaterGroups(s, s1, m.t, m.u, roles, groups, m.ids, now);
    hide GrantRoles, GrantGroups, AlreadyAssigned, AlreadyMember, GroupConfers;
  }

  /** Nothing is taken away. */
  lemma InsertsOnlyAdd(s: Tables, m: Move, now: Time, t: TenantId, u: UserId)
    requires !m.Admin? && Inserts(s, m) && FreshIds(s, m.ids)
    ensures Grants(s, t, u, now) <= Grants(Do(s, m, now), t, u, now)
  {
    hide Inserts, TenantGrants, HasRole, HandsOut, FreshIds, Do;
    var s' := Do(s, m, now);
    InsertsFrame(s, m, now);
    forall g | g in TenantGrants(s, t, u, now) ensures g in TenantGrants(s', t, u, now) {
      var r := GrantHow(s, t, u, now, g);
      InsertedRoles(s, m, now, t, u, r);
      GrantBy(s', t, u, now, r, g.1);
    }
  }

  /** A pair that is new comes from a role the move hands out. */
  lemma NewGrantIsHandedOut(s: Tables, m: Move, now: Time, t: TenantId, u: UserId, g: (string, string))
    requires !m.Admin? && Inserts(s, m) && FreshIds(s, m.ids)
    requires g in Grants(Do(s, m, now), t, u, now) && g !in Grants(s, t, u, now)
    ensures t == m.t && u == m.u && HandsOutNewGrant(s, m, now)
  {
    var s' := Do(s, m, now);
    InsertsFrame(s, m, now);
    assert g in TenantGrants(s', t, u, now);
    var r := GrantHow(s', t, u, now, g);
    InsertedRoles(s, m, now, t, u, r);
    if HasRole(s, t, u, r, now) {
      GrantBy(s, t, u, now, r, g.1);
    }
    hide TenantGrants, HasRole, Inserts, FreshIds, Do;
  }

  lemma HandedOutIsNewGrant(s: Tables, m: Move, now: Time)
    requires !m.Admin? && Inserts(s, m) && FreshIds(s, m.ids) && HandsOutNewGrant(s, m, now)
    ensures Grants(Do(s, m, now), m.t, m.u, now) != Grants(s, m.t, m.u, now)
  {
    hide HasRole, HandsOut, Inserts, FreshIds, Do, TenantGrants;
    var r, p :| (m.t, r, p) in s.rolePermissions && PermissionIsActive(s, p) && RoleActive(s, m.t, r)
                && HandsOut(s, m.t, m.u, Dedup(m.roles), Dedup(m.groups), r)
                && (s.roles[(m.t, r)].key, p) !in Grants(s, m.t, m.u, now);
    InsertsFrame(s, m, now);
    InsertedRoles(s, m, now, m.t, m.u, r);
    GrantBy(Do(s, m, now), m.t, m.u, now, r, p);
  }

  /**
   Exactly when access handed out by onboarding changes what somebody is granted: it is inserted at all,
   the user is the one it is for, and some role it hands out brings a pair the user does not have.
   */
  lemma GrantsChangeExactlyWhen(s: Tables, m: Move, now: Time, t: TenantId, u: UserId)
    requires !m.Admin? && FreshIds(s, m.ids)
    ensures Grants(Do(s, m, now), t, u, now) != Grants(s, t, u, now) <==>
              t == m.t && u == m.u && Inserts(s, m) && HandsOutNewGrant(s, m, now)
  {
    hide Inserts, Grants, HandsOutNewGrant, Do, FreshIds;
    if !Inserts(s, m) {
      NoInsertsNoGrants(s, m, now, t, u);
    } else {
      InsertsOnlyAdd(s, m, now, t, u);
      if g :| g in Grants(Do(s, m, now), t, u, now) && g !in Grants(s, t, u, now) {
        NewGrantIsHandedOut(s, m, now, t, u, g);
      }
      if t == m.t && u == m.u && HandsOutNewGrant(s, m, now) {
        HandedOutIsNewGrant(s, m, now);
      }
    }
  }

  /**
   The version promise of the administrative calls fails for onboarding exactly then: an ACTIVE user's
   grants change in a tenant and the version there stands still.
   */
  lemma VersionMissesExactlyWhen(s: Tables, m: Move, now: Time, t: TenantId, u: UserId)
    requires !m.Admin? && FreshIds(s, m.ids) && UserActive(s, u)
    ensures !Stamped(s, Do(s, m, now), m.t, {m.u}, t, u, now) <==>
              t == m.t && u == m.u && Inserts(s, m) && HandsOutNewGrant(s, m, now)
  {
    GrantsChangeExactlyWhen(s, m, now, t, u);
    OnboardingRaisesNoVersion(s, m, now);
    hide Inserts, Grants, HandsOutNewGrant, Do, FreshIds;
  }

  // ---------------------------------------------------------------------------------------------
  // An input
  // ---------------------------------------------------------------------------------------------

  /** One tenant with one role that carries one permission, and two users without roles. */
  function OneRole(key: string, p: string): Tables {
    Tables(map[1 := User(true, true), 2 := User(true, true)], map[p := PermissionActive],
           map[(1, 1) := Role(key, Caption(key, None), true)], {(1, 1, p)}, map[], map[], map[], map[], {}, map[],
             map[], {})
  }

  /** User 2 approves the self-registration of user 1 with that role. */
  function FirstRole(): Move {
    ApproveSelf(1, 1, 2, [1], [], n => n)
  }

  lemma JustOne(s: Tables, t: TenantId, r: RoleId)
    ensures Dedup([r]) == [r] && Dedup<GroupId>([]) == []
    ensures !Privileged(s, t, r) ==> PrivilegedOf(s, t, [r]) == []
  {
    var front := [r][..0];
    assert front == [] && Dedup(front) == [] && PrivilegedOf(s, t, front) == [];
    hide Privileged;
  }

  lemma FirstRoleIsInserted(key: string, p: string)
    ensures Inserts(OneRole(key, p), FirstRole()) && FreshIds(OneRole(key, p), FirstRole().ids)
    ensures Dedup([1]) == [1]
  {
    JustOne(OneRole(key, p), 1, 1);
    hide Dedup, PrivilegedOf;
  }

  lemma NobodyHasAnything(key: string, p: string, now: Time)
    ensures ReferencesOk(OneRole(key, p)) && Grants(OneRole(key, p), 1, 1, now) == {}
  {
    var s := OneRole(key, p);
    forall r ensures !HasRole(s, 1, 1, r, now) {}
  }

  lemma FirstRoleIsNewGrant(key: string, p: string, now: Time)
    ensures HandsOutNewGrant(OneRole(key, p), FirstRole(), now)
  {
    var s, m := OneRole(key, p), FirstRole();
    FirstRoleIsInserted(key, p);
    NobodyHasAnything(key, p, now);
    assert HandsOut(s, 1, 1, Dedup(m.roles), Dedup(m.groups), 1);
    assert (1, 1, p) in s.rolePermissions && PermissionIsActive(s, p) && RoleActive(s, 1, 1);
    hide Grants, HandsOut, Inserts, FreshIds, ReferencesOk, Dedup;
  }

  /** An input: an approved self-registration gives an ACTIVE user a first role, and the version stands still. */
  lemma ApprovalUnderOldVersion(key: string, p: string) returns (s: Tables, m: Move, now: Time)
    ensures ReferencesOk(s) && m.ApproveSelf? && UserActive(s, m.u) && FreshIds(s, m.ids)
            && KeysReserved(s.privilegedKeys)
    ensures Grants(s, m.t, m.u, now) == {} && Grants(Do(s, m, now), m.t, m.u, now) != {}
    ensures Version(Do(s, m, now), m.u, m.t) == Version(s, m.u, m.t)
  {
    s, m, now := OneRole(key, p), FirstRole(), 0;
    assert UserActive(s, m.u) && KeysReserved(s.privilegedKeys);
    FirstRoleIsInserted(key, p);
    NobodyHasAnything(key, p, now);
    FirstRoleIsNewGrant(key, p, now);
    hide OneRole, Grants, HandsOutNewGrant, Inserts, FreshIds, ReferencesOk, Do;
    GrantsChangeExactlyWhen(s, m, now, 1, 1);
    OnboardingRaisesNoVersion(s, m, now);
  }
}
