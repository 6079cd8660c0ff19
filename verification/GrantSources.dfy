/**
 Where a granted pair comes from: what a user gains by coming to hold more roles, and what a user loses
 when one role, one group or one role of a group is left out.
 */
module GrantSources {
  import opened Options
  import opened Rbac

  /** Some ACTIVE assignment gives group g the role r. */
  predicate GroupConfers(s: Tables, t: TenantId, g: GroupId, r: RoleId) {
    exists a :: a in s.groupRoles && Confers(s.groupRoles[a], t, g, r)
  }

  /** Role r carries the ACTIVE permission p. */
  predicate Carries(s: Tables, t: TenantId, r: RoleId, p: string) {
    (t, r, p) in s.rolePermissions && PermissionIsActive(s, p) && (t, r) in s.roles
  }

  /** The pair a role grants with a permission it carries. */
  function Pair(s: Tables, t: TenantId, r: RoleId, p: string): (string, string)
    requires (t, r) in s.roles
  {
    (s.roles[(t, r)].key, p)
  }

  // ---------------------------------------------------------------------------------------------
  // Gains and losses
  // ---------------------------------------------------------------------------------------------

  /** Role r carries something u has not got under r's key. */
  ghost predicate Brings(s: Tables, t: TenantId, u: UserId, r: RoleId, now: Time) {
    exists p :: Carries(s, t, r, p) && Pair(s, t, r, p) !in Grants(s, t, u, now)
  }

  /** u would newly obtain a pair if u came to hold role r of tenant t. */
  ghost predicate GainsFrom(s: Tables, t: TenantId, u: UserId, r: RoleId, now: Time) {
    RoleActive(s, t, r) && Brings(s, t, u, r, now)
  }

  /** What is left out of the ways a user comes by roles. */
  datatype Without =
    | WithoutRole(r: RoleId)
    | WithoutGroup(g: GroupId)
    | WithoutGroupRole(g: GroupId, r: RoleId)

  ghost predicate HasThroughOther(s: Tables, t: TenantId, u: UserId, r: RoleId, g: GroupId, now: Time) {
    exists m, a :: m in s.groupMembers && a in s.groupRoles
      && s.groupMembers[m].group != g
      && Joins(s.groupMembers[m], t, u, s.groupMembers[m].group, now)
      && GroupActive(s, t, s.groupMembers[m].group)
      && Confers(s.groupRoles[a], t, s.groupMembers[m].group, r)
  }

  /** u holds the ACTIVE role r directly or through a group other than g. */
  ghost predicate HasElsewhere(s: Tables, t: TenantId, u: UserId, r: RoleId, g: GroupId, now: Time) {
    RoleActive(s, t, r) && (HasDirect(s, t, u, r, now) || HasThroughOther(s, t, u, r, g, now))
  }

  ghost predicate HasStill(s: Tables, t: TenantId, u: UserId, r: RoleId, w: Without, now: Time) {
    match w
    case WithoutRole(r0) => r != r0 && HasRole(s, t, u, r, now)
    case WithoutGroup(g) => HasElsewhere(s, t, u, r, g, now)
    case WithoutGroupRole(g, r0) => if r == r0 then HasElsewhere(s, t, u, r, g, now) else HasRole(s, t, u, r, now)
  }

  /** The pair is granted by a platform role, or by a tenant role u still holds. */
  ghost predicate OtherSource(s: Tables, t: TenantId, u: UserId, w: Without, pair: (string, string), now: Time) {
    || pair in PlatformGrants(s, u)
    || exists r :: HasStill(s, t, u, r, w, now) && Carries(s, t, r, pair.1) && Pair(s, t, r, pair.1) == pair
  }

  /** What is left out is the only source of some pair u has through a tenant role. */
  ghost predicate LosesWithout(s: Tables, t: TenantId, u: UserId, w: Without, now: Time) {
    exists r, p :: HasRole(s, t, u, r, now) && Carries(s, t, r, p) && !OtherSource(s, t, u, w, Pair(s, t, r, p), now)
  }

  // ---------------------------------------------------------------------------------------------
  // Exactly when grants change
  // ---------------------------------------------------------------------------------------------

  /** Permissions, what roles carry, role keys and platform grants agree. */
  ghost predicate SameCarriers(s: Tables, s': Tables) {
    && s'.permissions == s.permissions && s'.platformGrants == s.platformGrants
    && s'.rolePermissions == s.rolePermissions && s'.roles.Keys == s.roles.Keys
    && forall k :: k in s.roles ==> s'.roles[k].key == s.roles[k].key
  }

  lemma TenantGrantBy(s: Tables, t: TenantId, u: UserId, now: Time, r: RoleId, p: string)
    requires HasRole(s, t, u, r, now) && Carries(s, t, r, p)
    ensures Pair(s, t, r, p) in TenantGrants(s, t, u, now)
  {
    GrantBy(s, t, u, now, r, p);
  }

  lemma TenantGrantHow(s: Tables, t: TenantId, u: UserId, now: Time, pair: (string, string)) returns (r: RoleId)
    requires pair in TenantGrants(s, t, u, now)
    ensures HasRole(s, t, u, r, now) && Carries(s, t, r, pair.1) && Pair(s, t, r, pair.1) == pair
  {
    r := GrantHow(s, t, u, now, pair);
  }

  /** Nothing granted through roles that stay is lost. */
  lemma MoreRolesMoreGrants(s: Tables, s': Tables, t: TenantId, u: UserId, now: Time, pair: (string, string))
    requires SameCarriers(s, s') && forall q :: HasRole(s, t, u, q, now) ==> HasRole(s', t, u, q, now)
    requires pair in Grants(s, t, u, now)
    ensures pair in Grants(s', t, u, now)
  {
    hide HasRole, TenantGrants;
    if pair in TenantGrants(s, t, u, now) {
      var r := TenantGrantHow(s, t, u, now, pair);
      TenantGrantBy(s', t, u, now, r, pair.1);
    }
  }

  lemma BringsBy(s: Tables, t: TenantId, u: UserId, r: RoleId, p: string, now: Time)
    requires Carries(s, t, r, p) && Pair(s, t, r, p) !in Grants(s, t, u, now)
    ensures Brings(s, t, u, r, now)
  {}

  /** Coming to hold more roles changes the grants exactly when one of them brings a new pair. */
  lemma GrantsGrowExactlyWhen(s: Tables, s': Tables, t: TenantId, u: UserId, gained: iset<RoleId>, now: Time)
    requires SameCarriers(s, s')
    requires forall q :: HasRole(s', t, u, q, now) <==> HasRole(s, t, u, q, now) || q in gained
    ensures Grants(s', t, u, now) != Grants(s, t, u, now) <==> exists q :: q in gained && Brings(s, t, u, q, now)
  {
    hide HasRole, TenantGrants, PlatformGrants;
    assert PlatformGrants(s', u) == PlatformGrants(s, u) by {
      PlatformAlike(s, s', u);
    }
    forall x | x in Grants(s, t, u, now) ensures x in Grants(s', t, u, now) {
      MoreRolesMoreGrants(s, s', t, u, now, x);
    }
    if x :| x in Grants(s', t, u, now) && x !in Grants(s, t, u, now) {
      var r := GainedThrough(s, s', t, u, gained, now, x);
    }
    if q :| q in gained && Brings(s, t, u, q, now) {
      var p :| Carries(s, t, q, p) && Pair(s, t, q, p) !in Grants(s, t, u, now);
      TenantGrantBy(s', t, u, now, q, p);
    }
  }

  lemma PlatformAlike(s: Tables, s': Tables, u: UserId)
    requires s'.permissions == s.permissions && s'.platformGrants == s.platformGrants
    ensures PlatformGrants(s', u) == PlatformGrants(s, u)
  {}

  lemma GainedThrough(
    s: Tables, s': Tables, t: TenantId, u: UserId, gained: iset<RoleId>, now: Time, x: (string, string))
    returns (r: RoleId)
    requires SameCarriers(s, s')
    requires forall q :: HasRole(s', t, u, q, now) <==> HasRole(s, t, u, q, now) || q in gained
    requires x in Grants(s', t, u, now) && x !in Grants(s, t, u, now)
    ensures r in gained && Brings(s, t, u, r, now)
  {
    PlatformAlike(s, s', u);
    hide HasRole, TenantGrants;
    r := TenantGrantHow(s', t, u, now, x);
    assert r in gained by {
      if HasRole(s, t, u, r, now) {
        TenantGrantBy(s, t, u, now, r, x.1);
      }
    }
    BringsBy(s, t, u, r, x.1, now);
  }

  lemma StillIsRole(s: Tables, t: TenantId, u: UserId, r: RoleId, w: Without, now: Time)
    ensures HasStill(s, t, u, r, w, now) ==> HasRole(s, t, u, r, now)
  {
    forall g ensures HasThroughOther(s, t, u, r, g, now) ==> HasThroughGroup(s, t, u, r, now) {
      if m, a :| m in s.groupMembers && a in s.groupRoles && s.groupMembers[m].group != g
                 && Joins(s.groupMembers[m], t, u, s.groupMembers[m].group, now)
                 && GroupActive(s, t, s.groupMembers[m].group)
                 && Confers(s.groupRoles[a], t, s.groupMembers[m].group, r) {
        ThroughGroupBy(s, t, u, r, now, m, a);
      }
    }
  }

  lemma ThroughGroupBy(s: Tables, t: TenantId, u: UserId, r: RoleId, now: Time, m: Id, a: Id)
    requires m in s.groupMembers && a in s.groupRoles
    requires Joins(s.groupMembers[m], t, u, s.groupMembers[m].group, now)
    requires GroupActive(s, t, s.groupMembers[m].group) && Confers(s.groupRoles[a], t, s.groupMembers[m].group, r)
    ensures HasThroughGroup(s, t, u, r, now)
  {}

  lemma ThroughOtherBy(s: Tables, t: TenantId, u: UserId, r: RoleId, g: GroupId, now: Time, m: Id, a: Id)
    requires m in s.groupMembers && a in s.groupRoles && s.groupMembers[m].group != g
    requires Joins(s.groupMembers[m], t, u, s.groupMembers[m].group, now)
    requires GroupActive(s, t, s.groupMembers[m].group) && Confers(s.groupRoles[a], t, s.groupMembers[m].group, r)
    ensures HasThroughOther(s, t, u, r, g, now)
  {}

  /** With the roles that are left, the pairs granted are those with another source. */
  lemma LeftIsOtherSource(s: Tables, s': Tables, t: TenantId, u: UserId, w: Without, now: Time, pair: (string, string))
    requires SameCarriers(s, s') && forall q :: HasRole(s', t, u, q, now) <==> HasStill(s, t, u, q, w, now)
    ensures pair in Grants(s', t, u, now) <==> OtherSource(s, t, u, w, pair, now)
  {
    PlatformAlike(s, s', u);
    hide HasRole, HasStill, TenantGrants, PlatformGrants;
    if pair in TenantGrants(s', t, u, now) {
      var r := TenantGrantHow(s', t, u, now, pair);
      OtherSourceBy(s, t, u, w, pair, now, r);
    }
    if r :| HasStill(s, t, u, r, w, now) && Carries(s, t, r, pair.1) && Pair(s, t, r, pair.1) == pair {
      TenantGrantBy(s', t, u, now, r, pair.1);
    }
  }

  lemma OtherSourceBy(s: Tables, t: TenantId, u: UserId, w: Without, pair: (string, string), now: Time, r: RoleId)
    requires HasStill(s, t, u, r, w, now) && Carries(s, t, r, pair.1) && Pair(s, t, r, pair.1) == pair
    ensures OtherSource(s, t, u, w, pair, now)
  {}

  lemma LosesBy(s: Tables, t: TenantId, u: UserId, w: Without, r: RoleId, p: string, now: Time)
    requires HasRole(s, t, u, r, now) && Carries(s, t, r, p) && !OtherSource(s, t, u, w, Pair(s, t, r, p), now)
    ensures LosesWithout(s, t, u, w, now)
  {}

  /** Keeping only some roles changes the grants exactly when the others were the only source of a pair. */
  lemma GrantsShrinkExactlyWhen(s: Tables, s': Tables, t: TenantId, u: UserId, w: Without, now: Time)
    requires SameCarriers(s, s') && forall q :: HasRole(s', t, u, q, now) <==> HasStill(s, t, u, q, w, now)
    ensures Grants(s', t, u, now) != Grants(s, t, u, now) <==> LosesWithout(s, t, u, w, now)
  {
    PlatformAlike(s, s', u);
    forall q ensures HasRole(s', t, u, q, now) ==> HasRole(s, t, u, q, now) {
      StillIsRole(s, t, u, q, w, now);
    }
    forall x | x in Grants(s', t, u, now) ensures x in Grants(s, t, u, now) {
      MoreRolesMoreGrants(s', s, t, u, now, x);
    }
    hide HasRole, HasStill, OtherSource, TenantGrants, PlatformGrants;
    if x :| x in Grants(s, t, u, now) && x !in Grants(s', t, u, now) {
      var r := TenantGrantHow(s, t, u, now, x);
      LeftIsOtherSource(s, s', t, u, w, now, x);
      LosesBy(s, t, u, w, r, x.1, now);
    }
    if r, p :| HasRole(s, t, u, r, now) && Carries(s, t, r, p)
               && !OtherSource(s, t, u, w, Pair(s, t, r, p), now) {
      TenantGrantBy(s, t, u, now, r, p);
      LeftIsOtherSource(s, s', t, u, w, now, Pair(s, t, r, p));
    }
  }

  // ---------------------------------------------------------------------------------------------
  // The changes themselves
  // ---------------------------------------------------------------------------------------------

  /** u is in group g right now. */
  ghost predicate Member(s: Tables, t: TenantId, u: UserId, g: GroupId, now: Time) {
    exists m :: m in s.groupMembers && Joins(s.groupMembers[m], t, u, g, now)
  }

  lemma ListedIsMember(s: Tables, t: TenantId, u: UserId, g: GroupId, now: Time)
    ensures u in GroupUsers(s, t, g, now) <==> UserActive(s, u) && Member(s, t, u, g, now)
  {
    if m :| m in s.groupMembers && Joins(s.groupMembers[m], t, u, g, now) {
      assert s.groupMembers[m].user == u;
    }
  }

  lemma ListedIsReached(s: Tables, t: TenantId, u: UserId, r: RoleId, now: Time)
    ensures u in RoleUsers(s, t, r, now) <==>
              UserActive(s, u) && (HasDirect(s, t, u, r, now) || HasThroughGroup(s, t, u, r, now))
  {
    if a :| a in s.userRoles && Assigns(s.userRoles[a], t, u, r, now) {
      assert s.userRoles[a].user == u;
    }
    if m, a :| m in s.groupMembers && a in s.groupRoles
               && Joins(s.groupMembers[m], t, u, s.groupMembers[m].group, now)
               && GroupActive(s, t, s.groupMembers[m].group)
               && Confers(s.groupRoles[a], t, s.groupMembers[m].group, r) {
      assert s.groupMembers[m].user == u;
    }
    if u in RoleUsers(s, t, r, now) {
      ListedHow(s, t, u, r, now);
    }
  }

  lemma ListedHow(s: Tables, t: TenantId, u: UserId, r: RoleId, now: Time)
    requires u in RoleUsers(s, t, r, now)
    ensures UserActive(s, u) && (HasDirect(s, t, u, r, now) || HasThroughGroup(s, t, u, r, now))
  {
    if a :| a in s.userRoles && s.userRoles[a].user == u && s.userRoles[a].tenant == t && s.userRoles[a].role == r
            && s.userRoles[a].active && s.userRoles[a].validity.Covers(now) && UserActive(s, u) {
      assert Assigns(s.userRoles[a], t, u, r, now);
    } else {
      var a, m :| a in s.groupRoles && m in s.groupMembers && s.groupMembers[m].user == u
        && s.groupRoles[a].tenant == t && s.groupRoles[a].role == r && s.groupRoles[a].active
        && GroupActive(s, t, s.groupRoles[a].group)
        && s.groupMembers[m].tenant == t && s.groupMembers[m].group == s.groupRoles[a].group
        && s.groupMembers[m].active && s.groupMembers[m].validity.Covers(now) && UserActive(s, u);
      ThroughGroupBy(s, t, u, r, now, m, a);
    }
  }

  lemma ThroughMember(s: Tables, t: TenantId, u: UserId, g: GroupId, r: RoleId, now: Time)
    requires Member(s, t, u, g, now) && GroupActive(s, t, g) && GroupConfers(s, t, g, r)
    ensures HasThroughGroup(s, t, u, r, now)
  {
    var m :| m in s.groupMembers && Joins(s.groupMembers[m], t, u, g, now);
    var a :| a in s.groupRoles && Confers(s.groupRoles[a], t, g, r);
    ThroughGroupBy(s, t, u, r, now, m, a);
  }

  /** Through a group is through g or through another. */
  lemma ThroughSplits(s: Tables, t: TenantId, u: UserId, g: GroupId, r: RoleId, now: Time)
    ensures HasThroughGroup(s, t, u, r, now) <==>
              || HasThroughOther(s, t, u, r, g, now)
              || (Member(s, t, u, g, now) && GroupActive(s, t, g) && GroupConfers(s, t, g, r))
  {
    if m, a :| m in s.groupMembers && a in s.groupRoles
               && Joins(s.groupMembers[m], t, u, s.groupMembers[m].group, now)
               && GroupActive(s, t, s.groupMembers[m].group)
               && Confers(s.groupRoles[a], t, s.groupMembers[m].group, r) {
      if s.groupMembers[m].group != g {
        ThroughOtherBy(s, t, u, r, g, now, m, a);
      }
    }
    if m, a :| m in s.groupMembers && a in s.groupRoles && s.groupMembers[m].group != g
               && Joins(s.groupMembers[m], t, u, s.groupMembers[m].group, now)
               && GroupActive(s, t, s.groupMembers[m].group)
               && Confers(s.groupRoles[a], t, s.groupMembers[m].group, r) {
      ThroughGroupBy(s, t, u, r, now, m, a);
    }
    if Member(s, t, u, g, now) && GroupActive(s, t, g) && GroupConfers(s, t, g, r) {
      ThroughMember(s, t, u, g, r, now);
    }
  }

  /** Other groups and their rows agree, so what comes through them does. */
  lemma OthersAlike(s: Tables, s': Tables, t: TenantId, u: UserId, g: GroupId, r: RoleId, now: Time)
    requires s'.groupMembers == s.groupMembers
    requires forall h :: h != g ==> (GroupActive(s', t, h) <==> GroupActive(s, t, h))
    requires forall h :: h != g ==> (GroupConfers(s', t, h, r) <==> GroupConfers(s, t, h, r))
    ensures HasThroughOther(s', t, u, r, g, now) <==> HasThroughOther(s, t, u, r, g, now)
  {
    OtherStays(s, s', t, u, g, r, now);
    OtherStays(s', s, t, u, g, r, now);
  }

  lemma OtherStays(s: Tables, s': Tables, t: TenantId, u: UserId, g: GroupId, r: RoleId, now: Time)
    requires s'.groupMembers == s.groupMembers
    requires forall h :: h != g ==> (GroupActive(s, t, h) ==> GroupActive(s', t, h))
    requires forall h :: h != g ==> (GroupConfers(s, t, h, r) ==> GroupConfers(s', t, h, r))
    ensures HasThroughOther(s, t, u, r, g, now) ==> HasThroughOther(s', t, u, r, g, now)
  {
    if m, a :| m in s.groupMembers && a in s.groupRoles && s.groupMembers[m].group != g
               && Joins(s.groupMembers[m], t, u, s.groupMembers[m].group, now)
               && GroupActive(s, t, s.groupMembers[m].group)
               && Confers(s.groupRoles[a], t, s.groupMembers[m].group, r) {
      var h := s.groupMembers[m].group;
      assert GroupConfers(s, t, h, r);
      var b :| b in s'.groupRoles && Confers(s'.groupRoles[b], t, h, r);
      ThroughOtherBy(s', t, u, r, g, now, m, b);
    }
  }
}
