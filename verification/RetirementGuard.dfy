/**
 The module catalogue may retire a permission only when `effective_role_references` finds no role.
 That query is written apart from the runtime permission query; here the two are compared.
 */
module RetirementGuard {
  import opened Rbac

  /** u would obtain p in t through a direct or group tenant role, were p ACTIVE. */
  ghost predicate WouldObtain(s: Tables, t: TenantId, u: UserId, p: string, now: Time) {
    exists r :: HasRole(s, t, u, r, now) && (t, r, p) in s.rolePermissions
  }

  function Retired(s: Tables, p: string): Tables {
    s.(permissions := s.permissions[p := PermissionRetired])
  }

  lemma ReferenceReachesSomebody(s: Tables, p: string, now: Time, k: (TenantId, RoleId)) returns (u: UserId)
    requires k in RoleReferences(s, p, now)
    ensures HasRole(s, k.0, u, k.1, now) && (k.0, k.1, p) in s.rolePermissions
  {
    if a :| a in s.userRoles && s.userRoles[a].tenant == k.0 && s.userRoles[a].role == k.1
            && s.userRoles[a].active && s.userRoles[a].validity.Covers(now) {
      u := s.userRoles[a].user;
      assert Assigns(s.userRoles[a], k.0, u, k.1, now);
    } else {
      var a, m :| a in s.groupRoles && m in s.groupMembers
        && s.groupRoles[a].tenant == k.0 && s.groupRoles[a].role == k.1 && s.groupRoles[a].active
        && GroupActive(s, k.0, s.groupRoles[a].group)
        && s.groupMembers[m].tenant == k.0 && s.groupMembers[m].group == s.groupRoles[a].group
        && s.groupMembers[m].active && s.groupMembers[m].validity.Covers(now);
      u := s.groupMembers[m].user;
      assert Joins(s.groupMembers[m], k.0, u, s.groupMembers[m].group, now);
      assert Confers(s.groupRoles[a], k.0, s.groupMembers[m].group, k.1);
    }
  }

  /** A role somebody holds and that carries p is among the references. */
  lemma HolderIsReferenced(s: Tables, t: TenantId, u: UserId, r: RoleId, p: string, now: Time)
    requires HasRole(s, t, u, r, now) && (t, r, p) in s.rolePermissions
    ensures (t, r) in RoleReferences(s, p, now)
  {
    if a :| a in s.userRoles && Assigns(s.userRoles[a], t, u, r, now) {
    } else {
      var m, a :| m in s.groupMembers && a in s.groupRoles
        && Joins(s.groupMembers[m], t, u, s.groupMembers[m].group, now)
        && GroupActive(s, t, s.groupMembers[m].group)
        && Confers(s.groupRoles[a], t, s.groupMembers[m].group, r);
      assert s.groupMembers[m].group == s.groupRoles[a].group;
    }
  }

  /** The guard is empty exactly when nobody, in any tenant, would obtain p through a tenant role. */
  lemma GuardAgreesWithRuntime(s: Tables, p: string, now: Time)
    ensures RoleReferences(s, p, now) == {} <==> forall t, u :: !WouldObtain(s, t, u, p, now)
  {
    if k :| k in RoleReferences(s, p, now) {
      var u := ReferenceReachesSomebody(s, p, now, k);
      assert WouldObtain(s, k.0, u, p, now);
    }
    if t, u :| WouldObtain(s, t, u, p, now) {
      var r :| HasRole(s, t, u, r, now) && (t, r, p) in s.rolePermissions;
      HolderIsReferenced(s, t, u, r, p, now);
    }
  }

  lemma RolesIgnorePermissionStatus(s: Tables, p: string, t: TenantId, u: UserId, r: RoleId, now: Time)
    ensures HasRole(Retired(s, p), t, u, r, now) <==> HasRole(s, t, u, r, now)
  {
    assert HasDirect(Retired(s, p), t, u, r, now) <==> HasDirect(s, t, u, r, now);
    assert HasThroughGroup(Retired(s, p), t, u, r, now) <==> HasThroughGroup(s, t, u, r, now);
  }

  /** Retiring p removes exactly the pairs that carry p. */
  lemma RetiringRemovesOnlyP(s: Tables, p: string, t: TenantId, u: UserId, now: Time)
    ensures TenantGrants(Retired(s, p), t, u, now) == set g | g in TenantGrants(s, t, u, now) && g.1 != p
    ensures PlatformGrants(Retired(s, p), u) == set g | g in PlatformGrants(s, u) && g.1 != p
  {
    forall r ensures HasRole(Retired(s, p), t, u, r, now) <==> HasRole(s, t, u, r, now) {
      RolesIgnorePermissionStatus(s, p, t, u, r, now);
    }
  }

  /**
   For an ACTIVE permission the guard is exact: it lets the retirement through just when no user's tenant
   grants change.
   */
  lemma RetirementChangesNothingIffGuardEmpty(s: Tables, p: string, now: Time)
    requires PermissionIsActive(s, p)
    ensures RoleReferences(s, p, now) == {} <==>
            forall t, u :: TenantGrants(Retired(s, p), t, u, now) == TenantGrants(s, t, u, now)
  {
    if RoleReferences(s, p, now) == {} {
      forall t, u ensures TenantGrants(Retired(s, p), t, u, now) == TenantGrants(s, t, u, now) {
        GuardedRetirementKeepsTenantGrants(s, p, now, t, u);
      }
    } else {
      var k :| k in RoleReferences(s, p, now);
      var u := ReferenceReachesSomebody(s, p, now, k);
      assert (s.roles[k].key, p) in TenantGrants(s, k.0, u, now);
      RetiringRemovesOnlyP(s, p, k.0, u, now);
      assert (s.roles[k].key, p) !in TenantGrants(Retired(s, p), k.0, u, now);
    }
  }

  /** Whatever the status of p was, a guarded retirement leaves every user's tenant grants as they were. */
  lemma GuardedRetirementKeepsTenantGrants(s: Tables, p: string, now: Time, t: TenantId, u: UserId)
    requires RoleReferences(s, p, now) == {}
    ensures TenantGrants(Retired(s, p), t, u, now) == TenantGrants(s, t, u, now)
  {
    GuardAgreesWithRuntime(s, p, now);
    RetiringRemovesOnlyP(s, p, t, u, now);
    forall g | g in TenantGrants(s, t, u, now) ensures g.1 != p {
      var rp :| rp in s.rolePermissions && rp.0 == t && HasRole(s, t, u, rp.1, now) && PermissionIsActive(s, rp.2)
                && (s.roles[(t, rp.1)].key, rp.2) == g;
      assert !WouldObtain(s, t, u, p, now);
    }
  }

  /**
   The guard does not look at platform roles.  After a guarded retirement the whole effective set of
   u changes exactly when one of u's platform roles carried p while p was ACTIVE.
   */
  lemma GuardedRetirementAndPlatformRoles(s: Tables, p: string, now: Time, t: TenantId, u: UserId)
    requires RoleReferences(s, p, now) == {}
    ensures Grants(Retired(s, p), t, u, now) != Grants(s, t, u, now) <==>
            PermissionIsActive(s, p) && exists key :: (u, key, p) in s.platformGrants
  {
    GuardedRetirementKeepsTenantGrants(s, p, now, t, u);
    RetiringRemovesOnlyP(s, p, t, u, now);
    if key :| PermissionIsActive(s, p) && (u, key, p) in s.platformGrants {
      assert (key, p) in Grants(s, t, u, now);
      assert (key, p) !in TenantGrants(Retired(s, p), t, u, now);
      assert (key, p) !in PlatformGrants(Retired(s, p), u);
    } else {
      forall g | g in PlatformGrants(s, u) ensures g.1 != p {
        assert (u, g.0, g.1) in s.platformGrants;
      }
      assert PlatformGrants(Retired(s, p), u) == PlatformGrants(s, u);
    }
  }

  /** An input: nobody holds a tenant role, the guard lets the retirement through, and a platform grant is lost. */
  lemma GuardedRetirementTakesPlatformGrant(key: string, p: string) returns (s: Tables, u: UserId)
    ensures ReferencesOk(s) && PermissionIsActive(s, p) && RoleReferences(s, p, 0) == {}
    ensures (key, p) in Grants(s, 1, u, 0) && (key, p) !in Grants(Retired(s, p), 1, u, 0)
  {
    u := 1;
    s := Tables(map[u := User(true, true)], map[p := PermissionActive], map[], {}, map[], map[], map[], map[],
                {(u, key, p)}, map[], map[], {});
    assert (u, key, p) in s.platformGrants;
    GuardedRetirementKeepsTenantGrants(s, p, 0, 1, u);
    RetiringRemovesOnlyP(s, p, 1, u, 0);
  }
}
