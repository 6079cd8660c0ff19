/**
 The catalogue service as it runs: validation, then one transaction that upserts row by row and is
 rolled back as a whole when anything fails.
 */
module CatalogStore {
  import opened Options
  import opened Text
  import opened Catalog
  import CatalogMerge
  import Rbac

  ghost predicate PermissionFaulty(q: Submission, e: Error) {
    || (e.DuplicatePermissions? && !DistinctPermissionKeys(q.permissions))
    || (e.InvalidPermission? && exists i :: 0 <= i < |q.permissions| && q.permissions[i].key == e.permission
                                            && !PermissionAccepted(q, q.permissions[i]))
  }

  ghost predicate TemplateFaulty(s: Tables, q: Submission, e: Error) {
    || (e.DuplicateTemplates? && !DistinctTemplateKeys(q.templates))
    || (e.InvalidTemplate? && exists j :: 0 <= j < |q.templates| && q.templates[j].key == e.template
                                          && !TemplateAccepted(s, q, q.templates[j]))
  }

  /** The first n permissions are owned by the module, and retired only unreferenced. */
  ghost predicate Permitted(s: Tables, q: Submission, r: Rbac.Tables, now: Time, n: int)
    requires 0 <= n <= |q.permissions|
  {
    forall i :: 0 <= i < n ==> Owned(s, q, q.permissions[i].key) && Guarded(r, now, q.permissions[i])
  }

  /** What an error tells about the submission and the tables it was checked against. */
  ghost predicate Explains(s: Tables, q: Submission, r: Rbac.Tables, now: Time, e: Error)
    requires |q.templates| <= |q.freshIds|
  {
    match e
    case PathMismatch => q.pathKey == "" || q.moduleKey != q.pathKey
    case NameRequired => Strip(q.name) == ""
    case VersionRequired => Strip(q.version) == ""
    case DuplicatePermissions => PermissionFaulty(q, e)
    case InvalidPermission(_) => PermissionFaulty(q, e)
    case DuplicateTemplates => TemplateFaulty(s, q, e)
    case InvalidTemplate(_) => TemplateFaulty(s, q, e)
    case OwnedByAnotherModule(k) => Validated(s, q) && k in SubmittedKeys(q.permissions) && !Owned(s, q, k)
    case RetirementConflict(k) => Validated(s, q) && Owned(s, q, k)
        && exists i :: 0 <= i < |q.permissions| && q.permissions[i].key == k && !Guarded(r, now, q.permissions[i])
    case DatabaseError => Validated(s, q)
  }

  /** The loop finds each permission's row as it was before the PUT. */
  lemma PermissionStillOld(m: map<string, Permission>, q: Submission, i: int, m': map<string, Permission>)
    requires 0 <= i < |q.permissions| && DistinctPermissionKeys(q.permissions)
    requires forall n :: 0 <= n < |q.permissions| ==> q.permissions[n].status.Some?
    requires PermissionsMerged(m, q, i, m')
    ensures Stored(m', q.permissions[i].key) == Stored(m, q.permissions[i].key)
  {
    KeysOneMore(q.permissions, i);
    hide StoredPermission, SubmittedKeys, DistinctPermissionKeys;
  }

  lemma UpsertKeepsRows(
    m: map<string, Permission>, q: Submission, i: int, m': map<string, Permission>, row: Permission)
    requires 0 <= i < |q.permissions| && DistinctPermissionKeys(q.permissions)
    requires forall n :: 0 <= n < |q.permissions| ==> q.permissions[n].status.Some?
    requires PermissionsMerged(m, q, i, m')
    ensures var m'' := m'[q.permissions[i].key := row];
            forall n :: 0 <= n < i ==>
              && q.permissions[n].key in m''
              && m''[q.permissions[n].key] == StoredPermission(Stored(m, q.permissions[n].key), q, q.permissions[n])
  {
    KeysOneMore(q.permissions, i);
    hide StoredPermission, SubmittedKeys, DistinctPermissionKeys;
    forall n | 0 <= n < i ensures q.permissions[n].key != q.permissions[i].key {
      assert q.permissions[n].key in SubmittedKeys(q.permissions[..i]);
    }
  }

  lemma UpsertKeepsRest(
    m: map<string, Permission>, q: Submission, i: int, m': map<string, Permission>, row: Permission)
    requires 0 <= i < |q.permissions| && DistinctPermissionKeys(q.permissions)
    requires forall n :: 0 <= n < |q.permissions| ==> q.permissions[n].status.Some?
    requires PermissionsMerged(m, q, i, m')
    ensures var m'' := m'[q.permissions[i].key := row];
            && m''.Keys == m.Keys + SubmittedKeys(q.permissions[..i + 1])
            && forall k :: k in m && k !in SubmittedKeys(q.permissions[..i + 1]) ==> m''[k] == m[k]
  {
    KeysOneMore(q.permissions, i);
    hide StoredPermission, SubmittedKeys, DistinctPermissionKeys;
  }

  /** One more upsert of a key not submitted before it. */
  lemma MergeOneMore(m: map<string, Permission>, q: Submission, i: int, m': map<string, Permission>)
    requires 0 <= i < |q.permissions| && DistinctPermissionKeys(q.permissions)
    requires forall n :: 0 <= n < |q.permissions| ==> q.permissions[n].status.Some?
    requires PermissionsMerged(m, q, i, m')
    ensures var p := q.permissions[i];
            PermissionsMerged(m, q, i + 1, m'[p.key := StoredPermission(Stored(m, p.key), q, p)])
  {
    var p := q.permissions[i];
    var row := StoredPermission(Stored(m, p.key), q, p);
    UpsertKeepsRows(m, q, i, m', row);
    UpsertKeepsRest(m, q, i, m', row);
    hide StoredPermission, SubmittedKeys, DistinctPermissionKeys, Stored;
  }

  lemma KeysOneMore(inputs: seq<PermissionInput>, i: int)
    requires 0 <= i < |inputs| && DistinctPermissionKeys(inputs)
    ensures SubmittedKeys(inputs[..i + 1]) == SubmittedKeys(inputs[..i]) + {inputs[i].key}
    ensures inputs[i].key !in SubmittedKeys(inputs[..i])
    ensures forall n :: 0 <= n < i ==> inputs[n].key in SubmittedKeys(inputs[..i])
  {
    var shorter, longer := inputs[..i], inputs[..i + 1];
    forall k | k in SubmittedKeys(longer) ensures k in SubmittedKeys(shorter) + {inputs[i].key} {
      var n :| 0 <= n < i + 1 && longer[n].key == k;
      assert n < i ==> shorter[n].key == k;
    }
    forall n | 0 <= n < i ensures inputs[n].key in SubmittedKeys(shorter) {
      assert shorter[n].key == inputs[n].key;
    }
    forall k | k in SubmittedKeys(shorter) ensures k in SubmittedKeys(longer) {
      var n :| 0 <= n < i && shorter[n].key == k;
      assert longer[n].key == k;
    }
    assert longer[i] == inputs[i];
  }

  /** The first i permissions have been merged. */
  ghost predicate PermissionsDone(
    s: Tables, q: Submission, r: Rbac.Tables, now: Time, i: int, m: map<string, Permission>)
    requires 0 <= i <= |q.permissions| && Validated(s, q)
  {
    PermissionsMerged(s.permissions, q, i, m) && Permitted(s, q, r, now, i)
  }

  lemma NoPermissionDone(s: Tables, q: Submission, r: Rbac.Tables, now: Time)
    requires Validated(s, q)
    ensures PermissionsDone(s, q, r, now, 0, s.permissions)
  {}

  lemma ValidPermissions(s: Tables, q: Submission)
    requires Validated(s, q)
    ensures DistinctPermissionKeys(q.permissions) && forall n :: 0 <= n < |q.permissions| ==>
              q.permissions[n].status.Some?
  {
    assert forall n :: 0 <= n < |q.permissions| ==> PermissionAccepted(q, q.permissions[n]);
  }

  /** The permission loop's owner check sees the row from before the PUT. */
  lemma OwnerCheck(s: Tables, q: Submission, r: Rbac.Tables, now: Time, i: int, m: map<string, Permission>)
    requires 0 <= i < |q.permissions| && Validated(s, q) && PermissionsDone(s, q, r, now, i, m)
    ensures var p := q.permissions[i];
            Owned(s, q, p.key) <==> !(p.key in m && m[p.key].moduleKey != q.pathKey)
  {
    ValidPermissions(s, q);
    hide Validated, DistinctPermissionKeys, StoredPermission, PermissionsMerged, Owned, Guarded, Permitted;
    PermissionStillOld(s.permissions, q, i, m);
    OwnedSeen(s, q, m, q.permissions[i].key);
  }

  /** One turn of the permission loop builds on the turns before it. */
  lemma PermissionStep(s: Tables, q: Submission, r: Rbac.Tables, now: Time, i: int, m: map<string, Permission>)
    requires 0 <= i < |q.permissions| && Validated(s, q) && PermissionsDone(s, q, r, now, i, m)
    requires Owned(s, q, q.permissions[i].key) && Guarded(r, now, q.permissions[i])
    ensures q.permissions[i].status.Some?
    ensures var p := q.permissions[i];
            PermissionsDone(s, q, r, now, i + 1, m[p.key := StoredPermission(Stored(m, p.key), q, p)])
  {
    ValidPermissions(s, q);
    hide Validated, DistinctPermissionKeys, StoredPermission, Stored, PermissionsMerged, Owned, Guarded;
    PermissionStillOld(s.permissions, q, i, m);
    MergeOneMore(s.permissions, q, i, m);
  }

  lemma OwnedSeen(s: Tables, q: Submission, m: map<string, Permission>, key: string)
    requires Stored(m, key) == Stored(s.permissions, key)
    ensures Owned(s, q, key) <==> !(key in m && m[key].moduleKey != q.pathKey)
  {
    assert key in m ==> Stored(m, key) == Some(m[key]);
    assert key in s.permissions ==> Stored(s.permissions, key) == Some(s.permissions[key]);
  }

  lemma ExplainOwner(s: Tables, q: Submission, r: Rbac.Tables, now: Time, i: int)
    requires |q.templates| <= |q.freshIds| && Validated(s, q) && 0 <= i < |q.permissions|
             && !Owned(s, q, q.permissions[i].key)
    ensures Explains(s, q, r, now, OwnedByAnotherModule(q.permissions[i].key))
    ensures !Permitted(s, q, r, now, |q.permissions|)
  {
    hide Validated;
  }

  lemma ExplainRetirement(s: Tables, q: Submission, r: Rbac.Tables, now: Time, i: int)
    requires |q.templates| <= |q.freshIds| && Validated(s, q) && 0 <= i < |q.permissions|
    requires Owned(s, q, q.permissions[i].key) && !Guarded(r, now, q.permissions[i])
    ensures Explains(s, q, r, now, RetirementConflict(q.permissions[i].key))
    ensures !Permitted(s, q, r, now, |q.permissions|)
  {
    hide Validated;
  }

  predicate StatusesKnown(q: Submission) {
    forall j :: 0 <= j < |q.templates| ==> q.templates[j].status.Some?
  }

  /** The loop finds each template's row as it was before the PUT. */
  lemma TemplateStillOld(s: Tables, q: Submission, j: int, s': Tables)
    requires 0 <= j < |q.templates| <= |q.freshIds| && StatusesKnown(q) && DistinctTemplateKeys(q.templates)
    requires TemplatesMerged(s, q, j, s'.templates)
    ensures Stored(s'.templates, TemplateKey(q, j)) == Stored(s.templates, TemplateKey(q, j))
    ensures StoredTemplate(s', q, j) == StoredTemplate(s, q, j)
  {
    assert !IsSubmittedTemplate(q, j, TemplateKey(q, j));
  }

  lemma SubmittedOneMore(q: Submission, j: int)
    requires 0 <= j < |q.templates|
    ensures forall k :: IsSubmittedTemplate(q, j + 1, k) <==> IsSubmittedTemplate(q, j, k) || k == TemplateKey(q, j)
  {
    forall k ensures IsSubmittedTemplate(q, j + 1, k) <==> IsSubmittedTemplate(q, j, k) || k == TemplateKey(q, j) {
      if i :| 0 <= i < j && k == TemplateKey(q, i) {
        assert 0 <= i < j + 1;
      }
    }
  }

  lemma TemplateRowsStay(s: Tables, q: Submission, j: int, m: map<(string, string), Template>, row: Template)
    requires 0 <= j < |q.templates| <= |q.freshIds| && StatusesKnown(q) && DistinctTemplateKeys(q.templates)
    requires TemplatesMerged(s, q, j, m)
    ensures var m' := m[TemplateKey(q, j) := row];
            forall i :: 0 <= i < j ==> TemplateKey(q, i) in m' && m'[TemplateKey(q, i)] == StoredTemplate(s, q, i)
  {
    hide StoredTemplate, IsSubmittedTemplate;
    assert forall i :: 0 <= i < j ==> TemplateKey(q, i) != TemplateKey(q, j);
    hide DistinctTemplateKeys, TemplateKey;
  }

  lemma OtherTemplatesStay(s: Tables, q: Submission, j: int, m: map<(string, string), Template>, row: Template)
    requires 0 <= j < |q.templates| <= |q.freshIds| && StatusesKnown(q)
    requires TemplatesMerged(s, q, j, m)
    ensures var m' := m[TemplateKey(q, j) := row];
            && (forall k :: k in m' <==> k in s.templates || IsSubmittedTemplate(q, j + 1, k))
            && (forall k :: k in s.templates && !IsSubmittedTemplate(q, j + 1, k) ==> m'[k] == s.templates[k])
  {
    SubmittedOneMore(q, j);
    hide StoredTemplate, IsSubmittedTemplate, TemplateKey;
  }

  lemma TemplatesOneMore(s: Tables, q: Submission, j: int, m: map<(string, string), Template>)
    requires 0 <= j < |q.templates| <= |q.freshIds| && StatusesKnown(q) && DistinctTemplateKeys(q.templates)
    requires TemplatesMerged(s, q, j, m)
    ensures TemplatesMerged(s, q, j + 1, m[TemplateKey(q, j) := StoredTemplate(s, q, j)])
  {
    var row := StoredTemplate(s, q, j);
    TemplateRowsStay(s, q, j, m, row);
    OtherTemplatesStay(s, q, j, m, row);
    hide StoredTemplate, IsSubmittedTemplate, TemplateKey, DistinctTemplateKeys;
  }

  /** A fresh id collides with a row seen by the loop exactly when it is not fresh for the submission. */
  lemma FreshnessSeen(s: Tables, q: Submission, j: int, m: map<(string, string), Template>)
    requires 0 <= j < |q.templates| <= |q.freshIds| && StatusesKnown(q) && DistinctTemplateKeys(q.templates)
    requires TemplatesMerged(s, q, j, m)
    ensures (TemplateKey(q, j) in m || forall k :: k in m ==> m[k].id != q.freshIds[j]) <==> FreshFor(s, q, j)
  {
    var key := TemplateKey(q, j);
    assert !IsSubmittedTemplate(q, j, key);
    if key !in s.templates && FreshFor(s, q, j) {
      forall k | k in m ensures m[k].id != q.freshIds[j] {
        if IsSubmittedTemplate(q, j, k) {
          var i :| 0 <= i < j && k == TemplateKey(q, i);
          assert m[TemplateKey(q, i)] == StoredTemplate(s, q, i);
        }
      }
    } else if key !in s.templates && forall k :: k in m ==> m[k].id != q.freshIds[j] {
      forall k | k in s.templates ensures s.templates[k].id != q.freshIds[j] {
        assert m[k].id == s.templates[k].id by {
          if IsSubmittedTemplate(q, j, k) {
            var i :| 0 <= i < j && k == TemplateKey(q, i);
            assert m[TemplateKey(q, i)] == StoredTemplate(s, q, i);
          }
        }
      }
      forall i | 0 <= i < j && TemplateKey(q, i) !in s.templates ensures q.freshIds[i] != q.freshIds[j] {
        assert m[TemplateKey(q, i)] == StoredTemplate(s, q, i);
      }
    }
  }

  lemma LinksOneMore(s: Tables, q: Submission, j: int, links: set<(TemplateId, string)>,
      links': set<(TemplateId, string)>)
    requires IdsAreDistinct(s) && 0 <= j < |q.templates| <= |q.freshIds| && StatusesKnown(q)
             && DistinctTemplateKeys(q.templates)
    requires forall i :: 0 <= i <= j ==> FreshFor(s, q, i)
    requires LinksMerged(s, q, j, links)
    requires forall g: (TemplateId, string) :: g in links' <==>
               if g.0 == StoredTemplate(s, q, j).id then g.1 in q.templates[j].permissions else g in links
    ensures LinksMerged(s, q, j + 1, links')
  {
    forall i | 0 <= i < j ensures StoredTemplate(s, q, i).id != StoredTemplate(s, q, j).id {
      CatalogMerge.StoredIdsDiffer(s, q, i, j);
    }
    hide StoredTemplate, FreshFor;
    forall i, p | 0 <= i < j + 1 ensures (StoredTemplate(s, q, i).id, p) in links' <==>
      p in q.templates[i].permissions
    {
      if i < j {
        assert (StoredTemplate(s, q, i).id, p) in links' <==> (StoredTemplate(s, q, i).id, p) in links;
      }
    }
  }

  /** The first n templates have been merged, all with fresh ids. */
  ghost predicate TemplatesDone(
    s: Tables, q: Submission, n: int, m: map<(string, string), Template>, links: set<(TemplateId, string)>)
    requires 0 <= n <= |q.templates| <= |q.freshIds| && StatusesKnown(q)
  {
    && TemplatesMerged(s, q, n, m) && LinksMerged(s, q, n, links)
    && forall i :: 0 <= i < n ==> FreshFor(s, q, i)
  }

  lemma NothingDone(s: Tables, q: Submission)
    requires |q.templates| <= |q.freshIds| && StatusesKnown(q)
    ensures TemplatesDone(s, q, 0, s.templates, s.templatePermissions)
  {
    assert forall k :: !IsSubmittedTemplate(q, 0, k);
  }

  /**
   What upserting template j does to the tables t: it fails exactly when its fresh id is taken, and otherwise
   sets the row and replaces the row's permissions.
   */
  ghost predicate TemplateUpserted(
    t: Tables, q: Submission, j: int, ok: bool, m': map<(string, string), Template>, links': set<(TemplateId, string)>)
    requires 0 <= j < |q.templates| <= |q.freshIds| && q.templates[j].status.Some?
  {
    && (ok <==> TemplateKey(q, j) in t.templates || forall k :: k in t.templates ==> t.templates[k].id != q.freshIds[j])
    && (ok ==> m' == t.templates[TemplateKey(q, j) := StoredTemplate(t, q, j)])
    && (ok ==> forall g: (TemplateId, string) :: g in links' <==>
          if g.0 == StoredTemplate(t, q, j).id then g.1 in q.templates[j].permissions else g in t.templatePermissions)
  }

  /** One turn of the template loop, from the tables t to the rows m' and links'. */
  lemma TemplateStep(
    s: Tables, q: Submission, j: int, t: Tables, ok: bool, m': map<(string, string), Template>,
    links': set<(TemplateId, string)>)
    requires IdsAreDistinct(s) && 0 <= j < |q.templates| <= |q.freshIds| && StatusesKnown(q)
    requires DistinctTemplateKeys(q.templates) && TemplatesDone(s, q, j, t.templates, t.templatePermissions)
    requires TemplateUpserted(t, q, j, ok, m', links')
    ensures if ok then TemplatesDone(s, q, j + 1, m', links') else !IdsAreFresh(s, q)
  {
    TemplateStillOld(s, q, j, t);
    FreshnessSeen(s, q, j, t.templates);
    hide TemplatesMerged, LinksMerged, FreshFor, StoredTemplate, IdsAreDistinct, DistinctTemplateKeys;
    if ok {
      TemplatesOneMore(s, q, j, t.templates);
      LinksOneMore(s, q, j, t.templatePermissions, links');
    }
  }

  class Store {
    var modules: map<string, Module>
    var permissions: map<string, Permission>
    var templates: map<(string, string), Template>
    var templatePermissions: set<(TemplateId, string)>
    var changes: nat

    function State(): Tables
      reads this
    {
      Tables(modules, permissions, templates, templatePermissions, changes)
    }

    method HasDuplicates(keys: seq<string>) returns (b: bool)
      ensures b <==> !Catalog.Distinct(keys)
    {
      var seen: set<string> := {};
      for i := 0 to |keys|
        invariant seen == set k | k in keys[..i]
        invariant Catalog.Distinct(keys[..i])
      {
        if keys[i] in seen {
          var j :| 0 <= j < i && keys[j] == keys[i];
          return true;
        }
        seen := seen + {keys[i]};
      }
      assert keys[..|keys|] == keys;
      return false;
    }

    /** One template of _validate_catalog. */
    method AcceptsTemplate(q: Submission, t: TemplateInput) returns (ok: bool)
      ensures ok <==> TemplateAccepted(State(), q, t)
    {
      if !(Namespace(q) <= t.key) || t.status.None? {
        return false;
      }
      var duplicates := HasDuplicates(t.permissions);
      if duplicates {
        return false;
      }
      for i := 0 to |t.permissions|
        invariant forall n :: 0 <= n < i ==> ReferenceAccepted(State(), q, t.permissions[n])
      {
        if !ReferenceAccepted(State(), q, t.permissions[i]) {
          return false;
        }
      }
      return true;
    }

    /** The permission checks of _validate_catalog. */
    method PermissionFault(q: Submission) returns (e: Option<Error>)
      ensures e.None? <==> DistinctPermissionKeys(q.permissions)
                           && forall i :: 0 <= i < |q.permissions| ==> PermissionAccepted(q, q.permissions[i])
      ensures e.Some? ==> PermissionFaulty(q, e.value)
    {
      hide PermissionAccepted;
      var keys := seq(|q.permissions|, i requires 0 <= i < |q.permissions| => q.permissions[i].key);
      assert forall i :: 0 <= i < |keys| ==> keys[i] == q.permissions[i].key;
      var duplicates := HasDuplicates(keys);
      assert duplicates <==> !DistinctPermissionKeys(q.permissions);
      hide DistinctPermissionKeys;
      if duplicates {
        return Some(DuplicatePermissions);
      }
      for i := 0 to |q.permissions|
        invariant forall n :: 0 <= n < i ==> PermissionAccepted(q, q.permissions[n])
      {
        if !PermissionAccepted(q, q.permissions[i]) {
          return Some(InvalidPermission(q.permissions[i].key));
        }
      }
      return None;
    }

    /** The template checks of _validate_catalog. */
    method TemplateFault(q: Submission) returns (e: Option<Error>)
      ensures e.None? <==> DistinctTemplateKeys(q.templates)
                           && forall j :: 0 <= j < |q.templates| ==> TemplateAccepted(State(), q, q.templates[j])
      ensures e.Some? ==> TemplateFaulty(State(), q, e.value)
    {
      hide TemplateAccepted;
      var keys := seq(|q.templates|, j requires 0 <= j < |q.templates| => q.templates[j].key);
      assert forall j :: 0 <= j < |keys| ==> keys[j] == q.templates[j].key;
      var duplicates := HasDuplicates(keys);
      assert duplicates <==> !DistinctTemplateKeys(q.templates);
      hide DistinctTemplateKeys;
      if duplicates {
        return Some(DuplicateTemplates);
      }
      for j := 0 to |q.templates|
        invariant forall n :: 0 <= n < j ==> TemplateAccepted(State(), q, q.templates[n])
      {
        var ok := AcceptsTemplate(q, q.templates[j]);
        if !ok {
          return Some(InvalidTemplate(q.templates[j].key));
        }
      }
      return None;
    }

    method ValidateCatalog(q: Submission, ghost r: Rbac.Tables, ghost now: Time) returns (e: Option<Error>)
      requires |q.templates| <= |q.freshIds|
      ensures e.None? <==> Validated(State(), q)
      ensures e.Some? ==> Explains(State(), q, r, now, e.value)
    {
      hide PermissionAccepted, TemplateAccepted, DistinctPermissionKeys, DistinctTemplateKeys, Guarded, Owned, Strip;
      if q.pathKey == "" || q.moduleKey != q.pathKey {
        return Some(PathMismatch);
      }
      if Strip(q.name) == "" {
        return Some(NameRequired);
      }
      if Strip(q.version) == "" {
        return Some(VersionRequired);
      }
      e := PermissionFault(q);
      if e.None? {
        e := TemplateFault(q);
      }
    }

    /** INSERT ... ON CONFLICT DO UPDATE ... WHERE the split is the same. */
    method UpsertPermission(q: Submission, p: PermissionInput)
      requires p.status.Some?
      modifies `permissions
      ensures permissions == old(permissions)[p.key := StoredPermission(Stored(old(permissions), p.key), q, p)]
    {
      var row := Permission(q.pathKey, ResourceOf(p.key), ActionOf(p.key), Strip(p.name), p.description,
          p.status.value, Strip(q.version));
      if p.key !in permissions {
        permissions := permissions[p.key := row];
      } else {
        var was := permissions[p.key];
        if was.moduleKey == row.moduleKey && was.resource == row.resource && was.action == row.action {
          permissions := permissions[p.key := row];
        }
        assert permissions[p.key] == StoredPermission(Some(was), q, p);
      }
    }

    /** One turn of the permission loop. */
    method MergePermission(q: Submission, r: Rbac.Tables, now: Time, i: int, ghost s: Tables) returns (e: Option<Error>)
      requires Validated(s, q) && |q.templates| <= |q.freshIds| && 0 <= i < |q.permissions|
      requires PermissionsDone(s, q, r, now, i, permissions)
      modifies `permissions
      ensures if e.None? then PermissionsDone(s, q, r, now, i + 1, permissions)
              else !Permitted(s, q, r, now, |q.permissions|)
      ensures e.Some? ==> !e.value.DatabaseError? && Explains(s, q, r, now, e.value)
    {
      hide Validated, PermissionsDone, StoredPermission, Guarded, Explains, Permitted, Owned, Stored;
      var p := q.permissions[i];
      OwnerCheck(s, q, r, now, i, permissions);
      if p.key in permissions && permissions[p.key].moduleKey != q.pathKey {
        ExplainOwner(s, q, r, now, i);
        return Some(OwnedByAnotherModule(p.key));
      }
      if !Guarded(r, now, p) {
        ExplainRetirement(s, q, r, now, i);
        return Some(RetirementConflict(p.key));
      }
      PermissionStep(s, q, r, now, i, permissions);
      UpsertPermission(q, p);
      return None;
    }

    /** The permission loop of put_catalog; a failure leaves the rows written so far. */
    method MergePermissions(q: Submission, r: Rbac.Tables, now: Time, ghost s: Tables) returns (e: Option<Error>)
      requires Validated(s, q) && |q.templates| <= |q.freshIds| && permissions == s.permissions
      modifies `permissions
      ensures if e.None? then PermissionsDone(s, q, r, now, |q.permissions|, permissions)
              else !Permitted(s, q, r, now, |q.permissions|)
      ensures e.Some? ==> !e.value.DatabaseError? && Explains(s, q, r, now, e.value)
    {
      NoPermissionDone(s, q, r, now);
      hide Validated, PermissionsDone, Explains, Permitted;
      for i := 0 to |q.permissions|
        invariant PermissionsDone(s, q, r, now, i, permissions)
      {
        e := MergePermission(q, r, now, i, s);
        if e.Some? {
          return;
        }
      }
      return None;
    }

    method ReplaceTemplatePermissions(id: TemplateId, keys: seq<string>)
      modifies `templatePermissions
      ensures forall g: (TemplateId, string) :: g in templatePermissions <==>
                if g.0 == id then g.1 in keys else g in old(templatePermissions)
    {
      templatePermissions := set g: (TemplateId, string) | g in templatePermissions && g.0 != id;
      for i := 0 to |keys|
        invariant forall g: (TemplateId, string) :: g in templatePermissions <==>
                    if g.0 == id then g.1 in keys[..i] else g in old(templatePermissions)
      {
        assert keys[..i + 1] == keys[..i] + [keys[i]];
        templatePermissions := templatePermissions + {(id, keys[i])};
      }
      assert keys[..|keys|] == keys;
    }

    /** upsert_template followed by replace_template_permissions. */
    method UpsertTemplate(q: Submission, j: int) returns (ok: bool)
      requires 0 <= j < |q.templates| <= |q.freshIds| && q.templates[j].status.Some?
      modifies `templates, `templatePermissions
      ensures TemplateUpserted(old(State()), q, j, ok, templates, templatePermissions)
    {
      var t, key := q.templates[j], TemplateKey(q, j);
      var id := if key in templates then templates[key].id else q.freshIds[j];
      if key !in templates && exists k :: k in templates && templates[k].id == id {
        return false;
      }
      templates := templates[key := Template(id, Strip(t.name), t.description, t.status.value, Strip(q.version))];
      ReplaceTemplatePermissions(id, t.permissions);
      return true;
    }

    /** One turn of the template loop. */
    method MergeTemplate(q: Submission, j: int, ghost s: Tables) returns (ok: bool)
      requires IdsAreDistinct(s) && 0 <= j < |q.templates| <= |q.freshIds| && StatusesKnown(q)
      requires DistinctTemplateKeys(q.templates) && TemplatesDone(s, q, j, templates, templatePermissions)
      modifies `templates, `templatePermissions
      ensures if ok then TemplatesDone(s, q, j + 1, templates, templatePermissions) else !IdsAreFresh(s, q)
    {
      hide TemplatesDone, TemplateUpserted, IdsAreFresh, IdsAreDistinct, DistinctTemplateKeys;
      ghost var before := State();
      ok := UpsertTemplate(q, j);
      TemplateStep(s, q, j, before, ok, templates, templatePermissions);
    }

    /** The template loop of put_catalog; a failure leaves the rows written so far. */
    method MergeTemplates(q: Submission, ghost s: Tables) returns (ok: bool)
      requires templates == s.templates && templatePermissions == s.templatePermissions
      requires IdsAreDistinct(s) && |q.templates| <= |q.freshIds| && StatusesKnown(q)
               && DistinctTemplateKeys(q.templates)
      modifies `templates, `templatePermissions
      ensures if ok then TemplatesDone(s, q, |q.templates|, templates, templatePermissions) else !IdsAreFresh(s, q)
    {
      NothingDone(s, q);
      hide TemplatesDone, IdsAreFresh, IdsAreDistinct, StatusesKnown, DistinctTemplateKeys;
      for j := 0 to |q.templates|
        invariant TemplatesDone(s, q, j, templates, templatePermissions)
      {
        var merged := MergeTemplate(q, j, s);
        if !merged {
          return false;
        }
      }
      return true;
    }

    /** The body of put_catalog's try block; a failure leaves whatever had been written so far. */
    method TryPut(q: Submission, r: Rbac.Tables, now: Time, databaseFails: bool, ghost s: Tables)
        returns (e: Option<Error>)
      requires s == State() && IdsAreDistinct(s) && |q.templates| <= |q.freshIds| && Validated(s, q)
      modifies this
      ensures e.None? <==> Accepts(s, q, r, now) && !databaseFails
      ensures e.None? ==> Merged(s, q, State()) && IdsAreDistinct(State())
      ensures e.Some? ==> Explains(s, q, r, now, e.value)
      ensures e == Some(DatabaseError) ==> databaseFails || !IdsAreFresh(s, q)
    {
      assert StatusesKnown(q) && DistinctTemplateKeys(q.templates) by {
        assert forall j :: 0 <= j < |q.templates| ==> TemplateAccepted(s, q, q.templates[j]);
      }
      assert Explains(s, q, r, now, DatabaseError);
      hide Validated, IdsAreFresh, Guarded, Owned, Explains, PermissionsMerged, TemplatesMerged, LinksMerged,
          IdsAreDistinct;
      modules := modules[q.pathKey := Module(Strip(q.name), Strip(q.version), true)];
      e := MergePermissions(q, r, now, s);
      if e.Some? {
        return;
      }
      var ok := MergeTemplates(q, s);
      if !ok || databaseFails {
        return Some(DatabaseError);
      }
      changes := changes + 1;
      CatalogMerge.MergeKeepsIdsDistinct(s, q, State());
    }

    /** put_catalog: all of the submission or nothing. */
    method PutCatalog(q: Submission, r: Rbac.Tables, now: Time, databaseFails: bool) returns (result: Result<(), Error>)
      requires IdsAreDistinct(State()) && |q.templates| <= |q.freshIds|
      modifies this
      ensures IdsAreDistinct(State())
      ensures result.Ok? <==> Accepts(old(State()), q, r, now) && !databaseFails
      ensures result.Ok? ==> Merged(old(State()), q, State())
      ensures result.Err? ==> State() == old(State()) && Explains(State(), q, r, now, result.error)
      ensures result == Err(DatabaseError) ==> databaseFails || !IdsAreFresh(State(), q)
    {
      hide Validated, Merged, IdsAreFresh, Guarded, Owned, Explains, IdsAreDistinct;
      var invalid := ValidateCatalog(q, r, now);
      if invalid.Some? {
        NeverADatabaseError(State(), q, r, now, invalid.value);
        return Err(invalid.value);
      }
      var oldModules, oldPermissions, oldTemplates, oldLinks, oldChanges :=
          modules, permissions, templates, templatePermissions, changes;
      var failed := TryPut(q, r, now, databaseFails, State());
      if failed.Some? {
        modules, permissions, templates, templatePermissions, changes :=
          oldModules, oldPermissions, oldTemplates, oldLinks, oldChanges;
        return Err(failed.value);
      }
      return Ok(());
    }
  }

  lemma NeverADatabaseError(s: Tables, q: Submission, r: Rbac.Tables, now: Time, e: Error)
    requires |q.templates| <= |q.freshIds| && !Validated(s, q) && Explains(s, q, r, now, e)
    ensures !e.DatabaseError?
  {
    hide Validated;
  }
}
