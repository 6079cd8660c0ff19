/**
 What an accepted catalogue PUT means: everything submitted is stored, nothing else moves, a second
 PUT changes nothing, keys and owners stay put over whole runs, and no retirement takes a tenant
 permission away from anybody.
 */
module CatalogMerge {
  import opened Options
  import opened Text
  import opened Catalog
  import Rbac
  import RetirementGuard

  // ---------------------------------------------------------------------------------------------
  // Template ids
  // ---------------------------------------------------------------------------------------------

  lemma StoredIdsDiffer(s: Tables, q: Submission, i: int, j: int)
    requires IdsAreDistinct(s) && DistinctTemplateKeys(q.templates) && 0 <= i < j < |q.templates| <= |q.freshIds|
    requires FreshFor(s, q, i) && FreshFor(s, q, j) && q.templates[i].status.Some? && q.templates[j].status.Some?
    ensures StoredTemplate(s, q, i).id != StoredTemplate(s, q, j).id
  {
    assert TemplateKey(q, i) != TemplateKey(q, j);
  }

  lemma OtherIdsDiffer(s: Tables, q: Submission, j: int, k: (string, string))
    requires IdsAreDistinct(s) && 0 <= j < |q.templates| <= |q.freshIds| && q.templates[j].status.Some?
    requires FreshFor(s, q, j) && k in s.templates && k != TemplateKey(q, j)
    ensures StoredTemplate(s, q, j).id != s.templates[k].id
  {}

  lemma MergeKeepsIdsDistinct(s: Tables, q: Submission, s': Tables)
    requires IdsAreDistinct(s) && |q.templates| <= |q.freshIds| && Validated(s, q) && IdsAreFresh(s, q)
             && Merged(s, q, s')
    ensures IdsAreDistinct(s')
  {
    hide LinksMerged, PermissionsMerged, PermissionAccepted, FreshFor, StoredTemplate, HeaderAccepted;
    forall a, b | a in s'.templates && b in s'.templates && a != b ensures s'.templates[a].id != s'.templates[b].id {
      TwoRowsDiffer(s, q, s', a, b);
    }
  }

  lemma TwoRowsDiffer(s: Tables, q: Submission, s': Tables, a: (string, string), b: (string, string))
    requires IdsAreDistinct(s) && |q.templates| <= |q.freshIds| && Validated(s, q) && IdsAreFresh(s, q)
             && Merged(s, q, s')
    requires a in s'.templates && b in s'.templates && a != b
    ensures s'.templates[a].id != s'.templates[b].id
  {
    hide LinksMerged, PermissionsMerged, PermissionAccepted, FreshFor, StoredTemplate, HeaderAccepted;
    var n := |q.templates|;
    if IsSubmittedTemplate(q, n, a) {
      var i :| 0 <= i < n && a == TemplateKey(q, i);
      if IsSubmittedTemplate(q, n, b) {
        var j :| 0 <= j < n && b == TemplateKey(q, j);
        if i < j { StoredIdsDiffer(s, q, i, j); } else { StoredIdsDiffer(s, q, j, i); }
      } else {
        OtherIdsDiffer(s, q, i, b);
      }
    } else if IsSubmittedTemplate(q, n, b) {
      var j :| 0 <= j < n && b == TemplateKey(q, j);
      OtherIdsDiffer(s, q, j, a);
    }
  }

  // ---------------------------------------------------------------------------------------------
  // Exactly what was submitted, and nothing else
  // ---------------------------------------------------------------------------------------------

  /** The row a submission asks for. */
  function AsSubmitted(q: Submission, p: PermissionInput): Permission
    requires p.status.Some?
  {
    Permission(q.pathKey, ResourceOf(p.key), ActionOf(p.key), Strip(p.name), p.description, p.status.value,
        Strip(q.version))
  }

  predicate SplitDiffers(s: Tables, key: string) {
    key in s.permissions && (s.permissions[key].resource != ResourceOf(key)
        || s.permissions[key].action != ActionOf(key))
  }

  /**
   A submitted permission ends up as submitted unless a row with another resource or action was
   already there: that row is kept and the PUT still succeeds, so the submission is lost exactly
   when the two rows differ.
   */
  lemma SubmittedPermissionIsStored(s: Tables, q: Submission, r: Rbac.Tables, now: Time, s': Tables, i: int)
    requires |q.templates| <= |q.freshIds| && Accepts(s, q, r, now) && Merged(s, q, s') && 0 <= i < |q.permissions|
    ensures q.permissions[i].key in s'.permissions
    ensures s'.permissions[q.permissions[i].key] == AsSubmitted(q, q.permissions[i]) <==>
              !SplitDiffers(s, q.permissions[i].key)
    ensures SplitDiffers(s, q.permissions[i].key) ==>
              s'.permissions[q.permissions[i].key] == s.permissions[q.permissions[i].key]
  {
    assert Owned(s, q, q.permissions[i].key);
  }

  lemma UnsubmittedPermissionIsKept(s: Tables, q: Submission, s': Tables, key: string)
    requires |q.templates| <= |q.freshIds| && Validated(s, q) && Merged(s, q, s')
             && key !in SubmittedKeys(q.permissions)
    ensures Stored(s'.permissions, key) == Stored(s.permissions, key)
  {
    assert q.permissions[..|q.permissions|] == q.permissions;
    if key in s.permissions {
      assert s'.permissions[key] == s.permissions[key];
    }
  }

  /** The row says what template j of the submission says, under the id stored before or else the fresh one. */
  ghost predicate SaysTemplate(s: Tables, q: Submission, j: int, row: Template)
    requires 0 <= j < |q.templates| <= |q.freshIds|
  {
    var t, k := q.templates[j], (q.pathKey, q.templates[j].key);
    && row.name == Strip(t.name) && row.description == t.description && Some(row.status) == t.status
    && row.version == Strip(q.version)
    && row.id == (if k in s.templates then s.templates[k].id else q.freshIds[j])
  }

  lemma SubmittedTemplateIs(s: Tables, q: Submission, s': Tables, j: int)
    requires |q.templates| <= |q.freshIds| && Validated(s, q) && Merged(s, q, s') && 0 <= j < |q.templates|
    ensures TemplateKey(q, j) in s'.templates && q.templates[j].status.Some?
    ensures s'.templates[TemplateKey(q, j)] == StoredTemplate(s, q, j)
    ensures SaysTemplate(s, q, j, StoredTemplate(s, q, j))
    ensures PermissionsOf(s', StoredTemplate(s, q, j).id) == set p | p in q.templates[j].permissions
  {
    assert TemplateAccepted(s, q, q.templates[j]);
    hide PermissionsMerged, PermissionAccepted, HeaderAccepted, ReferenceAccepted;
    var id := StoredTemplate(s, q, j).id;
    forall p ensures p in PermissionsOf(s', id) <==> p in q.templates[j].permissions {
      assert p in PermissionsOf(s', id) <==> (id, p) in s'.templatePermissions;
    }
  }

  lemma OtherTemplateIs(s: Tables, q: Submission, s': Tables, k: (string, string))
    requires IdsAreDistinct(s) && |q.templates| <= |q.freshIds| && Validated(s, q) && IdsAreFresh(s, q)
             && Merged(s, q, s') && !IsSubmittedTemplate(q, |q.templates|, k)
    ensures Stored(s'.templates, k) == Stored(s.templates, k)
    ensures k in s.templates ==> PermissionsOf(s', s.templates[k].id) == PermissionsOf(s, s.templates[k].id)
  {
    hide FreshFor, PermissionsMerged, PermissionAccepted, HeaderAccepted, ReferenceAccepted;
    if k in s.templates {
      var id := s.templates[k].id;
      forall j | 0 <= j < |q.templates| ensures StoredTemplate(s, q, j).id != id {
        OtherIdsDiffer(s, q, j, k);
      }
      forall p ensures p in PermissionsOf(s', id) <==> p in PermissionsOf(s, id) {
        assert (id, p) in s'.templatePermissions <==> (id, p) in s.templatePermissions;
      }
    }
  }

  /**
   A submitted template ends with the submitted columns and exactly the submitted permissions, under the id it
   had; every other one is untouched.
   */
  lemma TemplatesAreReplacedExactly(s: Tables, q: Submission, s': Tables, k: (string, string))
    requires IdsAreDistinct(s) && |q.templates| <= |q.freshIds| && Validated(s, q) && IdsAreFresh(s, q)
             && Merged(s, q, s')
    ensures forall j :: 0 <= j < |q.templates| && k == (q.pathKey, q.templates[j].key) ==>
              && k in s'.templates && SaysTemplate(s, q, j, s'.templates[k])
              && PermissionsOf(s', s'.templates[k].id) == (set p | p in q.templates[j].permissions)
    ensures (forall j :: 0 <= j < |q.templates| ==> k != (q.pathKey, q.templates[j].key)) ==>
              && Stored(s'.templates, k) == Stored(s.templates, k)
              && (k in s.templates ==> PermissionsOf(s', s.templates[k].id) == PermissionsOf(s, s.templates[k].id))
  {
    forall j | 0 <= j < |q.templates| && k == (q.pathKey, q.templates[j].key)
      ensures k in s'.templates && SaysTemplate(s, q, j, s'.templates[k])
      ensures PermissionsOf(s', s'.templates[k].id) == (set p | p in q.templates[j].permissions)
    {
      SubmittedTemplateIs(s, q, s', j);
    }
    if !IsSubmittedTemplate(q, |q.templates|, k) {
      OtherTemplateIs(s, q, s', k);
    }
    hide Validated, IdsAreFresh, IdsAreDistinct, Merged, SaysTemplate, PermissionsOf, Stored;
  }

  /**
   What a submitted template names is stored, belongs to the module and is ACTIVE, unless its own submission was
   dropped over a row of another split that is not.
   */
  lemma TemplatesNameActivePermissions(
    s: Tables, q: Submission, r: Rbac.Tables, now: Time, s': Tables, j: int, key: string)
    requires |q.templates| <= |q.freshIds| && Accepts(s, q, r, now) && Merged(s, q, s')
    requires 0 <= j < |q.templates| && key in q.templates[j].permissions
    ensures key in s'.permissions && s'.permissions[key].moduleKey == q.pathKey
    ensures s'.permissions[key].status == Active <==>
              !(SplitDiffers(s, key) && key in SubmittedKeys(q.permissions) && s.permissions[key].status != Active)
  {
    assert TemplateAccepted(s, q, q.templates[j]) && ReferenceAccepted(s, q, key);
    if i :| 0 <= i < |q.permissions| && q.permissions[i].key == key && q.permissions[i].status == Some(Active) {
      assert Owned(s, q, q.permissions[i].key);
      SubmittedPermissionIsStored(s, q, r, now, s', i);
    } else {
      UnsubmittedPermissionIsKept(s, q, s', key);
      assert Stored(s'.permissions, key) == Some(s.permissions[key]);
    }
    hide Accepts, Merged, Validated, ResourceOf, ActionOf;
  }

  // ---------------------------------------------------------------------------------------------
  // A second PUT
  // ---------------------------------------------------------------------------------------------

  function Again(q: Submission, freshIds: seq<TemplateId>): Submission { q.(freshIds := freshIds) }

  lemma ReferenceStillAccepted(s: Tables, q: Submission, s': Tables, f: seq<TemplateId>, key: string)
    requires |q.templates| <= |q.freshIds| && Validated(s, q) && Merged(s, q, s') && ReferenceAccepted(s, q, key)
    ensures ReferenceAccepted(s', Again(q, f), key)
  {
    hide TemplatesMerged, LinksMerged, PermissionAccepted, HeaderAccepted, TemplateAccepted;
    if key !in SubmittedKeys(q.permissions) {
      UnsubmittedPermissionIsKept(s, q, s', key);
      assert Stored(s'.permissions, key) == Some(s.permissions[key]);
    }
  }

  lemma TemplateStillAccepted(s: Tables, q: Submission, s': Tables, f: seq<TemplateId>, j: int)
    requires |q.templates| <= |q.freshIds| && Validated(s, q) && Merged(s, q, s') && 0 <= j < |q.templates|
    ensures TemplateAccepted(s', Again(q, f), q.templates[j])
  {
    hide Merged, ReferenceAccepted, PermissionAccepted, HeaderAccepted;
    var t := q.templates[j];
    assert TemplateAccepted(s, q, t);
    forall k | k in t.permissions ensures ReferenceAccepted(s', Again(q, f), k) {
      ReferenceStillAccepted(s, q, s', f, k);
    }
  }

  lemma StillValidated(s: Tables, q: Submission, s': Tables, f: seq<TemplateId>)
    requires |q.templates| <= |q.freshIds| && Validated(s, q) && Merged(s, q, s')
    ensures Validated(s', Again(q, f))
  {
    hide Merged, TemplateAccepted;
    forall j | 0 <= j < |q.templates| ensures TemplateAccepted(s', Again(q, f), q.templates[j]) {
      TemplateStillAccepted(s, q, s', f, j);
    }
    forall i | 0 <= i < |q.permissions| ensures PermissionAccepted(Again(q, f), q.permissions[i]) {
      assert PermissionAccepted(q, q.permissions[i]);
    }
  }

  /** An identical PUT is accepted again, whatever ids it would draw, as long as the guard gives the same answers. */
  lemma SecondPutIsAccepted(s: Tables, q: Submission, r: Rbac.Tables, now: Time, s': Tables, f: seq<TemplateId>)
    requires |q.templates| <= |q.freshIds| && |q.templates| <= |f| && Accepts(s, q, r, now) && Merged(s, q, s')
    ensures Accepts(s', Again(q, f), r, now)
  {
    hide Validated, TemplateAccepted, LinksMerged, HeaderAccepted;
    StillValidated(s, q, s', f);
    var again := Again(q, f);
    forall i | 0 <= i < |q.permissions|
      ensures Owned(s', again, q.permissions[i].key) && Guarded(r, now, q.permissions[i])
    {
      assert Owned(s, q, q.permissions[i].key) && Guarded(r, now, q.permissions[i]);
      assert q.permissions[i].key in s'.permissions;
    }
    forall j | 0 <= j < |q.templates| ensures FreshFor(s', again, j) {
      assert TemplateKey(q, j) in s'.templates;
    }
  }

  /** Upserting the same row twice is upserting it once. */
  lemma UpsertTwice(before: Option<Permission>, q: Submission, f: seq<TemplateId>, p: PermissionInput)
    requires p.status.Some?
    ensures StoredPermission(Some(StoredPermission(before, q, p)), Again(q, f), p) == StoredPermission(before, q, p)
  {
    hide ResourceOf, ActionOf, Strip;
  }

  lemma PermissionsMergeTwice(m: map<string, Permission>, q: Submission, m': map<string, Permission>,
      f: seq<TemplateId>, m'': map<string, Permission>)
    requires forall i :: 0 <= i < |q.permissions| ==> q.permissions[i].status.Some?
    requires PermissionsMerged(m, q, |q.permissions|, m') && PermissionsMerged(m', Again(q, f), |q.permissions|, m'')
    ensures m'' == m'
  {
    hide StoredPermission;
    var n := |q.permissions|;
    assert q.permissions[..n] == q.permissions;
    assert m''.Keys == m'.Keys;
    forall k | k in m' ensures m''[k] == m'[k] {
      if k in SubmittedKeys(q.permissions) {
        var i :| 0 <= i < n && q.permissions[i].key == k;
        UpsertTwice(Stored(m, k), q, f, q.permissions[i]);
      }
    }
  }

  lemma SecondPermissionsUnchanged(s: Tables, q: Submission, s': Tables, f: seq<TemplateId>, s'': Tables)
    requires |q.templates| <= |q.freshIds| && |q.templates| <= |f| && Validated(s, q) && Merged(s, q, s')
    requires Validated(s', Again(q, f)) && Merged(s', Again(q, f), s'')
    ensures s''.permissions == s'.permissions
  {
    assert forall i :: 0 <= i < |q.permissions| ==>
        PermissionAccepted(q, q.permissions[i]) && q.permissions[i].status.Some?;
    hide Validated, PermissionsMerged, TemplatesMerged, LinksMerged;
    PermissionsMergeTwice(s.permissions, q, s'.permissions, f, s''.permissions);
  }

  lemma TemplateStoredTwice(s: Tables, q: Submission, s': Tables, f: seq<TemplateId>, j: int)
    requires 0 <= j < |q.templates| && |q.templates| <= |q.freshIds| && |q.templates| <= |f|
    requires forall i :: 0 <= i < |q.templates| ==> q.templates[i].status.Some?
    requires TemplatesMerged(s, q, |q.templates|, s'.templates)
    ensures StoredTemplate(s', Again(q, f), j) == StoredTemplate(s, q, j)
  {
    assert s'.templates[TemplateKey(q, j)] == StoredTemplate(s, q, j);
  }

  lemma TemplatesMergeTwice(s: Tables, q: Submission, s': Tables, f: seq<TemplateId>,
      m: map<(string, string), Template>)
    requires |q.templates| <= |q.freshIds| && |q.templates| <= |f|
    requires forall i :: 0 <= i < |q.templates| ==> q.templates[i].status.Some?
    requires TemplatesMerged(s, q, |q.templates|, s'.templates) && TemplatesMerged(s', Again(q, f), |q.templates|, m)
    ensures m == s'.templates
  {
    hide StoredTemplate;
    var n, again := |q.templates|, Again(q, f);
    forall k ensures k in m <==> k in s'.templates {
      if IsSubmittedTemplate(again, n, k) {
        var j :| 0 <= j < n && k == TemplateKey(again, j);
        assert TemplateKey(q, j) in s'.templates;
      }
    }
    forall k | k in s'.templates ensures m[k] == s'.templates[k] {
      if IsSubmittedTemplate(again, n, k) {
        var j :| 0 <= j < n && k == TemplateKey(again, j);
        assert TemplateKey(q, j) == k;
        TemplateStoredTwice(s, q, s', f, j);
      }
    }
  }

  lemma SecondTemplatesUnchanged(s: Tables, q: Submission, s': Tables, f: seq<TemplateId>, s'': Tables)
    requires |q.templates| <= |q.freshIds| && |q.templates| <= |f| && Validated(s, q) && Merged(s, q, s')
    requires Validated(s', Again(q, f)) && Merged(s', Again(q, f), s'')
    ensures s''.templates == s'.templates
    ensures forall j :: 0 <= j < |q.templates| ==> StoredTemplate(s', Again(q, f), j).id == StoredTemplate(s, q, j).id
  {
    assert forall j :: 0 <= j < |q.templates| ==> TemplateAccepted(s, q, q.templates[j]) && q.templates[j].status.Some?;
    hide Validated, PermissionsMerged, LinksMerged, TemplatesMerged, StoredTemplate;
    TemplatesMergeTwice(s, q, s', f, s''.templates);
    forall j | 0 <= j < |q.templates| ensures StoredTemplate(s', Again(q, f), j) == StoredTemplate(s, q, j) {
      TemplateStoredTwice(s, q, s', f, j);
    }
  }

  lemma SecondLinksUnchanged(s: Tables, q: Submission, s': Tables, f: seq<TemplateId>, s'': Tables)
    requires |q.templates| <= |q.freshIds| && |q.templates| <= |f| && Validated(s, q) && Merged(s, q, s')
    requires Validated(s', Again(q, f)) && Merged(s', Again(q, f), s'')
    ensures s''.templatePermissions == s'.templatePermissions
  {
    SecondTemplatesUnchanged(s, q, s', f, s'');
    hide Validated, PermissionsMerged, TemplatesMerged, StoredTemplate;
    var n := |q.templates|;
    forall g: (TemplateId, string) ensures g in s''.templatePermissions <==> g in s'.templatePermissions {
      if j :| 0 <= j < n && StoredTemplate(s, q, j).id == g.0 {
        assert g == (StoredTemplate(s, q, j).id, g.1);
        assert StoredTemplate(s', Again(q, f), j).id == g.0;
      } else {
        assert forall j :: 0 <= j < n ==> StoredTemplate(s', Again(q, f), j).id != g.0;
      }
    }
  }

  /** The second PUT changes nothing but its audit record (and timestamps, which are not modelled). */
  lemma SecondPutChangesNothing(s: Tables, q: Submission, r: Rbac.Tables, now: Time, s': Tables, f: seq<TemplateId>,
      s'': Tables)
    requires |q.templates| <= |q.freshIds| && |q.templates| <= |f| && Accepts(s, q, r, now) && Merged(s, q, s')
    requires Validated(s', Again(q, f)) && Merged(s', Again(q, f), s'')
    ensures s'' == s'.(changes := s'.changes + 1)
  {
    SecondPermissionsUnchanged(s, q, s', f, s'');
    SecondTemplatesUnchanged(s, q, s', f, s'');
    SecondLinksUnchanged(s, q, s', f, s'');
    hide Validated, PermissionsMerged, TemplatesMerged, LinksMerged;
    SecondModulesUnchanged(s, q, s', f, s'');
    hide Merged, Accepts;
  }

  lemma SecondModulesUnchanged(s: Tables, q: Submission, s': Tables, f: seq<TemplateId>, s'': Tables)
    requires |q.templates| <= |q.freshIds| && |q.templates| <= |f| && Validated(s, q) && Merged(s, q, s')
    requires Validated(s', Again(q, f)) && Merged(s', Again(q, f), s'')
    ensures s''.modules == s'.modules && s''.changes == s'.changes + 1
  {
    hide Validated, PermissionsMerged, TemplatesMerged, LinksMerged;
  }

  // ---------------------------------------------------------------------------------------------
  // Keys and owners over runs
  // ---------------------------------------------------------------------------------------------

  datatype Put = Put(before: Tables, submission: Submission, tenants: Rbac.Tables, now: Time, after: Tables)

  /** One PUT: merged as a whole when accepted, and otherwise, or when the database fails, nothing. */
  ghost predicate Happens(e: Put) {
    || e.after == e.before
    || (|e.submission.templates| <= |e.submission.freshIds| && Accepts(e.before, e.submission, e.tenants, e.now)
        && Merged(e.before, e.submission, e.after))
  }

  ghost predicate Run(puts: seq<Put>) {
    && (forall i :: 0 <= i < |puts| ==> Happens(puts[i]))
    && (forall i :: 0 < i < |puts| ==> puts[i].before == puts[i - 1].after)
  }

  predicate SameOwner(a: Permission, b: Permission) {
    a.moduleKey == b.moduleKey && a.resource == b.resource && a.action == b.action
  }

  lemma MergeKeepsOwner(s: Tables, q: Submission, s': Tables, key: string)
    requires |q.templates| <= |q.freshIds| && Validated(s, q) && Merged(s, q, s') && key in s.permissions
    ensures key in s'.permissions && SameOwner(s.permissions[key], s'.permissions[key])
  {
    assert forall i :: 0 <= i < |q.permissions| ==>
        PermissionAccepted(q, q.permissions[i]) && q.permissions[i].status.Some?;
    hide Validated, TemplatesMerged, LinksMerged, ResourceOf, ActionOf;
    if key in SubmittedKeys(q.permissions) {
      var i :| 0 <= i < |q.permissions| && q.permissions[i].key == key;
      assert s'.permissions[key] == StoredPermission(Some(s.permissions[key]), q, q.permissions[i]);
    } else {
      UnsubmittedPermissionIsKept(s, q, s', key);
      assert Stored(s'.permissions, key) == Some(s.permissions[key]);
    }
  }

  lemma PutKeepsOwner(e: Put, key: string)
    requires Happens(e) && key in e.before.permissions
    ensures key in e.after.permissions && SameOwner(e.before.permissions[key], e.after.permissions[key])
  {
    hide Merged, Validated;
    if e.after != e.before {
      MergeKeepsOwner(e.before, e.submission, e.after, key);
    }
  }

  /** Over any run a stored permission never leaves the catalogue and never changes owner, resource or action. */
  lemma {:induction false} OwnersNeverChange(puts: seq<Put>, i: nat, j: nat, key: string)
    requires Run(puts) && i <= j < |puts| && key in puts[i].before.permissions
    ensures key in puts[j].after.permissions
            && SameOwner(puts[i].before.permissions[key], puts[j].after.permissions[key])
    decreases j
  {
    hide Happens;
    if i < j {
      OwnersNeverChange(puts, i, j - 1, key);
    }
    PutKeepsOwner(puts[j], key);
  }

  /** The stored columns spell the key: first segment, resource and action, joined by dots. */
  ghost predicate Spells(key: string, p: Permission) {
    |Split(key, '.')| >= 3 && Join([Split(key, '.')[0], p.resource, p.action], '.') == key
  }

  ghost predicate AllSpell(s: Tables) {
    forall k :: k in s.permissions ==> Spells(k, s.permissions[k])
  }

  lemma {:induction false} JoinAppend(front: seq<string>, last: string, c: char)
    requires front != []
    ensures Join(front + [last], c) == Join(front, c) + [c] + last
  {
    if |front| > 1 {
      JoinAppend(front[1..], last, c);
      assert (front + [last])[1..] == front[1..] + [last];
    }
  }

  lemma CanonicalKeySpells(key: string)
    requires IsCanonicalPermission(key)
    ensures Join([Split(key, '.')[0], ResourceOf(key), ActionOf(key)], '.') == key
  {
    var parts := Split(key, '.');
    var n := |parts|;
    JoinOfSplit(key, '.');
    JoinAppend(parts[1..n - 1], parts[n - 1], '.');
    assert parts[1..n - 1] + [parts[n - 1]] == parts[1..];
    var three := [parts[0], ResourceOf(key), ActionOf(key)];
    assert three[1..][1..] == [ActionOf(key)] && three[1..][0] == ResourceOf(key);
    assert Join(three[1..], '.') == ResourceOf(key) + ['.'] + ActionOf(key);
  }

  lemma PutKeepsSpelling(e: Put)
    requires Happens(e) && AllSpell(e.before)
    ensures AllSpell(e.after)
  {
    hide TemplatesMerged, LinksMerged, ResourceOf, ActionOf, IsCanonicalPermission, TemplateAccepted, Join, Split;
    forall k | k in e.after.permissions ensures Spells(k, e.after.permissions[k]) {
      if k in e.before.permissions {
        PutKeepsOwner(e, k);
      } else {
        var q := e.submission;
        assert q.permissions[..|q.permissions|] == q.permissions;
        var i :| 0 <= i < |q.permissions| && q.permissions[i].key == k;
        assert PermissionAccepted(q, q.permissions[i]);
        SpellsWhenNew(q, q.permissions[i]);
      }
    }
  }

  lemma SpellsWhenNew(q: Submission, p: PermissionInput)
    requires PermissionAccepted(q, p)
    ensures Spells(p.key, StoredPermission(None, q, p))
  {
    CanonicalKeySpells(p.key);
  }

  /** Over any run the catalogue keeps spelling its keys. */
  lemma {:induction false} SpellingOverRuns(puts: seq<Put>, j: nat)
    requires Run(puts) && j < |puts| && AllSpell(puts[0].before)
    ensures AllSpell(puts[j].before) && AllSpell(puts[j].after)
  {
    hide Happens, AllSpell;
    if j > 0 {
      SpellingOverRuns(puts, j - 1);
    }
    PutKeepsSpelling(puts[j]);
  }

  /** Every stored row has the resource and action the service would compute from its key. */
  ghost predicate AllSplit(s: Tables) {
    forall k :: !SplitDiffers(s, k)
  }

  /** A PUT neither repairs a row with another split nor writes one. */
  lemma PutKeepsSplit(e: Put, key: string)
    requires Happens(e)
    ensures SplitDiffers(e.after, key) <==> SplitDiffers(e.before, key)
  {
    hide TemplatesMerged, LinksMerged, ResourceOf, ActionOf, IsCanonicalPermission, TemplateAccepted;
    if key in e.before.permissions {
      PutKeepsOwner(e, key);
    } else if key in e.after.permissions {
      var q := e.submission;
      assert q.permissions[..|q.permissions|] == q.permissions;
      var i :| 0 <= i < |q.permissions| && q.permissions[i].key == key;
      assert PermissionAccepted(q, q.permissions[i]);
    }
  }

  /** Over a run the rows with another split are those it started with. */
  lemma {:induction false} SplitIsSettled(puts: seq<Put>, j: nat, key: string)
    requires Run(puts) && j < |puts|
    ensures SplitDiffers(puts[j].before, key) <==> SplitDiffers(puts[0].before, key)
  {
    hide Happens, SplitDiffers;
    if j > 0 {
      SplitIsSettled(puts, j - 1, key);
      PutKeepsSplit(puts[j - 1], key);
    }
  }

  /**
   A permission submitted by an accepted PUT of a run is stored as submitted exactly unless the run started
   with a row of another split under its key; from a catalogue without such rows every one is.
   */
  lemma SubmissionsOfRunsAreStored(puts: seq<Put>, j: nat, i: nat)
    requires Run(puts) && j < |puts| && i < |puts[j].submission.permissions|
    requires |puts[j].submission.templates| <= |puts[j].submission.freshIds|
    requires Accepts(puts[j].before, puts[j].submission, puts[j].tenants, puts[j].now)
    requires Merged(puts[j].before, puts[j].submission, puts[j].after)
    ensures var q, p, m := puts[j].submission, puts[j].submission.permissions[i], puts[j].after.permissions;
            && p.status.Some? && p.key in m
            && (m[p.key] == AsSubmitted(q, p) <==> !SplitDiffers(puts[0].before, p.key))
            && (AllSplit(puts[0].before) ==> m[p.key] == AsSubmitted(q, p))
  {
    var e := puts[j];
    assert PermissionAccepted(e.submission, e.submission.permissions[i]);
    SubmittedPermissionIsStored(e.before, e.submission, e.tenants, e.now, e.after, i);
    SplitIsSettled(puts, j, e.submission.permissions[i].key);
    hide Accepts, Merged, Run, SplitDiffers;
  }

  /** The split decides the spelling of canonical keys; the converse fails, as `SubmissionSilentlyDropped` shows. */
  lemma SplitSpells(s: Tables)
    requires AllSplit(s) && forall k :: k in s.permissions ==> IsCanonicalPermission(k)
    ensures AllSpell(s)
  {
    forall k | k in s.permissions ensures Spells(k, s.permissions[k]) {
      assert !SplitDiffers(s, k);
      CanonicalKeySpells(k);
    }
  }

  /** The first segment of a permission is its module exactly when the module key has no dot. */
  lemma FirstSegmentIsModule(q: Submission, p: PermissionInput)
    requires PermissionAccepted(q, p)
    ensures Split(p.key, '.')[0] == q.pathKey <==> '.' !in q.pathKey
  {
    PrefixSegment(p.key, q.pathKey);
  }

  lemma {:induction false} PrefixSegment(key: string, prefix: string)
    requires prefix + "." <= key
    ensures '.' !in prefix ==> Split(key, '.')[0] == prefix
  {
    if prefix != "" {
      assert key[0] == prefix[0];
      assert key[1..][..|prefix|] == prefix[1..] + ".";
      PrefixSegment(key[1..], prefix[1..]);
    }
  }

  // ---------------------------------------------------------------------------------------------
  // Retirement through a PUT
  // ---------------------------------------------------------------------------------------------

  /** The tenant tables with the catalogue's permission statuses after the PUT. */
  function Status(l: Lifecycle): Rbac.PermissionStatus {
    match l case Active => Rbac.PermissionActive case Deprecated => Rbac.PermissionDeprecated
      case Retired => Rbac.PermissionRetired
  }

  function WithCatalog(r: Rbac.Tables, s: Tables): Rbac.Tables {
    r.(permissions := map k | k in s.permissions :: Status(s.permissions[k].status))
  }

  ghost predicate Retires(q: Submission, key: string) {
    exists i :: 0 <= i < |q.permissions| && q.permissions[i].key == key && q.permissions[i].status == Some(Retired)
  }

  /** No accepted PUT takes a permission it retires, or one it does not mention, from any user of any tenant. */
  lemma RetirementTakesNothing(s: Tables, q: Submission, r: Rbac.Tables, now: Time, s': Tables, t: Rbac.TenantId,
      u: Rbac.UserId, g: (string, string))
    requires |q.templates| <= |q.freshIds| && Accepts(s, q, WithCatalog(r, s), now) && Merged(s, q, s')
    requires g.1 !in SubmittedKeys(q.permissions) || Retires(q, g.1)
    requires g in Rbac.TenantGrants(WithCatalog(r, s), t, u, now)
    ensures g in Rbac.TenantGrants(WithCatalog(r, s'), t, u, now)
  {
    var before, after := WithCatalog(r, s), WithCatalog(r, s');
    var role := Rbac.GrantHow(before, t, u, now, g);
    KeepsWhatIsHeld(s, q, r, now, s', t, u, role, g.1);
    RolesIgnoreCatalog(r, s, s', t, u, role, now);
    assert (t, role, g.1) in after.rolePermissions && after.roles[(t, role)].key == g.0;
    hide Merged, Accepts, SubmittedKeys, Rbac.TenantGrants, Rbac.HasRole, Rbac.PermissionIsActive;
    Rbac.GrantBy(after, t, u, now, role, g.1);
  }

  /** What somebody holds stays ACTIVE: retiring it is refused, and leaving it out keeps its row. */
  lemma KeepsWhatIsHeld(
    s: Tables, q: Submission, r: Rbac.Tables, now: Time, s': Tables, t: Rbac.TenantId, u: Rbac.UserId,
    role: Rbac.RoleId, key: string)
    requires |q.templates| <= |q.freshIds| && Accepts(s, q, WithCatalog(r, s), now) && Merged(s, q, s')
    requires key !in SubmittedKeys(q.permissions) || Retires(q, key)
    requires var before := WithCatalog(r, s);
             Rbac.HasRole(before, t, u, role, now) && (t, role, key) in before.rolePermissions
    requires Rbac.PermissionIsActive(WithCatalog(r, s), key)
    ensures Rbac.PermissionIsActive(WithCatalog(r, s'), key)
  {
    var before := WithCatalog(r, s);
    if i :| 0 <= i < |q.permissions| && q.permissions[i].key == key && q.permissions[i].status == Some(Retired) {
      HeldIsNotRetired(before, now, q.permissions[i], t, u, role);
    } else {
      UnsubmittedPermissionIsKept(s, q, s', key);
      assert Stored(s'.permissions, key) == Some(s.permissions[key]);
    }
    hide Merged, Validated, IdsAreFresh, SubmittedKeys, Guarded, Owned, Rbac.HasRole;
  }

  /** The guard refuses to retire what somebody holds. */
  lemma HeldIsNotRetired(r: Rbac.Tables, now: Time, p: PermissionInput, t: Rbac.TenantId, u: Rbac.UserId,
      role: Rbac.RoleId)
    requires Guarded(r, now, p) && Rbac.HasRole(r, t, u, role, now) && (t, role, p.key) in r.rolePermissions
    ensures p.status != Some(Retired)
  {
    RetirementGuard.GuardAgreesWithRuntime(r, p.key, now);
    assert RetirementGuard.WouldObtain(r, t, u, p.key, now);
  }

  /** The PUT retires key for good: it is submitted as RETIRED and not silently dropped. */
  ghost predicate RetiredBy(s: Tables, q: Submission, key: string) {
    !SplitDiffers(s, key) && Retires(q, key)
  }

  lemma StatusAfterPut(s: Tables, q: Submission, r: Rbac.Tables, now: Time, s': Tables, key: string)
    requires |q.templates| <= |q.freshIds| && Accepts(s, q, r, now) && Merged(s, q, s') && key in s.permissions
    requires key !in SubmittedKeys(q.permissions) || Retires(q, key)
    ensures key in s'.permissions
    ensures s'.permissions[key].status == if RetiredBy(s, q, key) then Retired else s.permissions[key].status
  {
    if i :| 0 <= i < |q.permissions| && q.permissions[i].key == key && q.permissions[i].status == Some(Retired) {
      SubmittedPermissionIsStored(s, q, r, now, s', i);
    } else {
      UnsubmittedPermissionIsKept(s, q, s', key);
      assert Stored(s'.permissions, key) == Some(s.permissions[key]);
    }
    hide Merged, Accepts;
  }

  /**
   All grants of a user, platform roles included: of what an accepted PUT retires or does not mention, a
   user loses exactly the pairs whose permission it retires, and every such pair came from a platform
   role, which the guard does not look at.
   */
  lemma RetirementTakesOnlyPlatformGrants(s: Tables, q: Submission, r: Rbac.Tables, now: Time, s': Tables,
      t: Rbac.TenantId, u: Rbac.UserId, g: (string, string))
    requires |q.templates| <= |q.freshIds| && Accepts(s, q, WithCatalog(r, s), now) && Merged(s, q, s')
    requires g.1 !in SubmittedKeys(q.permissions) || Retires(q, g.1)
    requires g in Rbac.Grants(WithCatalog(r, s), t, u, now)
    ensures g !in Rbac.Grants(WithCatalog(r, s'), t, u, now) <==> RetiredBy(s, q, g.1)
    ensures RetiredBy(s, q, g.1) ==>
              g in Rbac.PlatformGrants(WithCatalog(r, s), u) && g !in Rbac.TenantGrants(WithCatalog(r, s), t, u, now)
  {
    var before, after := WithCatalog(r, s), WithCatalog(r, s');
    GrantedOnlyWhenActive(before, t, u, now, g);
    StatusAfterPut(s, q, before, now, s', g.1);
    StatusDecides(r, s, s', g.1, RetiredBy(s, q, g.1));
    if g in Rbac.TenantGrants(before, t, u, now) {
      RetirementTakesNothing(s, q, r, now, s', t, u, g);
    }
    hide Merged, Accepts, RetiredBy, Retires, SubmittedKeys;
    hide Rbac.TenantGrants, Rbac.PlatformGrants, Rbac.PermissionIsActive;
    PlatformGrantWhen(before, u, g);
    PlatformGrantWhen(after, u, g);
    GrantedOnlyWhenActive(after, t, u, now, g);
  }

  lemma StatusDecides(r: Rbac.Tables, s: Tables, s': Tables, key: string, retired: bool)
    requires Rbac.PermissionIsActive(WithCatalog(r, s), key) && key in s.permissions && key in s'.permissions
    requires s'.permissions[key].status == if retired then Retired else s.permissions[key].status
    ensures Rbac.PermissionIsActive(WithCatalog(r, s'), key) <==> !retired
  {}

  lemma PlatformGrantWhen(r: Rbac.Tables, u: Rbac.UserId, g: (string, string))
    ensures g in Rbac.PlatformGrants(r, u) <==> (u, g.0, g.1) in r.platformGrants && Rbac.PermissionIsActive(r, g.1)
  {}

  lemma GrantedOnlyWhenActive(r: Rbac.Tables, t: Rbac.TenantId, u: Rbac.UserId, now: Time, g: (string, string))
    ensures g in Rbac.Grants(r, t, u, now) ==> Rbac.PermissionIsActive(r, g.1)
  {}

  /** A canonical key with four segments, its module, and two ways to cut the rest. */
  lemma SampleKey() returns (path: string, key: string)
    ensures path != "" && path + "." <= key && IsCanonicalPermission(key)
    ensures Spells(key, Permission(path, "b", "c.d", key, None, Deprecated, key)) && ActionOf(key) != "c.d"
  {
    var parts := ["a", "b", "c", "d"];
    path, key := "a", Join(parts, '.');
    SplitOfJoin(parts, '.');
    assert parts[1..] == ["b", "c", "d"] && parts[1..][1..] == ["c", "d"] && parts[1..][1..][1..] == ["d"];
    assert Join(["c", "d"], '.') == "c.d" by {
      assert ["c", "d"][1..] == ["d"];
    }
    assert Join(parts[1..], '.') == "b" + ['.'] + "c.d";
    assert key == "a" + ['.'] + ("b" + ['.'] + "c.d");
    var three := ["a", "b", "c.d"];
    assert three[1..] == ["b", "c.d"] && three[1..][1..] == ["c.d"];
    assert Join(three[1..], '.') == "b" + ['.'] + "c.d";
  }

  /** strip() takes away white space at both ends and nothing else. */
  lemma {:induction false} StripTakesOnlySpace(text: string) returns (left: string, right: string)
    ensures text == left + Strip(text) + right
    ensures AllSpace(left) && AllSpace(right)
    ensures Strip(text) != "" ==> !IsSpace(Strip(text)[0]) && !IsSpace(Strip(text)[|Strip(text)| - 1])
  {
    hide IsSpace, AllSpace;
    if text != "" && IsSpace(text[0]) {
      left, right := StripTakesOnlySpace(text[1..]);
      LongerOnTheLeft(text, left, Strip(text[1..]), right);
      left := [text[0]] + left;
    } else if text != "" && IsSpace(text[|text| - 1]) {
      left, right := StripTakesOnlySpace(text[..|text| - 1]);
      LongerOnTheRight(text, left, Strip(text[..|text| - 1]), right);
      right := right + [text[|text| - 1]];
    } else {
      left, right := "", "";
      NoSpace();
    }
  }

  lemma NoSpace()
    ensures AllSpace("")
  {}

  lemma LongerOnTheLeft(text: string, left: string, core: string, right: string)
    requires text != "" && IsSpace(text[0]) && text[1..] == left + core + right && AllSpace(left)
    ensures text == ([text[0]] + left) + core + right && AllSpace([text[0]] + left)
  {
    hide IsSpace;
    assert text == [text[0]] + text[1..];
  }

  lemma LongerOnTheRight(text: string, left: string, core: string, right: string)
    requires text != "" && IsSpace(text[|text| - 1]) && text[..|text| - 1] == left + core + right && AllSpace(right)
    ensures text == left + core + (right + [text[|text| - 1]]) && AllSpace(right + [text[|text| - 1]])
  {
    hide IsSpace;
    assert text == text[..|text| - 1] + [text[|text| - 1]];
  }

  predicate AllSpace(text: string) { forall i :: 0 <= i < |text| ==> IsSpace(text[i]) }

  lemma StripOfWord(w: string)
    requires IsWord(w)
    ensures Strip(w) == w
  {}

  /**
   An input: a row that spells its key, cut at another dot, makes an accepted PUT lose its only
   submission.
   */
  lemma SubmissionSilentlyDropped() returns (s: Tables, q: Submission, r: Rbac.Tables, s': Tables)
    ensures |q.permissions| == 1 && |q.templates| <= |q.freshIds| && IdsAreDistinct(s) && AllSpell(s)
    ensures Accepts(s, q, r, 0) && Merged(s, q, s') && SplitDiffers(s, q.permissions[0].key)
    ensures s'.permissions == s.permissions && q.permissions[0].status.Some?
    ensures s'.permissions[q.permissions[0].key] != AsSubmitted(q, q.permissions[0])
  {
    var path, key := SampleKey();
    CanonicalPermissionIsWord(key);
    StripOfWord(key);
    q := Submission(path, path, key, key, [PermissionInput(key, key, None, Some(Active))], [], []);
    s := Tables(map[], map[key := Permission(path, "b", "c.d", key, None, Deprecated, key)], map[], {}, 0);
    r := Rbac.Tables(map[], map[], map[], {}, map[], map[], map[], map[], {}, map[], map[], {});
    s' := s.(modules := s.modules[path := Module(key, key, true)], changes := 1);
    assert q.permissions[..1] == q.permissions;
    assert SubmittedKeys(q.permissions) == {key} by {
      assert q.permissions[0].key == key;
    }
    hide Spells, ActionOf, ResourceOf, IsCanonicalPermission, Join, Split;
    assert Validated(s, q) && Accepts(s, q, r, 0);
    assert PermissionsMerged(s.permissions, q, 1, s'.permissions);
    assert Merged(s, q, s');
  }

  /** One DEPRECATED permission, cut at another dot than the service would. */
  function CutElsewhere(path: string, key: string): Tables {
    Tables(map[], map[key := Permission(path, "b", "c.d", key, None, Deprecated, key)], map[], {}, 0)
  }

  /** That permission as ACTIVE, and a template of the same key that names it. */
  function WithTemplate(path: string, key: string): Submission {
    Submission(path, path, key, key, [PermissionInput(key, key, None, Some(Active))],
               [TemplateInput(key, key, [key], None, Some(Active))], [1])
  }

  lemma WithTemplateIsAccepted(path: string, key: string) returns (r: Rbac.Tables)
    requires path != "" && path + "." <= key && IsCanonicalPermission(key) && Strip(key) == key
    ensures Accepts(CutElsewhere(path, key), WithTemplate(path, key), r, 0)
  {
    var s, q := CutElsewhere(path, key), WithTemplate(path, key);
    r := Rbac.Tables(map[], map[], map[], {}, map[], map[], map[], map[], {}, map[], map[], {});
    hide IsCanonicalPermission, Strip;
    assert q.permissions[0].key == key;
    assert ReferenceAccepted(s, q, key) && TemplateAccepted(s, q, q.templates[0]);
    assert PermissionAccepted(q, q.permissions[0]) && Validated(s, q);
  }

  /** An input: the same with a template that names the permission, which is stored although it is DEPRECATED. */
  lemma TemplateNamesInactivePermission() returns (s: Tables, q: Submission, r: Rbac.Tables, s': Tables)
    ensures |q.templates| == 1 <= |q.freshIds| && IdsAreDistinct(s) && Accepts(s, q, r, 0) && Merged(s, q, s')
    ensures |q.templates[0].permissions| == 1
    ensures var key := q.templates[0].permissions[0];
            && key in s'.permissions && s'.permissions[key].status == Deprecated
            && (q.pathKey, q.templates[0].key) in s'.templates
            && key in PermissionsOf(s', s'.templates[(q.pathKey, q.templates[0].key)].id)
  {
    var path, key := SampleKey();
    CanonicalPermissionIsWord(key);
    StripOfWord(key);
    s, q := CutElsewhere(path, key), WithTemplate(path, key);
    r := WithTemplateIsAccepted(path, key);
    var row := Template(1, key, None, Active, key);
    s' := Tables(map[path := Module(key, key, true)], s.permissions, map[(path, key) := row], {(1, key)}, 1);
    hide Spells, ActionOf, ResourceOf, Join, Split, Strip, Accepts, PermissionAccepted, TemplateAccepted;
    assert q.permissions[..1] == q.permissions && q.permissions[0].key == key;
    assert SubmittedKeys(q.permissions) == {key};
    assert StoredTemplate(s, q, 0) == row && TemplateKey(q, 0) == (path, key);
    assert IsSubmittedTemplate(q, 1, (path, key));
    assert TemplatesMerged(s, q, 1, s'.templates) && LinksMerged(s, q, 1, s'.templatePermissions);
    assert PermissionsMerged(s.permissions, q, 1, s'.permissions);
    assert (1, key) in s'.templatePermissions;
  }

  lemma RolesIgnoreCatalog(r: Rbac.Tables, s: Tables, s': Tables, t: Rbac.TenantId, u: Rbac.UserId, role: Rbac.RoleId,
      now: Time)
    ensures Rbac.HasRole(WithCatalog(r, s'), t, u, role, now) <==> Rbac.HasRole(WithCatalog(r, s), t, u, role, now)
  {
    var a, b := WithCatalog(r, s), WithCatalog(r, s');
    assert Rbac.HasDirect(b, t, u, role, now) <==> Rbac.HasDirect(a, t, u, role, now);
    assert Rbac.HasThroughGroup(b, t, u, role, now) <==> Rbac.HasThroughGroup(a, t, u, role, now);
  }
}
