/**
 The module catalogue: one PUT validates a whole submission, merges it into the stored catalogue and
 either commits everything or nothing.
 */
module Catalog {
  import opened Options
  import opened Text
  import Rbac

  type TemplateId = int
  type Time = int

  // ---------------------------------------------------------------------------------------------
  // Tables
  // ---------------------------------------------------------------------------------------------

  datatype Lifecycle = Active | Deprecated | Retired

  datatype Module = Module(name: string, version: string, active: bool)

  datatype Permission = Permission(
    moduleKey: string, resource: string, action: string, name: string, description: Option<string>,
    status: Lifecycle, version: string)

  datatype Template = Template(
    id: TemplateId, name: string, description: Option<string>, status: Lifecycle, version: string)

  /** Templates are keyed by (module_key, template_key), which the database keeps unique. */
  datatype Tables = Tables(
    modules: map<string, Module>, permissions: map<string, Permission>,
    templates: map<(string, string), Template>, templatePermissions: set<(TemplateId, string)>, changes: nat)

  /** template_id is the primary key. */
  ghost predicate IdsAreDistinct(s: Tables) {
    forall a, b :: a in s.templates && b in s.templates && s.templates[a].id == s.templates[b].id ==> a == b
  }

  function PermissionsOf(s: Tables, id: TemplateId): set<string> {
    set g: (TemplateId, string) | g in s.templatePermissions && g.0 == id :: g.1
  }

  // ---------------------------------------------------------------------------------------------
  // A submission
  // ---------------------------------------------------------------------------------------------

  /** A status outside the allowed lifecycle is None. */
  datatype PermissionInput = PermissionInput(key: string, name: string, description: Option<string>,
      status: Option<Lifecycle>)

  datatype TemplateInput = TemplateInput(
    key: string, name: string, permissions: seq<string>, description: Option<string>, status: Option<Lifecycle>)

  /** `moduleKey` has been stripped and lowered; `freshId` is the uuid4() for a template not stored yet. */
  datatype Submission = Submission(
    pathKey: string, moduleKey: string, name: string, version: string,
    permissions: seq<PermissionInput>, templates: seq<TemplateInput>, freshIds: seq<TemplateId>)

  /** str.strip() */
  function Strip(s: string): string {
    if s != "" && IsSpace(s[0]) then Strip(s[1..])
    else if s != "" && IsSpace(s[|s| - 1]) then Strip(s[..|s| - 1])
    else s
  }

  function SubmittedKeys(inputs: seq<PermissionInput>): set<string> {
    set i | 0 <= i < |inputs| :: inputs[i].key
  }

  function Namespace(q: Submission): string { q.pathKey + "." }

  predicate DistinctPermissionKeys(inputs: seq<PermissionInput>) {
    forall i, j :: 0 <= i < j < |inputs| ==> inputs[i].key != inputs[j].key
  }

  predicate DistinctTemplateKeys(inputs: seq<TemplateInput>) {
    forall i, j :: 0 <= i < j < |inputs| ==> inputs[i].key != inputs[j].key
  }

  predicate Distinct(keys: seq<string>) {
    forall i, j :: 0 <= i < j < |keys| ==> keys[i] != keys[j]
  }

  // ---------------------------------------------------------------------------------------------
  // What is accepted
  // ---------------------------------------------------------------------------------------------

  datatype Error =
    | PathMismatch | NameRequired | VersionRequired
    | DuplicatePermissions | InvalidPermission(permission: string)
    | DuplicateTemplates | InvalidTemplate(template: string)
    | OwnedByAnotherModule(permission: string) | RetirementConflict(permission: string)
    | DatabaseError

  predicate HeaderAccepted(q: Submission) {
    q.pathKey != "" && q.moduleKey == q.pathKey && Strip(q.name) != "" && Strip(q.version) != ""
  }

  predicate PermissionAccepted(q: Submission, p: PermissionInput) {
    IsCanonicalPermission(p.key) && Namespace(q) <= p.key && Strip(p.name) != "" && p.status.Some?
  }

  /** A template may name an ACTIVE permission of this submission, or else a stored ACTIVE one of the module. */
  predicate ReferenceAccepted(s: Tables, q: Submission, key: string) {
    && Namespace(q) <= key
    && (if key in SubmittedKeys(q.permissions)
        then exists i :: 0 <= i < |q.permissions| && q.permissions[i].key == key
                         && q.permissions[i].status == Some(Active)
        else key in s.permissions && s.permissions[key].moduleKey == q.pathKey && s.permissions[key].status.Active?)
  }

  predicate TemplateAccepted(s: Tables, q: Submission, t: TemplateInput) {
    && Namespace(q) <= t.key && t.status.Some? && Distinct(t.permissions)
    && forall k :: k in t.permissions ==> ReferenceAccepted(s, q, k)
  }

  predicate Owned(s: Tables, q: Submission, key: string) {
    key in s.permissions ==> s.permissions[key].moduleKey == q.pathKey
  }

  /** The retirement guard: `effective_role_references` on the tenant tables at the database clock. */
  predicate Guarded(r: Rbac.Tables, now: Time, p: PermissionInput) {
    p.status == Some(Retired) ==> Rbac.RoleReferences(r, p.key, now) == {}
  }

  predicate Validated(s: Tables, q: Submission) {
    && HeaderAccepted(q) && DistinctPermissionKeys(q.permissions)
    && (forall i :: 0 <= i < |q.permissions| ==> PermissionAccepted(q, q.permissions[i]))
    && DistinctTemplateKeys(q.templates)
    && (forall j :: 0 <= j < |q.templates| ==> TemplateAccepted(s, q, q.templates[j]))
  }

  predicate FreshFor(s: Tables, q: Submission, j: int)
    requires 0 <= j < |q.templates| <= |q.freshIds|
  {
    (q.pathKey, q.templates[j].key) !in s.templates ==>
      && (forall k :: k in s.templates ==> s.templates[k].id != q.freshIds[j])
      && (forall i :: 0 <= i < j && (q.pathKey, q.templates[i].key) !in s.templates ==> q.freshIds[i] != q.freshIds[j])
  }

  predicate IdsAreFresh(s: Tables, q: Submission)
    requires |q.templates| <= |q.freshIds|
  {
    forall j :: 0 <= j < |q.templates| ==> FreshFor(s, q, j)
  }

  predicate Accepts(s: Tables, q: Submission, r: Rbac.Tables, now: Time)
    requires |q.templates| <= |q.freshIds|
  {
    && Validated(s, q)
    && (forall i :: 0 <= i < |q.permissions| ==> Owned(s, q, q.permissions[i].key) && Guarded(r, now, q.permissions[i]))
    && IdsAreFresh(s, q)
  }

  // ---------------------------------------------------------------------------------------------
  // What is stored
  // ---------------------------------------------------------------------------------------------

  function ResourceOf(key: string): string {
    var parts := Split(key, '.');
    if |parts| < 2 then "" else Join(parts[1..|parts| - 1], '.')
  }

  function ActionOf(key: string): string {
    var parts := Split(key, '.');
    parts[|parts| - 1]
  }

  /** The upsert: a stored row whose split differs is left alone without an error. */
  function StoredPermission(before: Option<Permission>, q: Submission, p: PermissionInput): Permission
    requires p.status.Some?
  {
    var row := Permission(q.pathKey, ResourceOf(p.key), ActionOf(p.key), Strip(p.name), p.description, p.status.value,
        Strip(q.version));
    match before
    case None => row
    case Some(was) =>
      if was.moduleKey == row.moduleKey && was.resource == row.resource && was.action == row.action then row else was
  }

  function Stored<K, V>(m: map<K, V>, k: K): Option<V> {
    if k in m then Some(m[k]) else None
  }

  /** The permissions after the first n upserts. */
  ghost predicate PermissionsMerged(m: map<string, Permission>, q: Submission, n: int, m': map<string, Permission>)
    requires 0 <= n <= |q.permissions|
    requires forall i :: 0 <= i < |q.permissions| ==> q.permissions[i].status.Some?
  {
    && m'.Keys == m.Keys + SubmittedKeys(q.permissions[..n])
    && (forall i :: 0 <= i < n ==>
          q.permissions[i].key in m' && m'[q.permissions[i].key]
            == StoredPermission(Stored(m, q.permissions[i].key), q, q.permissions[i]))
    && (forall k :: k in m && k !in SubmittedKeys(q.permissions[..n]) ==> m'[k] == m[k])
  }

  function TemplateKey(q: Submission, j: int): (string, string)
    requires 0 <= j < |q.templates|
  {
    (q.pathKey, q.templates[j].key)
  }

  function StoredTemplate(s: Tables, q: Submission, j: int): Template
    requires 0 <= j < |q.templates| <= |q.freshIds| && q.templates[j].status.Some?
  {
    var t, k := q.templates[j], TemplateKey(q, j);
    Template(if k in s.templates then s.templates[k].id else q.freshIds[j],
             Strip(t.name), t.description, t.status.value, Strip(q.version))
  }

  ghost predicate IsSubmittedTemplate(q: Submission, n: int, k: (string, string))
    requires 0 <= n <= |q.templates|
  {
    exists j :: 0 <= j < n && k == TemplateKey(q, j)
  }

  ghost predicate TemplatesMerged(s: Tables, q: Submission, n: int, m: map<(string, string), Template>)
    requires 0 <= n <= |q.templates| <= |q.freshIds|
    requires forall j :: 0 <= j < |q.templates| ==> q.templates[j].status.Some?
  {
    && (forall k :: k in m <==> k in s.templates || IsSubmittedTemplate(q, n, k))
    && (forall j :: 0 <= j < n ==> TemplateKey(q, j) in m && m[TemplateKey(q, j)] == StoredTemplate(s, q, j))
    && (forall k :: k in s.templates && !IsSubmittedTemplate(q, n, k) ==> m[k] == s.templates[k])
  }

  /** The permission rows: a submitted template has exactly the submitted ones, every other id what it had. */
  ghost predicate LinksMerged(s: Tables, q: Submission, n: int, links: set<(TemplateId, string)>)
    requires 0 <= n <= |q.templates| <= |q.freshIds|
    requires forall j :: 0 <= j < |q.templates| ==> q.templates[j].status.Some?
  {
    && (forall j, p :: 0 <= j < n ==> ((StoredTemplate(s, q, j).id, p) in links <==> p in q.templates[j].permissions))
    && (forall g: (TemplateId, string) :: (forall j :: 0 <= j < n ==> StoredTemplate(s, q, j).id != g.0) ==>
          (g in links <==> g in s.templatePermissions))
  }

  ghost predicate Merged(s: Tables, q: Submission, s': Tables)
    requires Validated(s, q) && |q.templates| <= |q.freshIds|
  {
    && s'.modules == s.modules[q.pathKey := Module(Strip(q.name), Strip(q.version), true)]
    && PermissionsMerged(s.permissions, q, |q.permissions|, s'.permissions)
    && TemplatesMerged(s, q, |q.templates|, s'.templates)
    && LinksMerged(s, q, |q.templates|, s'.templatePermissions)
    && s'.changes == s.changes + 1
  }
}
