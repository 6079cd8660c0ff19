/**
 What onboarding reads before it acts: whether proposed access may be handed out, and whether a
 registration code and its secret open a tenant.
 */
module OnboardingAccess {
  import opened Options
  import MakerChecker
  import Rbac
  import SecurityControls

  type TenantId = Rbac.TenantId
  type PlaceId = int
  type Hash = int
  type Secret = int

  /** Roles, groups and (location, schedule) pairs proposed for a member. */
  datatype Proposal = Proposal(roles: seq<Rbac.RoleId>, groups: seq<Rbac.GroupId>, places: seq<(PlaceId, PlaceId)>)

  /** tenant_self_onboarding_settings */
  datatype Setting = Setting(active: bool, tokenHash: Hash)

  /** The rows these checks read, and Argon2 verification. */
  datatype Directory = Directory(
    tenants: map<string, TenantId>,
    rbac: Rbac.Tables,
    // whether a location or schedule of a tenant is ACTIVE
    locations: map<(TenantId, PlaceId), bool>,
    schedules: map<(TenantId, PlaceId), bool>,
    controls: SecurityControls.Registry,
    settings: map<TenantId, Setting>,
    verifies: (Hash, Secret) -> bool)

  const SELF_ONBOARDING_CONTROL := "admin.self_onboarding"

  // ---------------------------------------------------------------------------------------------
  // Proposed access
  // ---------------------------------------------------------------------------------------------

  datatype Verdict = AccessInvalid | NeedsApproval | Granted

  predicate PlaceValid(d: Directory, t: TenantId, place: (PlaceId, PlaceId)) {
    && (t, place.0) in d.locations && d.locations[(t, place.0)]
    && (t, place.1) in d.schedules && d.schedules[(t, place.1)]
  }

  predicate Proposable(d: Directory, t: TenantId, p: Proposal) {
    && MakerChecker.AccessValid(d.rbac, t, p.roles, p.groups)
    && (forall place :: place in p.places ==> PlaceValid(d, t, place))
  }

  /** What `_validated_access` keeps of a proposal. */
  function Distinct(p: Proposal): Proposal {
    Proposal(MakerChecker.Dedup(p.roles), MakerChecker.Dedup(p.groups), MakerChecker.Dedup(p.places))
  }

  function PrivilegedRoles(d: Directory, t: TenantId, p: Proposal): seq<Rbac.RoleId> {
    MakerChecker.PrivilegedOf(d.rbac, t, Distinct(p).roles)
  }

  /** `_validated_access` and the branch its caller takes on the privileged roles. */
  function Validated(d: Directory, t: TenantId, p: Proposal): Verdict {
    if !Proposable(d, t, Distinct(p)) then AccessInvalid
    else if PrivilegedRoles(d, t, p) != [] then NeedsApproval
    else Granted
  }

  lemma {:induction false} DedupOfDistinct<T(!new)>(xs: seq<T>)
    requires forall i, j :: 0 <= i < j < |xs| ==> xs[i] != xs[j]
    ensures MakerChecker.Dedup(xs) == xs
  {
    if xs != [] {
      var n := |xs| - 1;
      DedupOfDistinct(xs[..n]);
      assert xs == xs[..n] + [xs[n]];
    }
  }

  /** An invitation stores the distinct proposal; when it is accepted the same access is judged. */
  lemma StoredProposalIsJudgedAlike(d: Directory, t: TenantId, p: Proposal)
    ensures Distinct(Distinct(p)) == Distinct(p) && Validated(d, t, Distinct(p)) == Validated(d, t, p)
  {
    DedupOfDistinct(MakerChecker.Dedup(p.roles));
    DedupOfDistinct(MakerChecker.Dedup(p.groups));
    DedupOfDistinct(MakerChecker.Dedup(p.places));
  }

  /** The verdict in terms of the proposal itself. */
  lemma ValidatedExactlyWhen(d: Directory, t: TenantId, p: Proposal)
    ensures Validated(d, t, p).AccessInvalid? <==> !Proposable(d, t, p)
    ensures Validated(d, t, p).Granted? <==>
            Proposable(d, t, p) && forall r :: r in p.roles ==> !Rbac.Privileged(d.rbac, t, r)
  {
    var roles := Distinct(p).roles;
    assert forall r :: r in roles <==> r in p.roles;
    var privileged := PrivilegedRoles(d, t, p);
    assert forall r :: r in privileged <==> r in roles && Rbac.Privileged(d.rbac, t, r);
    if privileged != [] {
      var r := privileged[0];
      assert r in privileged && r in roles && r in p.roles;
    } else {
      forall r | r in p.roles ensures !Rbac.Privileged(d.rbac, t, r) {
        assert r !in privileged && r in roles;
      }
    }
  }

  /**
   Inserting a PENDING request per role breaks a unique index: some role already awaits approval for u, or a
   fresh id is not fresh.
   */
  predicate Clash(s: Rbac.Tables, t: TenantId, u: Rbac.UserId, roles: seq<Rbac.RoleId>, ids: int -> int) {
    || (exists r :: r in roles && Rbac.AlreadyRequested(s, t, u, r))
    || (exists k :: 0 <= k < |roles| && ids(k) in s.requests)
    || (exists j, k :: 0 <= j < k < |roles| && ids(j) == ids(k))
  }

  predicate RequestsClash(d: Directory, t: TenantId, u: Rbac.UserId, p: Proposal, ids: int -> int) {
    Clash(d.rbac, t, u, PrivilegedRoles(d, t, p), ids)
  }

  /** Which rows the request loop has inserted. */
  ghost predicate Requested(
    s: Rbac.Tables, s': Rbac.Tables, t: TenantId, u: Rbac.UserId, roles: seq<Rbac.RoleId>, asker: Rbac.UserId,
    ids: int -> int)
  {
    && (forall q :: q in s'.requests <==> q in s.requests || exists k :: 0 <= k < |roles| && ids(k) == q)
    && (forall q :: q in s.requests ==> s'.requests[q] == s.requests[q])
    && (forall k :: 0 <= k < |roles| ==>
          && ids(k) in s'.requests
          && s'.requests[ids(k)] == Rbac.Request(t, u, roles[k], Rbac.Pending, asker, None))
  }

  lemma AlreadyRequestedBy(s: Rbac.Tables, t: TenantId, u: Rbac.UserId, r: Rbac.RoleId, q: int)
    requires q in s.requests && s.requests[q].tenant == t && s.requests[q].subject == u && s.requests[q].role == r
    requires s.requests[q].status.Pending?
    ensures Rbac.AlreadyRequested(s, t, u, r)
  {}

  /** A role not among those inserted is as requested as before. */
  lemma OthersAsRequested(
    s: Rbac.Tables, s': Rbac.Tables, t: TenantId, u: Rbac.UserId, roles: seq<Rbac.RoleId>, asker: Rbac.UserId,
    ids: int -> int, r: Rbac.RoleId)
    requires Requested(s, s', t, u, roles, asker, ids) && r !in roles
    ensures Rbac.AlreadyRequested(s', t, u, r) <==> Rbac.AlreadyRequested(s, t, u, r)
  {
    if q :| q in s.requests && s.requests[q].tenant == t && s.requests[q].subject == u && s.requests[q].role == r
            && s.requests[q].status.Pending? {
      AlreadyRequestedBy(s', t, u, r, q);
    }
    if q :| q in s'.requests && s'.requests[q].tenant == t && s'.requests[q].subject == u && s'.requests[q].role == r
            && s'.requests[q].status.Pending? {
      forall k | 0 <= k < |roles| ensures ids(k) != q {
        assert roles[k] in roles;
      }
      AlreadyRequestedBy(s, t, u, r, q);
    }
  }

  lemma RequestOneMore(
    s: Rbac.Tables, s1: Rbac.Tables, t: TenantId, u: Rbac.UserId, roles: seq<Rbac.RoleId>, asker: Rbac.UserId,
    ids: int -> int)
    requires roles != [] && Requested(s, s1, t, u, roles[..|roles| - 1], asker, ids)
    ensures var n := |roles| - 1;
            ids(n) in s1.requests <==> ids(n) in s.requests || exists k :: 0 <= k < n && ids(k) == ids(n)
    ensures var n := |roles| - 1;
            ids(n) !in s1.requests ==>
              Requested(
                s, s1.(requests := s1.requests[ids(n) := Rbac.Request(t, u, roles[n], Rbac.Pending, asker, None)]),
                t, u, roles, asker, ids)
  {
    var n := |roles| - 1;
    var row := Rbac.Request(t, u, roles[n], Rbac.Pending, asker, None);
    assert forall k :: 0 <= k < n ==> roles[..n][k] == roles[k];
    if k :| 0 <= k < n && ids(k) == ids(n) {
      assert ids(k) in s1.requests;
    }
    if ids(n) in s1.requests && ids(n) !in s.requests {
      var k :| 0 <= k < n && ids(k) == ids(n);
    }
    if ids(n) !in s1.requests {
      var s' := s1.(requests := s1.requests[ids(n) := row]);
      forall k | 0 <= k < |roles|
        ensures ids(k) in s'.requests
        ensures s'.requests[ids(k)] == Rbac.Request(t, u, roles[k], Rbac.Pending, asker, None)
      {
        if k < n {
          assert ids(k) in s1.requests;
        }
      }
      forall q ensures q in s'.requests <==> q in s.requests || exists k :: 0 <= k < |roles| && ids(k) == q {
        if q in s1.requests && q !in s.requests {
          var k :| 0 <= k < n && ids(k) == q;
        }
        if k :| 0 <= k < |roles| && ids(k) == q {
          assert k < n ==> q in s1.requests;
        }
      }
    }
  }

  /** The request loop over distinct roles fails exactly on a clash. */
  lemma {:induction false} RequestsFailExactlyWhen(
    s: Rbac.Tables, t: TenantId, u: Rbac.UserId, roles: seq<Rbac.RoleId>, asker: Rbac.UserId, ids: int -> int)
    requires NoRepeats(roles)
    ensures MakerChecker.RequestRoles(s, t, u, roles, asker, ids).None? <==> Clash(s, t, u, roles, ids)
    ensures var o := MakerChecker.RequestRoles(s, t, u, roles, asker, ids);
            o.Some? ==> Requested(s, o.value, t, u, roles, asker, ids)
  {
    if roles != [] {
      var n := |roles| - 1;
      RequestsFailExactlyWhen(s, t, u, roles[..n], asker, ids);
      var o := MakerChecker.RequestRoles(s, t, u, roles[..n], asker, ids);
      ClashOneMore(s, t, u, roles, ids);
      if o.Some? {
        assert roles[n] !in roles[..n];
        OthersAsRequested(s, o.value, t, u, roles[..n], asker, ids, roles[n]);
        RequestOneMore(s, o.value, t, u, roles, asker, ids);
        hide Clash, Requested, Rbac.AlreadyRequested;
      }
    }
  }

  /** A longer list clashes where the shorter one does, or at its last role. */
  lemma ClashOneMore(s: Rbac.Tables, t: TenantId, u: Rbac.UserId, roles: seq<Rbac.RoleId>, ids: int -> int)
    requires roles != []
    ensures var n := |roles| - 1;
            Clash(s, t, u, roles, ids) <==>
              || Clash(s, t, u, roles[..n], ids)
              || Rbac.AlreadyRequested(s, t, u, roles[n])
              || ids(n) in s.requests
              || exists k :: 0 <= k < n && ids(k) == ids(n)
  {
    hide Rbac.AlreadyRequested;
    var n := |roles| - 1;
    assert forall r :: r in roles <==> r in roles[..n] || r == roles[n];
  }

  ghost predicate NoRepeats(roles: seq<Rbac.RoleId>) {
    forall i, j :: 0 <= i < j < |roles| ==> roles[i] != roles[j]
  }

  lemma {:induction false} PrivilegedAreDistinct(s: Rbac.Tables, t: TenantId, roles: seq<Rbac.RoleId>)
    requires NoRepeats(roles)
    ensures NoRepeats(MakerChecker.PrivilegedOf(s, t, roles))
  {
    if roles != [] {
      var n := |roles| - 1;
      PrivilegedAreDistinct(s, t, roles[..n]);
      var front := MakerChecker.PrivilegedOf(s, t, roles[..n]);
      assert roles[n] !in roles[..n];
      assert roles[n] !in front;
      assert NoRepeats(front + [roles[n]]);
    }
  }

  /** The clash is what makes the loop of accept_invitation fail. */
  lemma ClashStopsTheLoop(
    d: Directory, t: TenantId, u: Rbac.UserId, asker: Rbac.UserId, p: Proposal, ids: int -> int)
    ensures MakerChecker.RequestRoles(d.rbac, t, u, PrivilegedRoles(d, t, p), asker, ids).None? <==>
              RequestsClash(d, t, u, p, ids)
  {
    assert NoRepeats(MakerChecker.Dedup(p.roles));
    PrivilegedAreDistinct(d.rbac, t, Distinct(p).roles);
    RequestsFailExactlyWhen(d.rbac, t, u, PrivilegedRoles(d, t, p), asker, ids);
  }

  /** The rows accept_invitation and approve_self_onboarding_request then write are those of `MakerChecker`. */
  lemma VerdictIsTheBranch(
    d: Directory, t: TenantId, u: Rbac.UserId, asker: Rbac.UserId, p: Proposal, ids: int -> int, now: int)
    requires !Validated(d, t, p).AccessInvalid?
    ensures Validated(d, t, p).Granted? <==>
            MakerChecker.ApproveSelfAccess(d.rbac, t, u, asker, p.roles, p.groups, ids, now).1 == Rbac.Answer(true)
    ensures var (s', answer) := MakerChecker.AcceptAccess(d.rbac, t, u, asker, p.roles, p.groups, ids, now);
            && (answer == Rbac.Failed(Rbac.IntegrityError) <==> RequestsClash(d, t, u, p, ids))
            && (!RequestsClash(d, t, u, p, ids) ==> answer == Rbac.Answer(true))
            && (Validated(d, t, p).Granted? <==> answer == Rbac.Answer(true) && s'.requests == d.rbac.requests)
  {
    var privileged := PrivilegedRoles(d, t, p);
    ClashStopsTheLoop(d, t, u, asker, p, ids);
    hide MakerChecker.AccessValid, RequestsClash;
    if privileged == [] {
      GrantsMakeNoRequest(d.rbac, t, u, Distinct(p).roles, Distinct(p).groups, asker, ids, now);
    } else {
      RequestsAreNew(d.rbac, t, u, privileged, asker, ids);
    }
  }

  lemma {:induction false} GrantsMakeNoRequest(
    s: Rbac.Tables, t: TenantId, u: Rbac.UserId, roles: seq<int>, groups: seq<int>, asker: Rbac.UserId, ids: int -> int,
    now: int)
    ensures MakerChecker.GrantGroups(
              MakerChecker.GrantRoles(s, t, u, roles, asker, ids, now), t, u, groups, ids, now).requests == s.requests
    decreases |roles| + |groups|
  {
    if groups != [] {
      GrantsMakeNoRequest(s, t, u, roles, groups[..|groups| - 1], asker, ids, now);
    } else if roles != [] {
      GrantsMakeNoRequest(s, t, u, roles[..|roles| - 1], [], asker, ids, now);
    }
  }

  lemma {:induction false} RequestsAreNew(
    s: Rbac.Tables, t: TenantId, u: Rbac.UserId, roles: seq<int>, asker: Rbac.UserId, ids: int -> int)
    ensures var o := MakerChecker.RequestRoles(s, t, u, roles, asker, ids);
            o.Some? ==> |o.value.requests| == |s.requests| + |roles|
  {
    if roles != [] {
      RequestsAreNew(s, t, u, roles[..|roles| - 1], asker, ids);
    }
  }

  // ---------------------------------------------------------------------------------------------
  // Self-registration
  // ---------------------------------------------------------------------------------------------

  datatype Gate = Opens(tenant: TenantId) | Denied | RecursionError

  /** The checks of submit_self_registration before it writes. */
  function GateFor(d: Directory, code: string, token: Secret): Gate {
    if code !in d.tenants then Denied
    else
      var t := d.tenants[code];
      match SecurityControls.EffectiveControl(d.controls, t, SELF_ONBOARDING_CONTROL)
      case Endless => RecursionError
      case Off => Denied
      case On =>
        if t in d.settings && d.settings[t].active && d.verifies(d.settings[t].tokenHash, token)
          then Opens(t) else Denied
  }

  /**
   A code opens its tenant exactly when the self-onboarding control and all its ancestors are on for the
   tenant, its setting is ACTIVE and the secret verifies.
   */
  lemma GateOpensExactlyWhen(d: Directory, code: string, token: Secret, t: TenantId)
    ensures GateFor(d, code, token) == Opens(t) <==>
            && code in d.tenants && d.tenants[code] == t
            && t in d.settings && d.settings[t].active && d.verifies(d.settings[t].tokenHash, token)
            && exists chain :: SecurityControls.IsChain(d.controls, chain) && chain[0] == SELF_ONBOARDING_CONTROL
                               && SecurityControls.AllOn(d.controls, t, chain)
  {
    SecurityControls.InForceExactlyWhen(d.controls, t, SELF_ONBOARDING_CONTROL);
  }
}
