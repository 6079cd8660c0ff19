/**
 What USER session calls depend on, column by column: exactly when create, reuse and refresh issue a token,
 what a refusal says, and what revoking and a change of user status do.
 */
module SessionGate {
  import opened Options
  import opened Geo
  import opened SessionLedger
  import Schedule
  import Text

  // ---------------------------------------------------------------------------------------------
  // Who, where and when
  // ---------------------------------------------------------------------------------------------

  /** The statement of the planned exception, if any, is not one of the call's. */
  predicate Undisturbed(f: Fault, steps: set<Step>) {
    f.Fault? ==> f.step !in steps
  }

  predicate UserMayAct(s: Ledger, u: UserId) {
    u in s.users && s.users[u].status == UserActive && s.users[u].principalActive
  }

  /** The sample is trusted, accurate and neither old nor from the future. */
  predicate SampleUsable(p: Policy, geo: Sample, now: Time) {
    && !geo.suspected && geo.accuracy <= p.maxAccuracy
    && geo.capturedAt <= now <= geo.capturedAt + p.maxGeoAgeSeconds * 1_000_000
  }

  /** Location k is the first of the nearest assigned ones within reach. */
  predicate NearestAt(candidates: seq<Candidate>, k: int) {
    && 0 <= k < |candidates| && candidates[k].distance <= candidates[k].radius
    && forall j :: 0 <= j < |candidates| && candidates[j].distance <= candidates[j].radius ==>
         && candidates[k].distance <= candidates[j].distance
         && (j < k ==> candidates[k].distance < candidates[j].distance)
  }

  ghost predicate Nearest(candidates: seq<Candidate>, c: Candidate) {
    exists k :: NearestAt(candidates, k) && candidates[k] == c
  }

  /** Its schedule is ACTIVE and an override or a window of the weekly calendar is open. */
  ghost predicate OpenNow(c: Candidate, now: Time) {
    && c.scheduleActive
    && ((c.override.Some? && now < c.override.value) || Schedule.OpenOnSomeDay(c.windows, now + c.offset))
  }

  predicate NetworkAllowed(p: Policy, vpn: Vpn) {
    !(vpn == Detected && p.denyDetectedVpn) && !(vpn == Unknown && p.denyUnknownVpn)
  }

  predicate HoldsPermissions(permissions: seq<string>) {
    |permissions| > 0 && forall v :: v in permissions ==> Text.IsCanonicalPermission(v)
  }

  /** Location c, its schedule, the network and the permissions let the call through. */
  ghost predicate PlaceAdmits(p: Policy, geo: Sample, r: Readings, c: Candidate) {
    && SampleUsable(p, geo, r.now)
    && Nearest(r.candidates, c) && OpenNow(c, r.now)
    && NetworkAllowed(p, r.vpn) && HoldsPermissions(r.permissions)
    && Undisturbed(r.fault, {AtLocation, AtSchedule, AtPermissions})
  }

  lemma NearestExactlyWhen(candidates: seq<Candidate>, c: Candidate)
    ensures Nearest(candidates, c) <==> MatchLocation(candidates) == Ok(c)
  {
    assert forall k :: NearestAt(candidates, k) <==> IsMatch(candidates, k);
    if k :| NearestAt(candidates, k) && candidates[k] == c {
      assert InReach(candidates[k]);
      hide IsMatch, NearestAt;
      var i :| IsMatch(candidates, i) && Ok(candidates[i]) == MatchLocation(candidates);
      MatchIsUnique(candidates, k, i);
    }
  }

  lemma OpenExactlyWhen(c: Candidate, now: Time)
    ensures OpenNow(c, now) <==> c.scheduleActive && Evaluated(c, now).Granted?
  {
    hide Schedule.OpenOnSomeDay;
    if !(c.override.Some? && now < c.override.value) {
      Schedule.TwoDaySearchIsComplete(now, c.offset, c.windows, c.override);
    }
    hide Schedule.LocalEnd;
  }

  lemma PlaceAdmitsExactlyWhen(p: Policy, geo: Sample, r: Readings, c: Candidate)
    ensures PlaceAdmits(p, geo, r, c) <==> PlaceAndTime(p, geo, r).None? && MatchLocation(r.candidates) == Ok(c)
  {
    NearestExactlyWhen(r.candidates, c);
    OpenExactlyWhen(c, r.now);
    hide Text.IsCanonicalPermission, Evaluated, Nearest, OpenNow, MatchLocation;
  }

  // ---------------------------------------------------------------------------------------------
  // Expiries
  // ---------------------------------------------------------------------------------------------

  /** x is not after the token's, the sample's, the session's or the schedule's end. */
  predicate WithinEnds(p: Policy, now: Time, startedAt: Time, scheduleEnd: Time, x: Time) {
    && x <= now + p.tokenTtlMinutes * 60_000_000
    && x <= now + p.geoIntervalSeconds * 1_000_000
    && x <= startedAt + p.maxDurationMinutes * 60_000_000
    && x <= scheduleEnd
  }

  /** The expiry is the latest instant within all four ends. */
  lemma ExpiryIsLatest(p: Policy, now: Time, startedAt: Time, scheduleEnd: Time, x: Time)
    ensures x <= Expiry(p, now, startedAt, scheduleEnd) <==> WithinEnds(p, now, startedAt, scheduleEnd, x)
  {}

  /** All four ends of a token issued at c lie after x. */
  predicate EndsAfter(p: Policy, c: Candidate, now: Time, startedAt: Time, x: Time) {
    Evaluated(c, now).Granted? && WithinEnds(p, now, startedAt, Evaluated(c, now).until, x + 1)
  }

  // ---------------------------------------------------------------------------------------------
  // Refresh
  // ---------------------------------------------------------------------------------------------

  /** The tenant, the user and a session of theirs allow a refresh to look further. */
  predicate RefreshEnters(s: Ledger, q: RefreshRequest) {
    && q.readings.geo.Some? && q.readings.tenantStatus == TenantActive && UserMayAct(s, q.user)
    && q.tenant in s.policies
    && q.session in s.sessions
    && s.sessions[q.session].tenant == q.tenant && s.sessions[q.session].user == q.user
    && s.sessions[q.session].status == SessionActive
    && Undisturbed(q.readings.fault, {AtNetwork, AtTenant, AtContext, AtPolicy, AtObserve})
  }

  /** The device is ACTIVE and the session has not expired. */
  predicate RefreshProceeds(s: Ledger, q: RefreshRequest)
    requires RefreshEnters(s, q)
  {
    && q.readings.device == Some(DeviceActive) && q.readings.now < s.sessions[q.session].expiresAt
    && Undisturbed(q.readings.fault, {AtDevice, AtSession})
  }

  ghost predicate MayRefresh(s: Ledger, q: RefreshRequest, c: Candidate) {
    && RefreshEnters(s, q) && RefreshProceeds(s, q)
    && PlaceAdmits(s.policies[q.tenant], q.readings.geo.value, q.readings, c)
    && var p, now, start := s.policies[q.tenant], q.readings.now, s.sessions[q.session].startedAt;
    && EndsAfter(p, c, now, start, now) && EndsAfter(p, c, now, start, start)
    && Undisturbed(q.readings.fault, {AtWrite, AtRecord, AtSign, AtCommit})
  }

  lemma EntryFails(s: Ledger, q: RefreshRequest)
    ensures RefreshEnters(s, q) <==> q.readings.geo.Some? && RefreshEntry(s, q).None?
    ensures RefreshEntry(s, q).Some? ==>
              !KnowsSession(RefreshEntry(s, q).value.step) && !KnowsPlace(RefreshEntry(s, q).value.step)
  {}

  lemma RefreshDeniedUnless(s: Ledger, q: RefreshRequest)
    ensures RefreshDenied(s, q).None? <==>
              RefreshEnters(s, q) && RefreshProceeds(s, q)
                && PlaceAndTime(s.policies[q.tenant], q.readings.geo.value, q.readings).None?
  {
    EntryFails(s, q);
    hide PlaceAndTime, RefreshEntry, RefreshEnters;
  }

  /** A refresh issues a token exactly when every one of these conditions holds, and then for that location. */
  lemma RefreshIssuesExactlyWhen(s: Ledger, q: RefreshRequest)
    ensures Refresh(s, q).1.Ok? <==> exists c :: MayRefresh(s, q, c)
  {
    RefreshDeniedUnless(s, q);
    if RefreshDenied(s, q).None? {
      RefreshWritesExactlyWhen(s, q, MatchLocation(q.readings.candidates).value);
    }
    if c :| MayRefresh(s, q, c) {
      PlaceAdmitsExactlyWhen(s.policies[q.tenant], q.readings.geo.value, q.readings, c);
      RefreshWritesExactlyWhen(s, q, c);
    }
    hide RefreshDenied, RefreshEnters, RefreshProceeds, PlaceAndTime, PlaceAdmits, MatchLocation, MayRefresh;
  }

  /** Once admitted, a refresh fails only for its expiry or for a fault of its last statements. */
  lemma RefreshWritesUnless(s: Ledger, q: RefreshRequest)
    requires RefreshDenied(s, q).None?
    ensures var r, start := q.readings, s.sessions[q.session].startedAt;
            var e := Expiry(s.policies[q.tenant], r.now, start,
                Evaluated(MatchLocation(r.candidates).value, r.now).until);
            Refresh(s, q).1.Ok? <==>
              r.now < e && start < e && Undisturbed(r.fault, {AtWrite, AtRecord, AtSign, AtCommit})
  {
    hide RefreshDenied, PlaceAndTime, MatchLocation, Evaluated, Expiry, StatusCode, Text.ValidatePermissions;
    hide DenyEvidence, LeavesEvidence;
  }

  lemma RefreshWritesExactlyWhen(s: Ledger, q: RefreshRequest, c: Candidate)
    requires RefreshDenied(s, q).None? && MatchLocation(q.readings.candidates) == Ok(c)
    ensures MayRefresh(s, q, c) <==> Refresh(s, q).1.Ok?
  {
    RefreshDeniedUnless(s, q);
    RefreshWritesUnless(s, q);
    var p, r, start := s.policies[q.tenant], q.readings, s.sessions[q.session].startedAt;
    PlaceAdmitsExactlyWhen(p, r.geo.value, r, c);
    ExpiryIsLatest(p, r.now, start, Evaluated(c, r.now).until, r.now + 1);
    ExpiryIsLatest(p, r.now, start, Evaluated(c, r.now).until, start + 1);
    hide Refresh, RefreshDenied, RefreshEnters, RefreshProceeds, PlaceAndTime, PlaceAdmits, MatchLocation, Evaluated;
    hide Expiry, WithinEnds, Undisturbed;
  }

  // ---------------------------------------------------------------------------------------------
  // Create or reuse
  // ---------------------------------------------------------------------------------------------

  /** The tenant, the identity's user and the device allow a session at all. */
  predicate CreateEnters(s: Ledger, q: CreateRequest) {
    && q.readings.tenantStatus == TenantActive
    && q.identity.Some? && q.identity.value.1 && UserMayAct(s, q.identity.value.0)
    && q.tenant in s.policies
    && q.readings.device == Some(DeviceActive)
    && Undisturbed(q.readings.fault, {AtNetwork, AtTenant, AtIdentity, AtContext, AtPolicy, AtDevice})
  }

  /** Session k of the device is ACTIVE and has not expired. */
  predicate Unexpired(s: Ledger, q: CreateRequest, k: SessionId)
    requires q.identity.Some?
  {
    && k in s.sessions && s.sessions[k].tenant == q.tenant && s.sessions[k].user == q.identity.value.0
    && s.sessions[k].device == q.device && s.sessions[k].status == SessionActive
    && q.readings.now < s.sessions[k].expiresAt
  }

  /** What the lookup may find: an unexpired ACTIVE session of the device, or nothing if there is none. */
  ghost predicate Finds(s: Ledger, q: CreateRequest, found: Option<SessionId>)
    requires q.identity.Some?
  {
    match found
    case Some(k) => Unexpired(s, q, k)
    case None => forall k :: !Unexpired(s, q, k)
  }

  /** The session found is at location c, or a new one can be stored; and the written row ends after its start. */
  predicate Fits(s: Ledger, q: CreateRequest, c: Candidate, found: Option<SessionId>)
    requires q.tenant in s.policies && (found.Some? ==> found.value in s.sessions)
  {
    match found
    case Some(k) =>
      && s.sessions[k].location == c.location
      && EndsAfter(s.policies[q.tenant], c, q.readings.now, s.sessions[k].startedAt, s.sessions[k].startedAt)
    case None =>
      && q.freshId !in s.sessions
      && EndsAfter(s.policies[q.tenant], c, q.readings.now, q.readings.now, q.readings.now)
  }

  ghost predicate MayCreate(s: Ledger, q: CreateRequest, c: Candidate, found: Option<SessionId>) {
    && CreateEnters(s, q) && PlaceAdmits(s.policies[q.tenant], q.geo, q.readings, c)
    && Finds(s, q, found) && Fits(s, q, c, found)
    && Undisturbed(q.readings.fault, {AtWrite, AtRecord, AtSign, AtCommit})
  }

  lemma CreateEntryFails(s: Ledger, q: CreateRequest)
    ensures CreateEnters(s, q) <==>
              && CreateEntry(s, q).None? && CreateUser(s, q).None?
              && At(q.readings.fault, AtDevice, DeviceCheck(q.readings.device)).None?
  {}

  lemma CreateDeniedUnless(s: Ledger, q: CreateRequest)
    ensures CreateDenied(s, q).None? <==>
              CreateEnters(s, q) && PlaceAndTime(s.policies[q.tenant], q.geo, q.readings).None?
  {
    CreateEntryFails(s, q);
    hide PlaceAndTime, CreateEntry, CreateUser, CreateEnters, DeviceCheck;
  }

  lemma FindsExactlyWhen(s: Ledger, q: CreateRequest, found: Option<SessionId>)
    requires q.identity.Some?
    ensures LooksUp(s, q, found) <==> Finds(s, q, found)
  {
    var m := ExpireStale(s.sessions, q.tenant, q.identity.value.0, q.device, q.readings.now);
    assert forall k :: ActiveOn(m, k, q.tenant, q.identity.value.0, q.device) <==> Unexpired(s, q, k);
  }

  lemma LastStepsFail(f: Fault)
    ensures LastSteps(f).None? <==> Undisturbed(f, {AtRecord, AtSign, AtCommit})
    ensures At(f, AtWrite, None).None? <==> Undisturbed(f, {AtWrite})
  {}

  /** Once admitted, the rest fails only for the location, the row's key or expiry, or a fault. */
  lemma FinishWritesUnless(s: Ledger, q: CreateRequest, found: Option<SessionId>)
    requires CreateDenied(s, q).None? && LooksUp(s, q, found)
    requires found.Some? ==> found.value in s.sessions
    ensures var r, place := q.readings, MatchLocation(q.readings.candidates).value;
            var start := if found.Some? then s.sessions[found.value].startedAt else r.now;
            CreateFinish(s, q, found).1.Ok? <==>
              && (if found.Some? then s.sessions[found.value].location == place.location else q.freshId !in s.sessions)
              && start < Expiry(s.policies[q.tenant], r.now, start, Evaluated(place, r.now).until)
              && Undisturbed(r.fault, {AtWrite, AtRecord, AtSign, AtCommit})
  {
    LastStepsFail(q.readings.fault);
    hide CreateDenied, PlaceAndTime, MatchLocation, Evaluated, Expiry, LooksUp, Text.ValidatePermissions, LastSteps, At;
  }

  lemma FinishIssuesExactlyWhen(s: Ledger, q: CreateRequest, c: Candidate, found: Option<SessionId>)
    requires CreateDenied(s, q).None? && LooksUp(s, q, found) && MatchLocation(q.readings.candidates) == Ok(c)
    ensures CreateFinish(s, q, found).1.Ok? <==> MayCreate(s, q, c, found)
  {
    CreateDeniedUnless(s, q);
    FindsExactlyWhen(s, q, found);
    FinishWritesUnless(s, q, found);
    var p, r := s.policies[q.tenant], q.readings;
    var start := if found.Some? then s.sessions[found.value].startedAt else r.now;
    PlaceAdmitsExactlyWhen(p, q.geo, r, c);
    ExpiryIsLatest(p, r.now, start, Evaluated(c, r.now).until, start + 1);
    hide CreateDenied, CreateEnters, PlaceAndTime, PlaceAdmits, MatchLocation, Evaluated, Expiry, WithinEnds, Finds;
    hide CreateFinish, Undisturbed, LooksUp;
  }

  /** Whatever is admitted passes every check before the first write. */
  lemma AdmittedIsNotDenied(s: Ledger, q: CreateRequest, c: Candidate, found: Option<SessionId>)
    requires MayCreate(s, q, c, found)
    ensures CreateDenied(s, q).None? && LooksUp(s, q, found) && MatchLocation(q.readings.candidates) == Ok(c)
  {
    CreateDeniedUnless(s, q);
    FindsExactlyWhen(s, q, found);
    PlaceAdmitsExactlyWhen(s.policies[q.tenant], q.geo, q.readings, c);
    hide CreateDenied, CreateEnters, PlaceAndTime, PlaceAdmits, MatchLocation, Finds, Fits, LooksUp;
  }

  /** A token can be issued exactly when an admitted location fits a session the lookup may find. */
  lemma CreateCanIssueExactlyWhen(s: Ledger, q: CreateRequest)
    ensures (exists s', g :: CreateOrReuse(s, q, s', Ok(g))) <==> exists c, found :: MayCreate(s, q, c, found)
  {
    hide CreateFinish, CreateDenied, MayCreate, LooksUp;
    if s', g :| CreateOrReuse(s, q, s', Ok(g)) {
      var found :| LooksUp(s, q, found) && s' == CreateFinish(s, q, found).0 && Ok(g) == CreateFinish(s, q, found).1;
      FinishIssuesExactlyWhen(s, q, MatchLocation(q.readings.candidates).value, found);
    }
    if c, found :| MayCreate(s, q, c, found) {
      AdmittedIsNotDenied(s, q, c, found);
      FinishIssuesExactlyWhen(s, q, c, found);
      assert CreateOrReuse(s, q, CreateFinish(s, q, found).0, Ok(CreateFinish(s, q, found).1.value));
    }
  }

  /** At most one unexpired ACTIVE session per device, which is what the device lock guarantees. */
  ghost predicate OnePerDevice(s: Ledger, q: CreateRequest) {
    q.identity.Some? ==> forall j, k :: Unexpired(s, q, j) && Unexpired(s, q, k) ==> j == k
  }

  lemma OneIsFound(s: Ledger, q: CreateRequest, found: Option<SessionId>, other: Option<SessionId>)
    requires q.identity.Some? && OnePerDevice(s, q) && LooksUp(s, q, found) && LooksUp(s, q, other)
    ensures found == other
  {
    FindsExactlyWhen(s, q, found);
    FindsExactlyWhen(s, q, other);
    hide LooksUp, Unexpired;
  }

  /** Then create or reuse issues a token exactly when these conditions hold. */
  lemma CreateIssuesExactlyWhen(s: Ledger, q: CreateRequest, s': Ledger, a: Answer)
    requires CreateOrReuse(s, q, s', a) && OnePerDevice(s, q)
    ensures a.Ok? <==> exists c, found :: MayCreate(s, q, c, found)
  {
    hide CreateFinish, CreateDenied, MayCreate, LooksUp, OnePerDevice;
    if a.Ok? {
      CreateCanIssueExactlyWhen(s, q);
    }
    if c, found :| MayCreate(s, q, c, found) {
      AdmittedIsNotDenied(s, q, c, found);
      var other :| LooksUp(s, q, other) && s' == CreateFinish(s, q, other).0 && a == CreateFinish(s, q, other).1;
      OneIsFound(s, q, found, other);
      FinishIssuesExactlyWhen(s, q, c, other);
    }
  }

  // ---------------------------------------------------------------------------------------------
  // Refusals
  // ---------------------------------------------------------------------------------------------

  /** The condition a refusal reports about the tenant, the device or the user. */
  predicate TenantFault(r: Readings, code: Code) {
    || (code == TenantOffboarding && r.tenantStatus in {Offboarding, Offboarded})
    || (code == TenantNotActive && r.tenantStatus == TenantOther)
  }

  predicate DeviceFault(r: Readings, code: Code) {
    || (code == DeviceNotRegistered && r.device == None)
    || (code == DeviceApprovalRequired && r.device == Some(DevicePending))
    || (code == DeviceNotActive && r.device == Some(DeviceOther))
  }

  predicate UserFault(s: Ledger, u: UserId, code: Code) {
    || (code == UserNotOnboarded && u !in s.users)
    || (code == PrincipalNotActive && u in s.users && !s.users[u].principalActive)
    || (code == UserNotActive && u in s.users && s.users[u].status != UserActive)
  }

  predicate CallerFault(s: Ledger, r: Readings, u: UserId, code: Code) {
    TenantFault(r, code) || DeviceFault(r, code) || UserFault(s, u, code)
  }

  /** The condition a refusal reports about location, time, network or permissions. */
  ghost predicate PlaceFault(p: Policy, geo: Sample, r: Readings, code: Code) {
    match code
    case GeoDenied(IntegrityFailed) => geo.suspected
    case GeoDenied(AccuracyInsufficient) => p.maxAccuracy < geo.accuracy
    case GeoDenied(Stale) => r.now < geo.capturedAt || geo.capturedAt + p.maxGeoAgeSeconds * 1_000_000 < r.now
    case GeoDenied(LocationNotAssigned) => |r.candidates| == 0
    case GeoDenied(LocationNotAllowed) => |r.candidates| > 0 && forall c :: !Nearest(r.candidates, c)
    case AccessScheduleMissing =>
      exists c :: Nearest(r.candidates, c) && !OpenNow(c, r.now) && (!c.scheduleActive || |c.windows| == 0)
    case AccessOutsideAllowedTime => exists c :: Nearest(r.candidates, c) && !OpenNow(c, r.now) && |c.windows| > 0
    case VpnAccessDenied => r.vpn == Detected && p.denyDetectedVpn
    case NetworkRiskUnknownDenied => r.vpn == Unknown && p.denyUnknownVpn
    case RoleRequired => |r.permissions| == 0
    case _ => false
  }

  lemma LocationRefusalExplains(p: Policy, geo: Sample, r: Readings, code: Code)
    requires LocationCheck(p, geo, r) == Some(SecurityError(code))
    ensures PlaceFault(p, geo, r, code)
  {
    forall c ensures Nearest(r.candidates, c) <==> MatchLocation(r.candidates) == Ok(c) {
      NearestExactlyWhen(r.candidates, c);
    }
    hide MatchLocation, Nearest;
  }

  lemma ScheduleRefusalExplains(p: Policy, geo: Sample, r: Readings, c: Candidate, code: Code)
    requires MatchLocation(r.candidates) == Ok(c) && ScheduleCheck(p, c, r) == Some(SecurityError(code))
    ensures PlaceFault(p, geo, r, code)
  {
    NearestExactlyWhen(r.candidates, c);
    OpenExactlyWhen(c, r.now);
    ScheduleMissingWhen(c, r.now);
    hide MatchLocation, Evaluated, Nearest, OpenNow;
  }

  lemma PlaceRefusalExplains(p: Policy, geo: Sample, r: Readings, code: Code)
    requires r.fault.NoFault? && PlaceAndTime(p, geo, r).Some?
    requires PlaceAndTime(p, geo, r).value.error == SecurityError(code)
    ensures PlaceFault(p, geo, r, code)
  {
    if LocationCheck(p, geo, r) == Some(SecurityError(code)) {
      LocationRefusalExplains(p, geo, r, code);
    } else if LocationCheck(p, geo, r).None? {
      var c := MatchLocation(r.candidates).value;
      if ScheduleCheck(p, c, r) == Some(SecurityError(code)) {
        ScheduleRefusalExplains(p, geo, r, c, code);
      } else {
        assert PermissionsCheck(r) == Some(SecurityError(code));
      }
      hide ScheduleCheck;
    }
    hide LocationCheck, MatchLocation, PlaceFault;
  }

  lemma ScheduleMissingWhen(c: Candidate, now: Time)
    ensures Evaluated(c, now).ScheduleMissing? ==> |c.windows| == 0
    ensures Evaluated(c, now).OutsideAllowedTime? ==> |c.windows| > 0
  {
    hide Schedule.LocalEnd;
  }

  /** The condition a refused refresh reports. */
  ghost predicate RefreshFault(s: Ledger, q: RefreshRequest, code: Code) {
    || CallerFault(s, q.readings, q.user, code)
    || (code == GeoRequired && q.readings.geo == None)
    || (code == TenantSecurityNotReady && q.tenant !in s.policies)
    || (code == SessionIsRevoked && !RunsForCaller(s, q))
    || (code == AuthTokenExpired && RunsForCaller(s, q) && q.tenant in s.policies && RefreshTooLate(s, q))
    || (q.tenant in s.policies && q.readings.geo.Some?
        && PlaceFault(s.policies[q.tenant], q.readings.geo.value, q.readings, code))
  }

  predicate RunsForCaller(s: Ledger, q: RefreshRequest) {
    && q.session in s.sessions
    && s.sessions[q.session].tenant == q.tenant && s.sessions[q.session].user == q.user
    && s.sessions[q.session].status == SessionActive
  }

  /** The session has expired, or its new expiry would not be ahead of the clock. */
  ghost predicate RefreshTooLate(s: Ledger, q: RefreshRequest)
    requires q.session in s.sessions && q.tenant in s.policies
  {
    var p, row, now := s.policies[q.tenant], s.sessions[q.session], q.readings.now;
    || row.expiresAt <= now
    || exists c :: Nearest(q.readings.candidates, c) && OpenNow(c, now) && !EndsAfter(p, c, now, row.startedAt, now)
  }

  /** Without a planned exception a refused refresh reports something that is there. */
  lemma RefreshRefusalExplains(s: Ledger, q: RefreshRequest, code: Code)
    requires q.readings.fault.NoFault? && RefreshFailure(s, q).Some?
    requires RefreshFailure(s, q).value.error == SecurityError(code)
    ensures RefreshFault(s, q, code)
  {
    if RefreshDenied(s, q).None? {
      LateRefusalExplains(s, q, code);
    } else if q.readings.geo.Some? && RefreshEntry(s, q).Some? {
      EntryRefusalExplains(s, q, code);
    } else if q.readings.geo.Some? {
      DenialExplains(s, q, code);
    }
    hide RefreshEntry, PlaceFault, CallerFault, Nearest, OpenNow, EndsAfter, RunsForCaller, RefreshTooLate,
        PlaceAndTime;
  }

  lemma EntryRefusalExplains(s: Ledger, q: RefreshRequest, code: Code)
    requires q.readings.fault.NoFault? && RefreshEntry(s, q).Some?
    requires RefreshEntry(s, q).value.error == SecurityError(code)
    ensures || CallerFault(s, q.readings, q.user, code)
            || (code == TenantSecurityNotReady && q.tenant !in s.policies)
            || (code == SessionIsRevoked && !RunsForCaller(s, q))
  {}

  lemma DeviceRefusalExplains(s: Ledger, r: Readings, u: UserId, code: Code)
    requires DeviceCheck(r.device) == Some(SecurityError(code))
    ensures CallerFault(s, r, u, code)
  {}

  lemma DenialExplains(s: Ledger, q: RefreshRequest, code: Code)
    requires q.readings.fault.NoFault? && q.readings.geo.Some?
    requires RefreshEntry(s, q).None? && RefreshDenied(s, q).Some?
    requires RefreshDenied(s, q).value.error == SecurityError(code)
    ensures || CallerFault(s, q.readings, q.user, code)
            || (code == AuthTokenExpired && RunsForCaller(s, q) && RefreshTooLate(s, q))
            || PlaceFault(s.policies[q.tenant], q.readings.geo.value, q.readings, code)
  {
    var p, geo, r := s.policies[q.tenant], q.readings.geo.value, q.readings;
    hide PlaceAndTime, PlaceFault, RefreshEntry, Nearest, OpenNow, EndsAfter, CallerFault, DeviceCheck;
    if DeviceCheck(r.device).Some? {
      assert RefreshDenied(s, q) == Some(Failure(AtDevice, DeviceCheck(r.device).value));
      DeviceRefusalExplains(s, r, q.user, code);
    } else if s.sessions[q.session].expiresAt > r.now {
      assert RefreshDenied(s, q) == PlaceAndTime(p, geo, r);
      PlaceRefusalExplains(p, geo, r, code);
    }
  }

  lemma LateRefusalExplains(s: Ledger, q: RefreshRequest, code: Code)
    requires q.readings.fault.NoFault? && RefreshDenied(s, q).None? && RefreshFailure(s, q).Some?
    requires RefreshFailure(s, q).value.error == SecurityError(code)
    ensures code == AuthTokenExpired && RunsForCaller(s, q) && RefreshTooLate(s, q)
  {
    var c, p, now := MatchLocation(q.readings.candidates).value, s.policies[q.tenant], q.readings.now;
    RefreshDeniedUnless(s, q);
    PlaceAdmitsExactlyWhen(p, q.readings.geo.value, q.readings, c);
    ExpiryIsLatest(p, now, s.sessions[q.session].startedAt, Evaluated(c, now).until, now + 1);
    assert code == AuthTokenExpired
      && Expiry(p, now, s.sessions[q.session].startedAt, Evaluated(c, now).until) <= now by {
      hide RefreshDenied, PlaceAndTime, MatchLocation, Evaluated, Expiry;
    }
    hide RefreshDenied, RefreshFailure, PlaceAndTime, MatchLocation, Evaluated, Expiry, WithinEnds, Nearest, OpenNow;
  }

  /** The condition a refused create or reuse reports before it looks for a session. */
  ghost predicate CreateFault(s: Ledger, q: CreateRequest, code: Code) {
    || TenantFault(q.readings, code) || DeviceFault(q.readings, code)
    || (if q.identity.Some? then UserFault(s, q.identity.value.0, code) else code == UserNotOnboarded)
    || (code == ActorTypeNotAllowed && q.identity.Some? && !q.identity.value.1)
    || (code == TenantSecurityNotReady && q.tenant !in s.policies)
    || (q.tenant in s.policies && PlaceFault(s.policies[q.tenant], q.geo, q.readings, code))
  }

  lemma CreateRefusalExplains(s: Ledger, q: CreateRequest, code: Code)
    requires q.readings.fault.NoFault? && CreateDenied(s, q).Some?
    requires CreateDenied(s, q).value.error == SecurityError(code)
    ensures CreateFault(s, q, code)
  {
    hide PlaceAndTime, PlaceFault;
    var r := q.readings;
    if q.identity.Some? && q.tenant in s.policies && CreateEnters(s, q) {
      assert CreateDenied(s, q) == PlaceAndTime(s.policies[q.tenant], q.geo, r);
      PlaceRefusalExplains(s.policies[q.tenant], q.geo, r, code);
    }
  }

  /** The one refusal after that: the device's session runs at another location. */
  lemma ConflictExactlyWhen(s: Ledger, q: CreateRequest, found: Option<SessionId>)
    requires CreateDenied(s, q).None? && LooksUp(s, q, found) && q.readings.fault.NoFault?
    ensures CreateFinish(s, q, found).1 == Err(SecurityError(AccessSessionContextConflict)) <==>
              && found.Some? && found.value in s.sessions
              && exists c :: Nearest(q.readings.candidates, c) && s.sessions[found.value].location != c.location
  {
    forall c ensures Nearest(q.readings.candidates, c) <==> MatchLocation(q.readings.candidates) == Ok(c) {
      NearestExactlyWhen(q.readings.candidates, c);
    }
    hide CreateDenied, PlaceAndTime, MatchLocation, Nearest, Evaluated, Expiry, Text.ValidatePermissions;
  }

  // ---------------------------------------------------------------------------------------------
  // Evidence
  // ---------------------------------------------------------------------------------------------

  /**
   The DENY row of a failed refresh names the session exactly when the session was found, and the location
   exactly when one was matched, before the failing statement.
   */
  lemma EvidenceNamesWhatWasKnown(s: Ledger, q: RefreshRequest)
    requires RefreshFailure(s, q).Some? && RefreshFailure(s, q).value.error.SecurityError?
    ensures var e := DenyEvidence(q, RefreshFailure(s, q).value);
            && e.tenant == q.tenant && e.user == q.user && e.at == q.readings.now
            && e.session == (if RefreshEnters(s, q) then Some(q.session) else None)
    ensures var e := DenyEvidence(q, RefreshFailure(s, q).value);
            if RefreshEnters(s, q) && RefreshProceeds(s, q)
                 && SampleUsable(s.policies[q.tenant], q.readings.geo.value, q.readings.now)
                 && Undisturbed(q.readings.fault, {AtLocation})
            then match e.location
              case Some(l) => exists c :: Nearest(q.readings.candidates, c) && c.location == l
              case None => forall c :: !Nearest(q.readings.candidates, c)
            else e.location == None
  {
    forall c ensures Nearest(q.readings.candidates, c) <==> MatchLocation(q.readings.candidates) == Ok(c) {
      NearestExactlyWhen(q.readings.candidates, c);
    }
    FailingStatement(s, q);
    hide MatchLocation, Nearest, RefreshFailure, RefreshEnters, RefreshProceeds, SampleUsable, LocationCheck;
  }

  lemma FailingStatement(s: Ledger, q: RefreshRequest)
    requires RefreshFailure(s, q).Some?
    ensures var step := RefreshFailure(s, q).value.step;
            && (KnowsSession(step) <==> RefreshEnters(s, q))
            && (KnowsPlace(step) <==>
                  && RefreshEnters(s, q) && RefreshProceeds(s, q)
                  && SampleUsable(s.policies[q.tenant], q.readings.geo.value, q.readings.now)
                  && Undisturbed(q.readings.fault, {AtLocation}) && MatchLocation(q.readings.candidates).Ok?)
  {
    EntryFails(s, q);
    if q.readings.geo.Some? && RefreshEntry(s, q).None? {
      PlaceFails(s.policies[q.tenant], q.readings.geo.value, q.readings);
    }
    hide PlaceAndTime, RefreshEntry, RefreshEnters, SampleUsable, MatchLocation, KnowsSession, KnowsPlace;
    if RefreshDenied(s, q).None? {
      WriteFails(s, q);
      RefreshDeniedUnless(s, q);
      hide RefreshDenied, RefreshFailure, RefreshProceeds;
    } else {
      DeniedSteps(s, q);
      hide RefreshDenied;
    }
  }

  /** A refresh that was not denied knows everything. */
  lemma WriteFails(s: Ledger, q: RefreshRequest)
    requires RefreshDenied(s, q).None? && RefreshFailure(s, q).Some?
    ensures KnowsSession(RefreshFailure(s, q).value.step) && KnowsPlace(RefreshFailure(s, q).value.step)
  {
    hide RefreshDenied, RefreshedRow, RowCheck;
  }

  /** Where a denial comes from. */
  lemma DeniedSteps(s: Ledger, q: RefreshRequest)
    requires RefreshDenied(s, q).Some?
    ensures var step := RefreshDenied(s, q).value.step;
            if q.readings.geo.None? then !KnowsSession(step) && !KnowsPlace(step)
            else if RefreshEntry(s, q).Some? then RefreshDenied(s, q) == RefreshEntry(s, q)
            else if !(q.readings.device == Some(DeviceActive) && q.readings.now < s.sessions[q.session].expiresAt
                      && Undisturbed(q.readings.fault, {AtDevice, AtSession}))
                 then KnowsSession(step) && !KnowsPlace(step)
            else RefreshDenied(s, q) == PlaceAndTime(s.policies[q.tenant], q.readings.geo.value, q.readings)
  {
    hide PlaceAndTime, RefreshEntry;
  }

  lemma PlaceFails(p: Policy, geo: Sample, r: Readings)
    ensures PlaceAndTime(p, geo, r).None? ==>
              SampleUsable(p, geo, r.now) && Undisturbed(r.fault, {AtLocation}) && MatchLocation(r.candidates).Ok?
    ensures PlaceAndTime(p, geo, r).Some? ==>
            var step := PlaceAndTime(p, geo, r).value.step;
            && KnowsSession(step)
            && (KnowsPlace(step) <==>
                  SampleUsable(p, geo, r.now) && Undisturbed(r.fault, {AtLocation}) && MatchLocation(r.candidates).Ok?)
  {
    hide MatchLocation, ScheduleCheck, PermissionsCheck;
  }

  lemma CatalogueCodes(code: Code)
    ensures StatusCode(code) < 500 <==>
              code !in {IdentityProviderUnavailable, DatabaseUnavailable, SigningKeyUnavailable, Uncatalogued}
  {}

  /** Which failures leave evidence: those of the error catalogue that are not the service's own. */
  lemma EvidenceIsLeftExactlyWhen(s: Ledger, q: RefreshRequest)
    requires Refresh(s, q).1.Err?
    ensures var (s', a) := Refresh(s, q);
            s'.evaluations != s.evaluations <==>
              && a.error.SecurityError? && !q.evidenceFails
              && a.error.code !in {IdentityProviderUnavailable, DatabaseUnavailable, SigningKeyUnavailable,
                 Uncatalogued}
  {
    var f := RefreshFailure(s, q).value;
    if f.error.SecurityError? {
      CatalogueCodes(f.error.code);
      assert |s.evaluations + [DenyEvidence(q, f)]| != |s.evaluations|;
    }
    hide RefreshFailure, DenyEvidence, StatusCode, RefreshedRow;
  }

  // ---------------------------------------------------------------------------------------------
  // Revoking and user status
  // ---------------------------------------------------------------------------------------------

  /**
   An answered revoke ends exactly the caller's ACTIVE session; every other row, and a failed call, changes
   nothing.
   */
  lemma RevokeEndsExactlyOne(s: Ledger, k: SessionId, t: TenantId, u: UserId, fault: Option<Raised>)
    ensures var (s', a) := Revoke(s, k, t, u, fault);
            && (a == Ok(true) <==>
                  && fault == None && k in s.sessions
                  && s.sessions[k].tenant == t && s.sessions[k].user == u && s.sessions[k].status == SessionActive)
            && (a.Err? <==> fault.Some?)
            && (if a == Ok(true)
                then k in s'.sessions && s'.sessions[k] == s.sessions[k].(status := SessionRevoked)
                  && s' == s.(sessions := s.sessions[k := s'.sessions[k]])
                else s' == s)
  {}

  predicate Reactivable(user: User) {
    user.clerk.Some? && user.status in {UserPending, UserInvited, UserSuspended, UserDisabled}
  }

  /**
   Activation takes effect exactly for a user with a Clerk account who is neither ACTIVE nor EXITED, when neither the
   provider nor the database fails: the user is ACTIVE, a pending onboarding is approved, no session is touched.
   */
  lemma ActivationTakesEffectExactlyWhen(s: Ledger, u: UserId, f: StatusFaults)
    ensures var (s', a) := SetStatus(s, u, UserActive, f);
            && (a.Ok? <==> u in s.users && Reactivable(s.users[u]) && !f.unban && !f.database)
            && (if a.Ok?
                then
                  && u in s'.users && s' == s.(users := s.users[u := s'.users[u]])
                  && s'.users[u].status == UserActive && s'.users[u].clerk == s.users[u].clerk
                  && s'.users[u].onboarding == (if s.users[u].onboarding == Some(PendingAdminApproval)
                       then Some(RequestApproved) else s.users[u].onboarding)
                else s' == s)
  {}

  /**
   Suspending, disabling and exiting take effect exactly when the database holds and the user has not exited: every
   ACTIVE session of the user is REVOKED, no other row moves, and a failing ban is what the caller is told.
   */
  lemma DeactivationTakesEffectExactlyWhen(s: Ledger, u: UserId, target: UserStatus, f: StatusFaults)
    requires target in {UserSuspended, UserDisabled, UserExited}
    ensures var (s', a) := SetStatus(s, u, target, f);
            if u in s.users && s.users[u].status != UserExited && s.users[u].status != target && !f.database
            then
              && u in s'.users && s'.users == s.users[u := s.users[u].(status := target)]
              && s'.sessions.Keys == s.sessions.Keys
              && (forall k :: k in s.sessions ==>
                    s'.sessions[k] == if s.sessions[k].user == u && s.sessions[k].status == SessionActive
                                      then s.sessions[k].(status := SessionRevoked) else s.sessions[k])
              && s'.evaluations == s.evaluations && s'.policies == s.policies && s'.versions == s.versions
              && a == (if s.users[u].clerk.Some? && f.ban then Err(ProviderFailed) else Ok(true))
            else
              && s' == s
              && (a.Ok? <==> u in s.users && s.users[u].status == target && target != UserExited)
  {}
}
