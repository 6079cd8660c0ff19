/**
 USER sessions one call at a time: create or reuse, refresh, revoke and the user lifecycle, with
 everything that can fail inside a call.

 The ledger holds the tables these calls write.  What other tables, the network adapter and the
 device answer is an input of the call, as is the one exception a statement may raise on its own
 (a lost connection, a missing signing key).  What happens when calls overlap is in `RowLocks`.
 */
module SessionLedger {
  import opened Options
  import opened Geo
  import Schedule
  import Text

  type TenantId = int
  type UserId = int
  type DeviceId = int
  type LocationId = int
  type SessionId = int
  type Time = int

  const MINUTE: int := 60_000_000

  // ---------------------------------------------------------------------------------------------
  // Tables
  // ---------------------------------------------------------------------------------------------

  datatype UserStatus = UserPending | UserInvited | UserActive | UserSuspended | UserDisabled | UserExited
  datatype RequestStatus = PendingAdminApproval | RequestApproved | OtherRequestStatus

  /** `clerk` is the provider subject of an ACTIVE Clerk identity. */
  datatype User = User(status: UserStatus, principalActive: bool, clerk: Option<int>, onboarding: Option<RequestStatus>)

  datatype SessionStatus = SessionActive | SessionExpired | SessionRevoked
  datatype Session = Session(
    tenant: TenantId, user: UserId, device: DeviceId, location: LocationId, version: int,
    status: SessionStatus, startedAt: Time, expiresAt: Time)

  type Sessions = map<SessionId, Session>

  datatype Policy = Policy(
    maxAccuracy: real, maxGeoAgeSeconds: int, geoIntervalSeconds: int, tokenTtlMinutes: int, maxDurationMinutes: int,
    denyDetectedVpn: bool, denyUnknownVpn: bool)

  /** A row of access_context_evaluations; `reason` is None for ACCESS_GRANTED. */
  datatype Evaluation = Evaluation(
    tenant: TenantId, user: UserId, session: Option<SessionId>, location: Option<LocationId>, reason: Option<Code>,
      at: Time)

  /** `policies` holds the ACTIVE tenant policies and `versions` the stored authorization versions. */
  datatype Ledger = Ledger(
    users: map<UserId, User>, sessions: Sessions, evaluations: seq<Evaluation>,
    policies: map<TenantId, Policy>, versions: map<(UserId, TenantId), int>)

  // ---------------------------------------------------------------------------------------------
  // Errors
  // ---------------------------------------------------------------------------------------------

  datatype Code =
    | GeoRequired | GeoDenied(geo: GeoCode)
    | TenantOffboarding | TenantNotActive | TenantSecurityNotReady
    | UserNotOnboarded | UserNotActive | PrincipalNotActive | ActorTypeNotAllowed
    | DeviceNotRegistered | DeviceApprovalRequired | DeviceNotActive
    | SessionIsRevoked | AuthTokenExpired | AccessSessionContextConflict
    | AccessScheduleMissing | AccessOutsideAllowedTime | VpnAccessDenied | NetworkRiskUnknownDenied | RoleRequired
    | IdentityProviderUnavailable | DatabaseUnavailable | SigningKeyUnavailable | Uncatalogued

  /** The HTTP status of the error catalogue. */
  function StatusCode(c: Code): int {
    match c
    case AuthTokenExpired => 401
    case SessionIsRevoked => 401
    case AccessSessionContextConflict => 409
    case IdentityProviderUnavailable => 503
    case DatabaseUnavailable => 503
    case SigningKeyUnavailable => 503
    case Uncatalogued => 500
    case _ => 403
  }

  datatype Raised = SecurityError(code: Code) | OtherError

  /** The statements of a call, in the order both services share. */
  datatype Step =
    | AtNetwork | AtTenant | AtIdentity | AtContext | AtPolicy | AtObserve | AtDevice | AtSession
    | AtLocation | AtSchedule | AtPermissions | AtWrite | AtRecord | AtSign | AtCommit

  datatype Fault = NoFault | Fault(step: Step, error: Raised)

  datatype Failure = Failure(step: Step, error: Raised)

  /** A statement raises the fault planned for it, or else what its own check finds. */
  function At(f: Fault, step: Step, check: Option<Raised>): Option<Failure> {
    if f.Fault? && f.step == step then Some(Failure(step, f.error))
    else
      match check
      case None => None
      case Some(error) => Some(Failure(step, error))
  }

  function Then(first: Option<Failure>, second: Option<Failure>): Option<Failure> {
    if first.Some? then first else second
  }

  function Deny(bad: bool, code: Code): Option<Raised> {
    if bad then Some(SecurityError(code)) else None
  }

  // ---------------------------------------------------------------------------------------------
  // Checks
  // ---------------------------------------------------------------------------------------------

  datatype TenantStatus = TenantActive | Offboarding | Offboarded | TenantOther
  datatype DeviceStatus = DevicePending | DeviceActive | DeviceOther
  datatype Vpn = Detected | NotDetected | Unknown

  /** What a call reads besides the ledger; `geo` is absent when the client sent none. */
  datatype Readings = Readings(
    now: Time, tenantStatus: TenantStatus, vpn: Vpn, device: Option<DeviceStatus>, geo: Option<Sample>,
    candidates: seq<Candidate>, roles: seq<string>, permissions: seq<string>, fault: Fault)

  function TenantCheck(status: TenantStatus): Option<Raised> {
    match status
    case TenantActive => None
    case TenantOther => Some(SecurityError(TenantNotActive))
    case _ => Some(SecurityError(TenantOffboarding))
  }

  function ContextCheck(s: Ledger, u: UserId): Option<Raised> {
    if u !in s.users then Some(SecurityError(UserNotOnboarded))
    else if !s.users[u].principalActive then Some(SecurityError(PrincipalNotActive))
    else Deny(!s.users[u].status.UserActive?, UserNotActive)
  }

  function DeviceCheck(device: Option<DeviceStatus>): Option<Raised> {
    match device
    case None => Some(SecurityError(DeviceNotRegistered))
    case Some(DevicePending) => Some(SecurityError(DeviceApprovalRequired))
    case Some(DeviceActive) => None
    case Some(DeviceOther) => Some(SecurityError(DeviceNotActive))
  }

  function LocationCheck(p: Policy, geo: Sample, r: Readings): Option<Raised> {
    match ValidateGeo(geo, p.maxAccuracy, p.maxGeoAgeSeconds, r.now)
    case Some(code) => Some(SecurityError(GeoDenied(code)))
    case None =>
      match MatchLocation(r.candidates)
      case Err(code) => Some(SecurityError(GeoDenied(code)))
      case Ok(_) => None
  }

  function Evaluated(c: Candidate, now: Time): Schedule.Decision {
    Schedule.Evaluate(now, c.offset, c.windows, c.override)
  }

  function ScheduleCheck(p: Policy, c: Candidate, r: Readings): Option<Raised> {
    if !c.scheduleActive || Evaluated(c, r.now).ScheduleMissing? then Some(SecurityError(AccessScheduleMissing))
    else if Evaluated(c, r.now).OutsideAllowedTime? then Some(SecurityError(AccessOutsideAllowedTime))
    else if r.vpn.Detected? && p.denyDetectedVpn then Some(SecurityError(VpnAccessDenied))
    else Deny(r.vpn.Unknown? && p.denyUnknownVpn, NetworkRiskUnknownDenied)
  }

  function PermissionsCheck(r: Readings): Option<Raised> {
    if r.permissions == [] then Some(SecurityError(RoleRequired))
    else if Text.ValidatePermissions(r.permissions).Err? then Some(OtherError)
    else None
  }

  function Min(a: int, b: int): int { if b < a then b else a }

  function SessionEnd(p: Policy, startedAt: Time): Time { startedAt + p.maxDurationMinutes * MINUTE }

  /** The least of the token's, the location sample's, the session's and the schedule's end. */
  function Expiry(p: Policy, now: Time, startedAt: Time, scheduleEnd: Time): Time {
    Min(Min(now + p.tokenTtlMinutes * MINUTE, now + p.geoIntervalSeconds * SECOND),
        Min(SessionEnd(p, startedAt), scheduleEnd))
  }

  function Version(s: Ledger, u: UserId, t: TenantId): int {
    if (u, t) in s.versions then s.versions[(u, t)] else 1
  }

  // ---------------------------------------------------------------------------------------------
  // What both services check before they write
  // ---------------------------------------------------------------------------------------------

  function PolicyCheck(s: Ledger, t: TenantId): Option<Raised> {
    Deny(t !in s.policies, TenantSecurityNotReady)
  }

  /** Location, schedule, network and permission checks, which follow the locks. */
  function PlaceAndTime(p: Policy, geo: Sample, r: Readings): (f: Option<Failure>)
    ensures f.None? ==> MatchLocation(r.candidates).Ok? && Evaluated(MatchLocation(r.candidates).value, r.now).Granted?
    ensures f.None? ==> Text.ValidatePermissions(r.permissions).Ok?
  {
    var location := At(r.fault, AtLocation, LocationCheck(p, geo, r));
    if location.Some? then location
    else
      Then(At(r.fault, AtSchedule, ScheduleCheck(p, MatchLocation(r.candidates).value, r)),
           At(r.fault, AtPermissions, PermissionsCheck(r)))
  }

  // ---------------------------------------------------------------------------------------------
  // Outcomes
  // ---------------------------------------------------------------------------------------------

  /** The token handed to the caller. */
  datatype Grant = Grant(
    session: SessionId, tenant: TenantId, user: UserId, device: DeviceId, location: LocationId,
    roles: seq<string>, permissions: seq<string>, expiresAt: Time)

  type Answer = Result<Grant, Raised>

  function Allow(t: TenantId, u: UserId, k: SessionId, location: LocationId, now: Time): Evaluation {
    Evaluation(t, u, Some(k), Some(location), None, now)
  }

  /** A written row breaks CHECK (expires_at_utc > started_at_utc). */
  function RowCheck(row: Session): Option<Raised> {
    if row.expiresAt > row.startedAt then None else Some(OtherError)
  }

  function LastSteps(f: Fault): Option<Failure> {
    Then(At(f, AtRecord, None), Then(At(f, AtSign, None), At(f, AtCommit, None)))
  }

  // ---------------------------------------------------------------------------------------------
  // Refresh
  // ---------------------------------------------------------------------------------------------

  datatype RefreshRequest = RefreshRequest(
    user: UserId, tenant: TenantId, session: SessionId, readings: Readings, evidenceFails: bool)

  predicate OwnsActive(s: Ledger, q: RefreshRequest) {
    && q.session in s.sessions && s.sessions[q.session].tenant == q.tenant && s.sessions[q.session].user == q.user
    && s.sessions[q.session].status.SessionActive?
  }

  /** The statements up to the first look at the session. */
  function RefreshEntry(s: Ledger, q: RefreshRequest): (f: Option<Failure>)
    ensures f.None? ==> q.tenant in s.policies && OwnsActive(s, q)
    ensures f.None? ==> q.user in s.users && s.users[q.user].status.UserActive?
  {
    var r := q.readings;
    Then(At(r.fault, AtNetwork, None),
    Then(At(r.fault, AtTenant, TenantCheck(r.tenantStatus)),
    Then(At(r.fault, AtContext, ContextCheck(s, q.user)),
    Then(At(r.fault, AtPolicy, PolicyCheck(s, q.tenant)),
         At(r.fault, AtObserve, Deny(!OwnsActive(s, q), SessionIsRevoked))))))
  }

  /** The first statement that raises before anything is written. */
  function RefreshDenied(s: Ledger, q: RefreshRequest): (f: Option<Failure>)
    ensures f.None? ==> q.readings.geo.Some? && q.tenant in s.policies && OwnsActive(s, q)
    ensures f.None? ==> q.readings.now < s.sessions[q.session].expiresAt
    ensures f.None? ==> q.user in s.users && s.users[q.user].status.UserActive?
    ensures f.None? ==> PlaceAndTime(s.policies[q.tenant], q.readings.geo.value, q.readings).None?
  {
    var r := q.readings;
    if r.geo.None? then Some(Failure(AtNetwork, SecurityError(GeoRequired)))
    else if RefreshEntry(s, q).Some? then RefreshEntry(s, q)
    else
      Then(At(r.fault, AtDevice, DeviceCheck(r.device)),
      Then(At(r.fault, AtSession, Deny(s.sessions[q.session].expiresAt <= r.now, AuthTokenExpired)),
           PlaceAndTime(s.policies[q.tenant], r.geo.value, r)))
  }

  /** The row a refresh writes. */
  function RefreshedRow(s: Ledger, q: RefreshRequest): Session
    requires RefreshDenied(s, q).None?
  {
    var r, row, p := q.readings, s.sessions[q.session], s.policies[q.tenant];
    var place := MatchLocation(r.candidates).value;
    row.(location := place.location, version := Version(s, q.user, q.tenant),
         expiresAt := Expiry(p, r.now, row.startedAt, Evaluated(place, r.now).until))
  }

  function RefreshFailure(s: Ledger, q: RefreshRequest): Option<Failure> {
    if RefreshDenied(s, q).Some? then RefreshDenied(s, q)
    else
      var row := RefreshedRow(s, q);
      Then(At(q.readings.fault, AtWrite, if row.expiresAt <= q.readings.now
          then Some(SecurityError(AuthTokenExpired)) else RowCheck(row)),
           LastSteps(q.readings.fault))
  }

  predicate KnowsSession(step: Step) {
    step.AtDevice? || step.AtSession? || KnowsPlace(step) || step.AtLocation?
  }

  predicate KnowsPlace(step: Step) {
    step.AtSchedule? || step.AtPermissions? || step.AtWrite? || step.AtRecord? || step.AtSign? || step.AtCommit?
  }

  /** The DENY row of a failed refresh: what the call had established before the failing statement. */
  function DenyEvidence(q: RefreshRequest, f: Failure): Evaluation
    requires f.error.SecurityError?
  {
    Evaluation(q.tenant, q.user,
               if KnowsSession(f.step) then Some(q.session) else None,
               if KnowsPlace(f.step) && MatchLocation(q.readings.candidates).Ok?
                 then Some(MatchLocation(q.readings.candidates).value.location) else None,
               Some(f.error.code), q.readings.now)
  }

  predicate LeavesEvidence(q: RefreshRequest, f: Failure) {
    f.error.SecurityError? && StatusCode(f.error.code) < 500 && !q.evidenceFails
  }

  function Refresh(s: Ledger, q: RefreshRequest): (Ledger, Answer) {
    match RefreshFailure(s, q)
    case Some(f) =>
      (if LeavesEvidence(q, f) then s.(evaluations := s.evaluations + [DenyEvidence(q, f)]) else s, Err(f.error))
    case None =>
      var row := RefreshedRow(s, q);
      (s.(sessions := s.sessions[q.session := row],
          evaluations := s.evaluations + [Allow(q.tenant, q.user, q.session, row.location, q.readings.now)]),
       Ok(Grant(q.session, q.tenant, q.user, row.device, row.location, q.readings.roles,
                Text.ValidatePermissions(q.readings.permissions).value, row.expiresAt)))
  }

  // ---------------------------------------------------------------------------------------------
  // Create or reuse
  // ---------------------------------------------------------------------------------------------

  /** `identity` is the user an ACTIVE external identity belongs to and whether its principal is a USER. */
  datatype CreateRequest = CreateRequest(
    identity: Option<(UserId, bool)>, tenant: TenantId, device: DeviceId, geo: Sample, readings: Readings,
      freshId: SessionId)

  function IdentityCheck(s: Ledger, identity: Option<(UserId, bool)>): Option<Raised> {
    if identity.None? || identity.value.0 !in s.users then Some(SecurityError(UserNotOnboarded))
    else if !identity.value.1 then Some(SecurityError(ActorTypeNotAllowed))
    else Deny(!s.users[identity.value.0].principalActive, PrincipalNotActive)
  }

  /** The statements up to the identity. */
  function CreateEntry(s: Ledger, q: CreateRequest): (f: Option<Failure>)
    ensures f.None? ==> q.identity.Some? && q.identity.value.0 in s.users
  {
    var r := q.readings;
    Then(At(r.fault, AtNetwork, None),
    Then(At(r.fault, AtTenant, TenantCheck(r.tenantStatus)),
         At(r.fault, AtIdentity, IdentityCheck(s, q.identity))))
  }

  /** The user's context and the tenant's policy. */
  function CreateUser(s: Ledger, q: CreateRequest): (f: Option<Failure>)
    ensures f.None? ==> q.tenant in s.policies
    ensures f.None? && q.identity.Some? ==>
              q.identity.value.0 in s.users && s.users[q.identity.value.0].status.UserActive?
  {
    var r := q.readings;
    Then(At(r.fault, AtContext, if q.identity.Some? then ContextCheck(s, q.identity.value.0) else None),
         At(r.fault, AtPolicy, PolicyCheck(s, q.tenant)))
  }

  function CreateDenied(s: Ledger, q: CreateRequest): (f: Option<Failure>)
    ensures f.None? ==> q.identity.Some? && q.tenant in s.policies
    ensures f.None? ==> q.identity.value.0 in s.users && s.users[q.identity.value.0].status.UserActive?
    ensures f.None? ==> PlaceAndTime(s.policies[q.tenant], q.geo, q.readings).None?
  {
    var r := q.readings;
    if CreateEntry(s, q).Some? then CreateEntry(s, q)
    else if CreateUser(s, q).Some? then CreateUser(s, q)
    else
      Then(At(r.fault, AtDevice, DeviceCheck(r.device)),
           PlaceAndTime(s.policies[q.tenant], q.geo, r))
  }

  predicate ActiveOn(m: Sessions, k: SessionId, t: TenantId, u: UserId, d: DeviceId) {
    k in m && m[k].tenant == t && m[k].user == u && m[k].device == d && m[k].status.SessionActive?
  }

  function ExpireStale(m: Sessions, t: TenantId, u: UserId, d: DeviceId, now: Time): (r: Sessions)
    ensures r.Keys == m.Keys
    ensures forall k :: k in m ==>
              r[k] == if ActiveOn(m, k, t, u, d) && m[k].expiresAt <= now then m[k].(status := SessionExpired) else m[k]
  {
    map k | k in m :: if ActiveOn(m, k, t, u, d) && m[k].expiresAt <= now then m[k].(status := SessionExpired) else m[k]
  }

  /** The row a create or reuse writes: a fresh one, or the reused one with its location and start kept. */
  function CreatedRow(s: Ledger, q: CreateRequest, reused: Option<Session>): (row: Session)
    requires CreateDenied(s, q).None?
    ensures row.tenant == if reused.Some? then reused.value.tenant else q.tenant
  {
    var r, p, user := q.readings, s.policies[q.tenant], q.identity.value.0;
    var place := MatchLocation(r.candidates).value;
    var base := match reused
      case Some(row) => row
      case None => Session(q.tenant, user, q.device, place.location, 0, SessionActive, r.now, r.now);
    base.(version := Version(s, user, q.tenant),
          expiresAt := Expiry(p, r.now, base.startedAt, Evaluated(place, r.now).until))
  }

  /** An answer the lookup of the device's ACTIVE session may give once stale ones have expired. */
  ghost predicate LooksUp(s: Ledger, q: CreateRequest, found: Option<SessionId>)
    requires q.identity.Some?
  {
    var m := ExpireStale(s.sessions, q.tenant, q.identity.value.0, q.device, q.readings.now);
    match found
    case Some(k) => ActiveOn(m, k, q.tenant, q.identity.value.0, q.device)
    case None => forall k :: !ActiveOn(m, k, q.tenant, q.identity.value.0, q.device)
  }

  /** Everything after the checks, given the ACTIVE session the lookup returned, if any. */
  ghost function CreateFinish(s: Ledger, q: CreateRequest, found: Option<SessionId>): (r: (Ledger, Answer))
    requires CreateDenied(s, q).None? && LooksUp(s, q, found)
    ensures r.0 == s.(sessions := r.0.sessions, evaluations := r.0.evaluations)
    ensures r.1.Err? ==> r.0 == s
  {
    var r, user := q.readings, q.identity.value.0;
    var m := ExpireStale(s.sessions, q.tenant, user, q.device, r.now);
    var place := MatchLocation(r.candidates).value;
    if At(r.fault, AtWrite, None).Some? then (s, Err(r.fault.error))
    else if found.Some? && m[found.value].location != place.location
      then (s, Err(SecurityError(AccessSessionContextConflict)))
    else
      var k := if found.Some? then found.value else q.freshId;
      var row := CreatedRow(s, q, if found.Some? then Some(m[found.value]) else None);
      if (found.None? && k in m) || RowCheck(row).Some? then (s, Err(OtherError))
      else if LastSteps(r.fault).Some? then (s, Err(LastSteps(r.fault).value.error))
      else
        (s.(sessions := m[k := row], evaluations := s.evaluations + [Allow(q.tenant, user, k, place.location, r.now)]),
         Ok(Grant(k, q.tenant, user, q.device, place.location, r.roles, Text.ValidatePermissions(r.permissions).value,
             row.expiresAt)))
  }

  /** Which of several ACTIVE rows the lookup returns is up to the database. */
  ghost predicate CreateOrReuse(s: Ledger, q: CreateRequest, s': Ledger, a: Answer) {
    var denied := CreateDenied(s, q);
    if denied.Some? then s' == s && a == Err(denied.value.error)
    else exists found :: LooksUp(s, q, found) && s' == CreateFinish(s, q, found).0 && a == CreateFinish(s, q, found).1
  }

  // ---------------------------------------------------------------------------------------------
  // Revoke and user status
  // ---------------------------------------------------------------------------------------------

  function Revoke(s: Ledger, k: SessionId, t: TenantId, u: UserId, fault: Option<Raised>):
      (Ledger, Result<bool, Raised>)
  {
    if fault.Some? then (s, Err(fault.value))
    else if k !in s.sessions || s.sessions[k].tenant != t || s.sessions[k].user != u
      || !s.sessions[k].status.SessionActive? then
      (s, Ok(false))
    else
      (s.(sessions := s.sessions[k := s.sessions[k].(status := SessionRevoked)]), Ok(true))
  }

  function RevokeAll(m: Sessions, u: UserId): (r: Sessions)
    ensures r.Keys == m.Keys
    ensures forall k :: k in m ==>
              r[k] == if m[k].user == u && m[k].status.SessionActive? then m[k].(status := SessionRevoked) else m[k]
  {
    map k | k in m :: if m[k].user == u && m[k].status.SessionActive? then m[k].(status := SessionRevoked) else m[k]
  }

  datatype StatusError = Unsupported | NotFound | BadTransition | NoClerkIdentity | Terminal | ProviderFailed
    | DatabaseFailed

  /** Which of the provider calls and of the database statements fail. */
  datatype StatusFaults = StatusFaults(unban: bool, database: bool, ban: bool)

  predicate CanActivate(status: UserStatus) {
    status.UserPending? || status.UserInvited? || status.UserSuspended? || status.UserDisabled?
  }

  function SetStatusError(s: Ledger, u: UserId, target: UserStatus, f: StatusFaults): Option<StatusError> {
    if target.UserPending? || target.UserInvited? then Some(Unsupported)
    else if u !in s.users then Some(NotFound)
    else if target.UserActive? then
      if !CanActivate(s.users[u].status) then Some(BadTransition)
      else if s.users[u].clerk.None? then Some(NoClerkIdentity)
      else if f.unban then Some(ProviderFailed)
      else if f.database then Some(DatabaseFailed)
      else None
    else if s.users[u].status.UserExited? then Some(Terminal)
    else if s.users[u].status != target && f.database then Some(DatabaseFailed)
    else None
  }

  function NewStatus(user: User, target: UserStatus): User {
    user.(status := target,
          onboarding := if target.UserActive? && user.onboarding == Some(PendingAdminApproval)
            then Some(RequestApproved) else user.onboarding)
  }

  /**
   Activation enables the Clerk account first and writes nothing if that fails; every other change
   commits first, so a failure to ban reaches the caller after the change is already in force.
   */
  function SetStatus(s: Ledger, u: UserId, target: UserStatus, f: StatusFaults): (Ledger, Result<bool, StatusError>) {
    if SetStatusError(s, u, target, f).Some? then (s, Err(SetStatusError(s, u, target, f).value))
    else if s.users[u].status == target then (s, Ok(true))
    else
      (s.(users := s.users[u := NewStatus(s.users[u], target)],
          sessions := if target.UserActive? then s.sessions else RevokeAll(s.sessions, u)),
       if !target.UserActive? && s.users[u].clerk.Some? && f.ban then Err(ProviderFailed) else Ok(true))
  }
}
