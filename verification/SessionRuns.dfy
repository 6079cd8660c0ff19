/**
 What holds over whole runs of USER session calls and user status changes, whatever the calls, their
 clocks, their readings and their failures: expiries, all-or-nothing refreshes and the user lifecycle.
 */
module SessionRuns {
  import opened Options
  import opened Geo
  import opened SessionLedger
  import Schedule
  import Text

  // ---------------------------------------------------------------------------------------------
  // Refresh is all or nothing
  // ---------------------------------------------------------------------------------------------

  /** The session's row is the only one that changed; it was and is ACTIVE and is the one the token names. */
  ghost predicate Renewed(s: Ledger, s': Ledger, g: Grant) {
    && g.session in s.sessions && s.sessions[g.session].status.SessionActive?
    && g.session in s'.sessions && s'.sessions[g.session].status.SessionActive?
    && s'.sessions == s.sessions[g.session := s'.sessions[g.session]]
    && s'.sessions[g.session].startedAt == s.sessions[g.session].startedAt
    && TokenMatchesRow(s'.sessions[g.session], g)
  }

  ghost predicate TokenMatchesRow(row: Session, g: Grant) {
    row.tenant == g.tenant && row.user == g.user && row.device == g.device && row.location == g.location
      && row.expiresAt == g.expiresAt
  }

  /**
   Wherever a refresh fails it leaves the sessions alone; the evidence it leaves is one DENY row with
   the code the caller gets, exactly for catalogue errors below 500 whose evidence could be stored.
   When it succeeds the session row, one ALLOW row and the token change together.
   */
  lemma RefreshIsAllOrNothing(s: Ledger, q: RefreshRequest)
    ensures var (s', a) := Refresh(s, q);
            && s'.users == s.users && s'.policies == s.policies && s'.versions == s.versions
            && match a
               case Ok(g) =>
                 && g.session == q.session && g.tenant == q.tenant && g.user == q.user && Renewed(s, s', g)
                 && Text.ValidatePermissions(q.readings.permissions) == Ok(g.permissions) && g.permissions != []
                 && s'.evaluations == s.evaluations
                    + [Evaluation(q.tenant, q.user, Some(q.session), Some(g.location), None, q.readings.now)]
               case Err(OtherError) => s' == s
               case Err(SecurityError(code)) =>
                 && s'.sessions == s.sessions
                 && (if StatusCode(code) < 500 && !q.evidenceFails then
                       && |s'.evaluations| == |s.evaluations| + 1 && s'.evaluations[..|s.evaluations|] == s.evaluations
                       && s'.evaluations[|s.evaluations|].reason == Some(code)
                       && s'.evaluations[|s.evaluations|].user == q.user
                          && s'.evaluations[|s.evaluations|].tenant == q.tenant
                     else s' == s)
  {
    if RefreshFailure(s, q).None? {
      PermissionsGranted(s.policies[q.tenant], q.readings.geo.value, q.readings);
    }
    hide PlaceAndTime, RefreshDenied, Expiry, Evaluated, StatusCode, RowCheck, LastSteps, Text.ValidatePermissions,
        MatchLocation;
    var (s', a) := Refresh(s, q);
    if a.Err? && a.error.SecurityError? && StatusCode(a.error.code) < 500 && !q.evidenceFails {
      assert s'.evaluations[..|s.evaluations|] == s.evaluations;
    }
  }

  /** A DENY row that names a session names one that was ACTIVE and the caller's own. */
  lemma EvidenceNamesOwnActiveSession(s: Ledger, q: RefreshRequest)
    requires RefreshFailure(s, q).Some? && RefreshFailure(s, q).value.error.SecurityError?
    ensures DenyEvidence(q, RefreshFailure(s, q).value).session.Some? ==> OwnsActive(s, q)
    ensures DenyEvidence(q, RefreshFailure(s, q).value).location.Some? ==>
              OwnsActive(s, q) && q.readings.now < s.sessions[q.session].expiresAt
  {
    hide ScheduleCheck, LocationCheck, PermissionsCheck, Expiry, Evaluated;
  }

  // ---------------------------------------------------------------------------------------------
  // Expiries
  // ---------------------------------------------------------------------------------------------

  predicate Positive(p: Policy) {
    p.geoIntervalSeconds > 0 && p.tokenTtlMinutes > 0 && p.maxDurationMinutes > 0
  }

  ghost predicate PoliciesPositive(s: Ledger) {
    forall t :: t in s.policies ==> Positive(s.policies[t])
  }

  /** No ACTIVE session reaches past its start plus the maximum duration. */
  ghost predicate SessionsBounded(s: Ledger) {
    forall k :: k in s.sessions && s.sessions[k].status.SessionActive? ==>
      s.sessions[k].tenant in s.policies
      && s.sessions[k].expiresAt <= SessionEnd(s.policies[s.sessions[k].tenant], s.sessions[k].startedAt)
  }

  /** Only an ACTIVE user has ACTIVE sessions, in any tenant. */
  ghost predicate OwnersActive(s: Ledger) {
    forall k :: k in s.sessions && s.sessions[k].status.SessionActive? ==>
      s.sessions[k].user in s.users && s.users[s.sessions[k].user].status.UserActive?
  }

  ghost predicate Inv(s: Ledger) {
    PoliciesPositive(s) && SessionsBounded(s) && OwnersActive(s)
  }

  /** A token issued at `now`: ahead of the clock, within all four bounds, and backed by an ACTIVE row. */
  ghost predicate WellIssued(s': Ledger, g: Grant, now: Time, place: Candidate) {
    && g.tenant in s'.policies && g.session in s'.sessions
    && var p, row := s'.policies[g.tenant], s'.sessions[g.session];
    && row.status.SessionActive? && TokenMatchesRow(row, g) && row.version == Version(s', g.user, g.tenant)
    && g.location == place.location
    && g.user in s'.users && s'.users[g.user].status.UserActive?
    && now < g.expiresAt
    && g.expiresAt <= now + p.tokenTtlMinutes * MINUTE
    && g.expiresAt <= now + p.geoIntervalSeconds * SECOND
    && g.expiresAt <= SessionEnd(p, row.startedAt)
    && (forall t :: now <= t < g.expiresAt ==> Evaluated(place, t).Granted?)
  }

  /** In a fixed-offset zone no expiry outlives the schedule it was computed from. */
  lemma ExpiryStaysInSchedule(p: Policy, now: Time, startedAt: Time, place: Candidate)
    requires Evaluated(place, now).Granted?
    ensures now < Evaluated(place, now).until
    ensures forall t :: now <= t < Expiry(p, now, startedAt, Evaluated(place, now).until) ==>
              Evaluated(place, t).Granted?
  {
    Schedule.GrantIsStable(now, place.offset, place.windows, place.override, now);
    forall t | now <= t < Expiry(p, now, startedAt, Evaluated(place, now).until) ensures Evaluated(place, t).Granted? {
      Schedule.GrantIsStable(now, place.offset, place.windows, place.override, t);
    }
  }

  /** Create and reuse never compare the new expiry with the clock; it is ahead exactly when the session's end is. */
  lemma ExpiryIsAhead(p: Policy, now: Time, startedAt: Time, place: Candidate)
    requires Positive(p) && Evaluated(place, now).Granted?
    ensures now < Expiry(p, now, startedAt, Evaluated(place, now).until) <==> now < SessionEnd(p, startedAt)
  {
    ExpiryStaysInSchedule(p, now, startedAt, place);
  }

  lemma RefreshIssuesWell(s: Ledger, q: RefreshRequest)
    requires Inv(s)
    ensures var (s', a) := Refresh(s, q);
            Inv(s') && (a.Ok? ==> WellIssued(s', a.value, q.readings.now, MatchLocation(q.readings.candidates).value))
  {
    hide Evaluated, PlaceAndTime, DeviceCheck, TenantCheck, DenyEvidence;
    var (s', a) := Refresh(s, q);
    if a.Ok? {
      var place := MatchLocation(q.readings.candidates).value;
      ExpiryStaysInSchedule(s.policies[q.tenant], q.readings.now, s.sessions[q.session].startedAt, place);
    }
  }

  /** The start of the session a create or reuse extends. */
  ghost function StartOf(s: Ledger, q: CreateRequest, found: Option<SessionId>): Time
    requires CreateDenied(s, q).None? && LooksUp(s, q, found)
  {
    if found.Some? then s.sessions[found.value].startedAt else q.readings.now
  }

  /** What a successful create or reuse writes. */
  lemma FinishWrites(s: Ledger, q: CreateRequest, found: Option<SessionId>)
    requires CreateDenied(s, q).None? && LooksUp(s, q, found) && CreateFinish(s, q, found).1.Ok?
    ensures var m := ExpireStale(s.sessions, q.tenant, q.identity.value.0, q.device, q.readings.now);
            var (s', a) := CreateFinish(s, q, found);
            var g, place := a.value, MatchLocation(q.readings.candidates).value;
            && g.tenant == q.tenant && g.user == q.identity.value.0
            && g.session in s'.sessions && s'.sessions == m[g.session := s'.sessions[g.session]]
            && s'.sessions[g.session].status.SessionActive? && TokenMatchesRow(s'.sessions[g.session], g)
            && s'.sessions[g.session].startedAt == StartOf(s, q, found)
            && s'.sessions[g.session].version == Version(s, g.user, g.tenant) && g.location == place.location
            && g.expiresAt == Expiry(s.policies[q.tenant], q.readings.now, StartOf(s, q, found),
               Evaluated(place, q.readings.now).until)
  {
    hide Evaluated, PlaceAndTime, CreateDenied, Expiry, RowCheck, LastSteps;
  }

  /**
   Writing a row that is within its bounds and its ACTIVE owner's, after expiring stale ones, keeps the ledger
   well.
   */
  lemma WriteKeepsInv(s: Ledger, s': Ledger, m: Sessions, k: SessionId)
    requires Inv(s) && s' == s.(sessions := s'.sessions, evaluations := s'.evaluations)
    requires m.Keys == s.sessions.Keys && forall j :: j in m ==>
               m[j] == s.sessions[j] || m[j] == s.sessions[j].(status := SessionExpired)
    requires k in s'.sessions && s'.sessions == m[k := s'.sessions[k]]
    requires var row := s'.sessions[k];
             && row.tenant in s.policies && row.expiresAt <= SessionEnd(s.policies[row.tenant], row.startedAt)
             && row.user in s.users && s.users[row.user].status.UserActive?
    ensures Inv(s')
  {
    hide Positive;
  }

  lemma PositiveDuration(p: Policy, now: Time)
    requires Positive(p)
    ensures now < SessionEnd(p, now)
  {}

  /** The session a create or reuse extends has not reached its end. */
  lemma StartIsRecent(s: Ledger, q: CreateRequest, found: Option<SessionId>)
    requires Inv(s) && CreateDenied(s, q).None? && LooksUp(s, q, found)
    ensures q.readings.now < SessionEnd(s.policies[q.tenant], StartOf(s, q, found))
  {
    if found.None? {
      PositiveDuration(s.policies[q.tenant], q.readings.now);
    } else {
      assert q.readings.now < s.sessions[found.value].expiresAt;
    }
    hide CreateDenied, Positive;
  }

  /** The expiry a create or reuse computes is ahead of the clock and within its bounds. */
  lemma FinishExpiresWell(s: Ledger, q: CreateRequest, found: Option<SessionId>)
    requires Inv(s) && CreateDenied(s, q).None? && LooksUp(s, q, found) && CreateFinish(s, q, found).1.Ok?
    ensures var now, p, start := q.readings.now, s.policies[q.tenant], StartOf(s, q, found);
            var place := MatchLocation(q.readings.candidates).value;
            var e := CreateFinish(s, q, found).1.value.expiresAt;
            && now < e <= SessionEnd(p, start)
            && e <= now + p.tokenTtlMinutes * MINUTE && e <= now + p.geoIntervalSeconds * SECOND
            && (forall t :: now <= t < e ==> Evaluated(place, t).Granted?)
  {
    var now, start, place := q.readings.now, StartOf(s, q, found), MatchLocation(q.readings.candidates).value;
    FinishWrites(s, q, found);
    StartIsRecent(s, q, found);
    hide Evaluated, PlaceAndTime, CreateDenied, CreateFinish, Positive, MatchLocation, LooksUp, StartOf;
    ExpiryIsAhead(s.policies[q.tenant], now, start, place);
    ExpiryStaysInSchedule(s.policies[q.tenant], now, start, place);
  }

  lemma FinishIssuesWell(s: Ledger, q: CreateRequest, found: Option<SessionId>)
    requires Inv(s) && CreateDenied(s, q).None? && LooksUp(s, q, found)
    ensures var (s', a) := CreateFinish(s, q, found);
            Inv(s') && (a.Ok? ==> WellIssued(s', a.value, q.readings.now, MatchLocation(q.readings.candidates).value))
  {
    var (s', a) := CreateFinish(s, q, found);
    if a.Ok? {
      FinishWrites(s, q, found);
      FinishExpiresWell(s, q, found);
      assert q.identity.value.0 in s.users && s.users[q.identity.value.0].status.UserActive?;
      hide Evaluated, PlaceAndTime, CreateDenied, CreateFinish, MatchLocation, LooksUp, Inv, StartOf, SessionEnd;
      WriteKeepsInv(s, s', ExpireStale(s.sessions, q.tenant, q.identity.value.0, q.device, q.readings.now),
          a.value.session);
    }
  }

  lemma CreateIssuesWell(s: Ledger, q: CreateRequest, s': Ledger, a: Answer)
    requires Inv(s) && CreateOrReuse(s, q, s', a)
    ensures Inv(s') && (a.Ok? ==> WellIssued(s', a.value, q.readings.now, MatchLocation(q.readings.candidates).value))
  {
    hide CreateFinish, CreateDenied, WellIssued, Inv, LooksUp;
    if CreateDenied(s, q).None? {
      var found :| LooksUp(s, q, found) && s' == CreateFinish(s, q, found).0 && a == CreateFinish(s, q, found).1;
      FinishIssuesWell(s, q, found);
    }
  }

  lemma SetStatusKeepsInv(s: Ledger, u: UserId, target: UserStatus, f: StatusFaults)
    requires Inv(s)
    ensures Inv(SetStatus(s, u, target, f).0)
  {}

  lemma RevokeKeepsInv(s: Ledger, k: SessionId, t: TenantId, u: UserId, fault: Option<Raised>)
    requires Inv(s)
    ensures Inv(Revoke(s, k, t, u, fault).0)
  {}

  /** Only the sessions of one device may change, and of them only the stale and the answered one. */
  ghost predicate OnlyDeviceTouched(s: Ledger, s': Ledger, q: CreateRequest, g: Grant) {
    forall k :: k in s.sessions && k != g.session ==>
      && k in s'.sessions
      && s'.sessions[k] == if ActiveOn(s.sessions, k, q.tenant, g.user, q.device)
         && s.sessions[k].expiresAt <= q.readings.now
                           then s.sessions[k].(status := SessionExpired) else s.sessions[k]
  }

  /**
   The token answers for the identity's user with the validated permissions; its session is an unexpired
   ACTIVE one of that device at the matched location, or new; every other session is left alone but for
   stale ones of the device; and one ALLOW row is written.
   */
  ghost predicate CreateAnswered(s: Ledger, s': Ledger, q: CreateRequest, g: Grant) {
    && q.identity.Some? && g.user == q.identity.value.0 && g.tenant == q.tenant && g.device == q.device
    && Text.ValidatePermissions(q.readings.permissions) == Ok(g.permissions) && g.permissions != []
    && OnlyDeviceTouched(s, s', q, g)
    && g.session in s'.sessions
    && (g.session in s.sessions ==>
          && ActiveOn(s.sessions, g.session, q.tenant, g.user, q.device)
             && q.readings.now < s.sessions[g.session].expiresAt
          && s.sessions[g.session].location == g.location
          && s'.sessions[g.session].startedAt == s.sessions[g.session].startedAt)
    && s'.evaluations == s.evaluations
       + [Evaluation(q.tenant, g.user, Some(g.session), Some(g.location), None, q.readings.now)]
  }

  /** A failed create or reuse changes nothing at all, and a successful one everything it should. */
  lemma CreateIsAllOrNothing(s: Ledger, q: CreateRequest, s': Ledger, a: Answer)
    requires CreateOrReuse(s, q, s', a)
    ensures a.Err? ==> s' == s
    ensures a.Ok? ==> CreateAnswered(s, s', q, a.value)
  {
    if a.Ok? {
      var found :| LooksUp(s, q, found) && s' == CreateFinish(s, q, found).0 && a == CreateFinish(s, q, found).1;
      FinishAnswers(s, q, found);
    }
    hide CreateDenied, CreateFinish, LooksUp, CreateAnswered;
  }

  lemma FinishAnswers(s: Ledger, q: CreateRequest, found: Option<SessionId>)
    requires CreateDenied(s, q).None? && LooksUp(s, q, found) && CreateFinish(s, q, found).1.Ok?
    ensures CreateAnswered(s, CreateFinish(s, q, found).0, q, CreateFinish(s, q, found).1.value)
  {
    PermissionsGranted(s.policies[q.tenant], q.geo, q.readings);
    FinishTouches(s, q, found);
    hide PlaceAndTime, CreateDenied, Evaluated, Expiry, RowCheck, LastSteps, Text.ValidatePermissions, MatchLocation;
    hide OnlyDeviceTouched;
  }

  lemma FinishTouches(s: Ledger, q: CreateRequest, found: Option<SessionId>)
    requires CreateDenied(s, q).None? && LooksUp(s, q, found) && CreateFinish(s, q, found).1.Ok?
    ensures OnlyDeviceTouched(s, CreateFinish(s, q, found).0, q, CreateFinish(s, q, found).1.value)
  {
    FinishWrites(s, q, found);
    hide CreateFinish, CreateDenied, LooksUp, StartOf, MatchLocation, Evaluated, Expiry;
  }

  lemma PermissionsGranted(p: Policy, geo: Sample, r: Readings)
    requires PlaceAndTime(p, geo, r).None?
    ensures Text.ValidatePermissions(r.permissions).Ok? && Text.ValidatePermissions(r.permissions).value != []
  {
    assert r.permissions[0] in Text.ValidatePermissions(r.permissions).value;
  }

  // ---------------------------------------------------------------------------------------------
  // Runs
  // ---------------------------------------------------------------------------------------------

  datatype Call =
    | CreateCall(create: CreateRequest)
    | RefreshCall(refresh: RefreshRequest)
    | RevokeCall(session: SessionId, tenant: TenantId, user: UserId, fault: Option<Raised>)
    | StatusCall(subject: UserId, target: UserStatus, faults: StatusFaults)

  datatype Event = Event(before: Ledger, call: Call, issued: Option<Grant>, after: Ledger)

  function Issued(a: Answer): Option<Grant> {
    if a.Ok? then Some(a.value) else None
  }

  ghost predicate Happens(e: Event) {
    match e.call
    case CreateCall(q) =>
      if e.issued.Some? then CreateOrReuse(e.before, q, e.after, Ok(e.issued.value))
      else exists error :: CreateOrReuse(e.before, q, e.after, Err(error))
    case RefreshCall(q) => e.after == Refresh(e.before, q).0 && e.issued == Issued(Refresh(e.before, q).1)
    case RevokeCall(k, t, u, fault) => e.after == Revoke(e.before, k, t, u, fault).0 && e.issued.None?
    case StatusCall(u, target, f) => e.after == SetStatus(e.before, u, target, f).0 && e.issued.None?
  }

  function ReadingsOf(c: Call): Option<Readings> {
    match c
    case CreateCall(q) => Some(q.readings)
    case RefreshCall(q) => Some(q.readings)
    case _ => None
  }

  ghost predicate Run(events: seq<Event>) {
    && (forall i :: 0 <= i < |events| ==> Happens(events[i]))
    && (forall i :: 0 < i < |events| ==> events[i].before == events[i - 1].after)
  }

  lemma EventKeepsInv(e: Event)
    requires Happens(e) && Inv(e.before)
    ensures Inv(e.after)
    ensures e.issued.Some? ==>
              && ReadingsOf(e.call).Some?
              && MatchLocation(ReadingsOf(e.call).value.candidates).Ok?
              && WellIssued(e.after, e.issued.value, ReadingsOf(e.call).value.now,
                 MatchLocation(ReadingsOf(e.call).value.candidates).value)
  {
    hide Inv, WellIssued, Refresh, Revoke, SetStatus, CreateOrReuse;
    match e.call
    case CreateCall(q) =>
      if e.issued.Some? {
        CreateIssuesWell(e.before, q, e.after, Ok(e.issued.value));
        CreateMatched(e.before, q, e.after, e.issued.value);
      } else {
        var error :| CreateOrReuse(e.before, q, e.after, Err(error));
        CreateIssuesWell(e.before, q, e.after, Err(error));
      }
    case RefreshCall(q) =>
      RefreshIssuesWell(e.before, q);
      RefreshMatched(e.before, q);
    case RevokeCall(k, t, u, fault) => RevokeKeepsInv(e.before, k, t, u, fault);
    case StatusCall(u, target, f) => SetStatusKeepsInv(e.before, u, target, f);
  }

  lemma CreateMatched(s: Ledger, q: CreateRequest, s': Ledger, g: Grant)
    requires CreateOrReuse(s, q, s', Ok(g))
    ensures MatchLocation(q.readings.candidates).Ok?
  {
    hide CreateFinish, PlaceAndTime, LooksUp;
  }

  lemma RefreshMatched(s: Ledger, q: RefreshRequest)
    ensures Refresh(s, q).1.Ok? ==> MatchLocation(q.readings.candidates).Ok?
  {
    hide RefreshDenied, PlaceAndTime, RefreshedRow, DenyEvidence;
  }

  lemma RefreshSpares(s: Ledger, q: RefreshRequest, k: SessionId)
    requires k in s.sessions && !s.sessions[k].status.SessionActive?
    ensures var (s', a) := Refresh(s, q);
            k in s'.sessions && s'.sessions[k] == s.sessions[k] && (a.Ok? ==> a.value.session != k)
  {
    RefreshIsAllOrNothing(s, q);
    hide Refresh, RefreshFailure, StatusCode;
  }

  lemma CreateSpares(s: Ledger, q: CreateRequest, s': Ledger, a: Answer, k: SessionId)
    requires CreateOrReuse(s, q, s', a) && k in s.sessions && !s.sessions[k].status.SessionActive?
    ensures k in s'.sessions && s'.sessions[k] == s.sessions[k] && (a.Ok? ==> a.value.session != k)
  {
    CreateIsAllOrNothing(s, q, s', a);
    hide CreateOrReuse;
  }

  lemma EventSpares(e: Event, k: SessionId)
    requires Happens(e) && k in e.before.sessions && !e.before.sessions[k].status.SessionActive?
    ensures k in e.after.sessions && e.after.sessions[k] == e.before.sessions[k]
    ensures e.issued.Some? ==> e.issued.value.session != k
  {
    hide CreateOrReuse, Refresh, SetStatusError;
    match e.call
    case CreateCall(q) =>
      if e.issued.Some? {
        CreateSpares(e.before, q, e.after, Ok(e.issued.value), k);
      } else {
        var error :| CreateOrReuse(e.before, q, e.after, Err(error));
        CreateSpares(e.before, q, e.after, Err(error), k);
      }
    case RefreshCall(q) => RefreshSpares(e.before, q, k);
    case _ =>
  }

  /**
   Once a session is REVOKED or EXPIRED its row never changes again and no later call of the run hands
   out a token for it.
   */
  lemma {:induction false} EndedSessionsIssueNothing(events: seq<Event>, i: nat, j: nat, k: SessionId)
    requires Run(events) && i <= j < |events|
    requires k in events[i].before.sessions && !events[i].before.sessions[k].status.SessionActive?
    ensures k in events[j].after.sessions && events[j].after.sessions[k] == events[i].before.sessions[k]
    ensures events[j].issued.Some? ==> events[j].issued.value.session != k
    decreases j
  {
    hide Happens;
    if i < j {
      EndedSessionsIssueNothing(events, i, j - 1, k);
    }
    EventSpares(events[j], k);
  }

  /**
   Over any run with fixed positive policies: only ACTIVE users have ACTIVE sessions, and every token
   is strictly ahead of its clock and within the token, location, session and schedule bounds.
   */
  lemma {:induction false} EveryRunIsWell(events: seq<Event>, i: nat)
    requires Run(events) && i < |events| && Inv(events[0].before)
    ensures Inv(events[i].before) && Inv(events[i].after)
    ensures var e := events[i];
            e.issued.Some? ==>
              && ReadingsOf(e.call).Some?
              && MatchLocation(ReadingsOf(e.call).value.candidates).Ok?
              && WellIssued(e.after, e.issued.value, ReadingsOf(e.call).value.now,
                 MatchLocation(ReadingsOf(e.call).value.candidates).value)
  {
    hide Inv, WellIssued, Happens;
    if i > 0 {
      EveryRunIsWell(events, i - 1);
    }
    EventKeepsInv(events[i]);
  }

  /** Whatever the ledger: a reused token is ahead of the clock exactly when the session's maximum end still is. */
  lemma ReusedTokenIsAhead(s: Ledger, q: CreateRequest, k: SessionId)
    requires CreateDenied(s, q).None? && LooksUp(s, q, Some(k)) && CreateFinish(s, q, Some(k)).1.Ok?
    requires Positive(s.policies[q.tenant])
    ensures q.readings.now < CreateFinish(s, q, Some(k)).1.value.expiresAt <==>
              q.readings.now < SessionEnd(s.policies[q.tenant], s.sessions[k].startedAt)
  {
    hide CreateDenied, PlaceAndTime, Positive, Evaluated, Expiry, SessionEnd;
    ExpiryIsAhead(s.policies[q.tenant], q.readings.now, s.sessions[k].startedAt,
        MatchLocation(q.readings.candidates).value);
  }

  /**
   So the run theorem needs its fixed policies.  Here the maximum duration has been lowered to one
   minute under a session that is two minutes old and ACTIVE for another: reusing it succeeds with a
   token that expired a minute ago.
   */
  lemma LoweredPolicyIssuesExpiredToken(permission: string) returns (s: Ledger, q: CreateRequest, s': Ledger, a: Answer)
    requires Text.IsCanonicalPermission(permission)
    ensures PoliciesPositive(s) && OwnersActive(s) && CreateOrReuse(s, q, s', a)
    ensures a.Ok? && a.value.session in s.sessions && a.value.expiresAt <= q.readings.now
  {
    var now, place := 2 * MINUTE, Candidate(1, 0.0, 1.0, 0, true, [], Some(10 * MINUTE));
    s := Ledger(map[1 := User(UserActive, true, None, None)],
                map[7 := Session(1, 1, 1, 1, 1, SessionActive, 0, 3 * MINUTE)],
                [], map[1 := Policy(1.0, 60, 3600, 60, 1, true, true)], map[]);
    q := CreateRequest(Some((1, true)), 1, 1, Sample(0.0, now, false),
                       Readings(now, TenantActive, NotDetected, Some(DeviceActive), None, [place], ["r"],
                           [permission], NoFault), 8);
    assert MatchLocation([place]) == Ok(place) by {
      assert Nearest([place][..0]).None?;
      assert Nearest([place]) == Some(0);
    }
    assert CreateDenied(s, q).None?;
    var m := ExpireStale(s.sessions, 1, 1, 1, now);
    assert ActiveOn(m, 7, 1, 1, 1);
    assert LooksUp(s, q, Some(7));
    s', a := CreateFinish(s, q, Some(7)).0, CreateFinish(s, q, Some(7)).1;
    assert CreateOrReuse(s, q, s', a);
  }

  // ---------------------------------------------------------------------------------------------
  // The user lifecycle
  // ---------------------------------------------------------------------------------------------

  predicate NotYet(status: UserStatus) { status.UserPending? || status.UserInvited? }

  /** How one event may change one user. */
  ghost predicate LifecycleStep(e: Event, u: UserId) {
    && (u in e.before.users <==> u in e.after.users)
    && (u in e.before.users ==>
          var was, now := e.before.users[u], e.after.users[u];
          && (was.status.UserExited? ==> now == was)
          && (NotYet(now.status) ==> now == was)
          && now.clerk == was.clerk && now.principalActive == was.principalActive
          && (now.status.UserActive? && !was.status.UserActive? ==>
                was.clerk.Some? && e.call.StatusCall? && e.call.subject == u && !e.call.faults.unban)
          && (now.onboarding != was.onboarding ==>
                was.onboarding == Some(PendingAdminApproval) && now.onboarding == Some(RequestApproved)
                  && now.status.UserActive?))
  }

  lemma EventIsLifecycleStep(e: Event, u: UserId)
    requires Happens(e)
    ensures LifecycleStep(e, u)
  {
    hide CreateFinish, RefreshFailure, RefreshedRow, CreateDenied, RevokeAll, DenyEvidence;
    if e.call.CreateCall? {
      CreateKeepsUsers(e);
    }
  }

  lemma CreateKeepsUsers(e: Event)
    requires Happens(e) && e.call.CreateCall?
    ensures e.after.users == e.before.users
  {
    hide CreateDenied, CreateFinish, LooksUp;
  }

  /**
   Over any run, for every pattern of provider and database failures: EXITED is final, nobody returns
   to PENDING or INVITED, and whoever becomes ACTIVE has an ACTIVE Clerk identity that was just enabled.
   */
  lemma {:induction false} LifecycleOverRuns(events: seq<Event>, u: UserId, i: nat, j: nat)
    requires Run(events) && i <= j < |events| && u in events[i].before.users
    ensures u in events[j].after.users
    ensures events[i].before.users[u].status.UserExited? ==> events[j].after.users[u] == events[i].before.users[u]
    ensures NotYet(events[j].after.users[u].status) ==> events[j].after.users[u] == events[i].before.users[u]
    ensures events[j].after.users[u].status.UserActive? && !events[i].before.users[u].status.UserActive? ==>
              events[i].before.users[u].clerk.Some?
    ensures events[j].after.users[u].clerk == events[i].before.users[u].clerk
    decreases j
  {
    hide Happens;
    EventIsLifecycleStep(events[j], u);
    if i < j {
      LifecycleOverRuns(events, u, i, j - 1);
    }
  }

  /** A status change that reports a failed ban has taken effect: the user is out and has no ACTIVE session. */
  lemma FailedBanStillLocksOut(s: Ledger, u: UserId, target: UserStatus, f: StatusFaults, k: SessionId)
    requires u in s.users && !target.UserActive? && SetStatusError(s, u, target, f).None? && s.users[u].status != target
    ensures var s' := SetStatus(s, u, target, f).0;
            && s'.users[u].status == target
            && (k in s'.sessions && s'.sessions[k].user == u ==> !s'.sessions[k].status.SessionActive?)
  {}

  /** A failed unban, or a failed commit, leaves the ledger as it was. */
  lemma FailedActivationChangesNothing(s: Ledger, u: UserId, f: StatusFaults)
    ensures f.unban || f.database ==> SetStatus(s, u, UserActive, f).0 == s && SetStatus(s, u, UserActive, f).1.Err?
  {}
}
