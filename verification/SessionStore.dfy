/**
 The USER session services as they run: tables updated in place inside a transaction, restored when
 it rolls back.  Every call is tied to its specification in `SessionLedger`.
 */
module SessionStore {
  import opened Options
  import opened Geo
  import opened SessionLedger
  import Schedule
  import Text

  class Store {
    var users: map<UserId, User>
    var sessions: Sessions
    var evaluations: seq<Evaluation>
    const policies: map<TenantId, Policy>
    const versions: map<(UserId, TenantId), int>

    constructor (u: map<UserId, User>, k: Sessions, p: map<TenantId, Policy>, v: map<(UserId, TenantId), int>)
      ensures State() == Ledger(u, k, [], p, v)
    {
      users, sessions, evaluations, policies, versions := u, k, [], p, v;
    }

    function State(): Ledger
      reads this
    {
      Ledger(users, sessions, evaluations, policies, versions)
    }

    /** _persist_denial_evidence_best_effort: its own transaction, whose failure is swallowed. */
    method PersistDenial(q: RefreshRequest, f: Failure)
      modifies `evaluations
      ensures evaluations ==
              if LeavesEvidence(q, f) then old(evaluations) + [DenyEvidence(q, f)] else old(evaluations)
    {
      if f.error.OtherError? || StatusCode(f.error.code) >= 500 {
        return;
      }
      var saved := evaluations;
      evaluations := evaluations + [DenyEvidence(q, f)];
      if q.evidenceFails {
        evaluations := saved;
      }
    }

    /** The checks of refresh, up to the first write. */
    method CheckRefresh(q: RefreshRequest) returns (f: Option<Failure>)
      ensures f == RefreshDenied(State(), q)
    {
      var e, d := q.readings, q.readings.fault;
      if e.geo.None? {
        return Some(Failure(AtNetwork, SecurityError(GeoRequired)));
      }
      f := At(d, AtNetwork, None);
      if f.Some? { return; }
      f := At(d, AtTenant, TenantCheck(e.tenantStatus));
      if f.Some? { return; }
      f := At(d, AtContext, ContextCheck(State(), q.user));
      if f.Some? { return; }
      f := At(d, AtPolicy, PolicyCheck(State(), q.tenant));
      if f.Some? { return; }
      f := At(d, AtObserve, Deny(!OwnsActive(State(), q), SessionIsRevoked));
      if f.Some? { return; }
      f := At(d, AtDevice, DeviceCheck(e.device));
      if f.Some? { return; }
      f := At(d, AtSession, Deny(sessions[q.session].expiresAt <= e.now, AuthTokenExpired));
      if f.Some? { return; }
      f := PlaceAndTime(policies[q.tenant], e.geo.value, e);
    }

    /** The writes of refresh; a failure leaves whatever had been written so far. */
    method WriteRefresh(q: RefreshRequest) returns (r: Result<Grant, Failure>)
      requires RefreshDenied(State(), q).None?
      modifies `sessions, `evaluations
      ensures r.Ok? <==> RefreshFailure(old(State()), q).None?
      ensures r.Err? ==> RefreshFailure(old(State()), q) == Some(r.error)
      ensures r.Ok? ==> (State(), Ok(r.value)) == SessionLedger.Refresh(old(State()), q)
    {
      hide RefreshDenied, PlaceAndTime, MatchLocation, Schedule.Evaluate, Text.ValidatePermissions, Expiry, RowCheck;
      var e, d, policy, row := q.readings, q.readings.fault, policies[q.tenant], sessions[q.session];
      var place := FindLocation(e.candidates);
      var decision := Schedule.EvaluateSchedule(e.now, place.value.offset, place.value.windows, place.value.override);
      var permissions := Text.ValidatePermissions(e.permissions);
      var expiry := Expiry(policy, e.now, row.startedAt, decision.until);
      row := row.(location := place.value.location, version := Version(State(), q.user, q.tenant), expiresAt := expiry);
      var f := At(d, AtWrite, if expiry <= e.now then Some(SecurityError(AuthTokenExpired)) else RowCheck(row));
      if f.Some? { return Err(f.value); }
      sessions := sessions[q.session := row];
      f := At(d, AtRecord, None);
      if f.Some? { return Err(f.value); }
      evaluations := evaluations + [Allow(q.tenant, q.user, q.session, row.location, e.now)];
      f := At(d, AtSign, None);
      if f.Some? { return Err(f.value); }
      f := At(d, AtCommit, None);
      if f.Some? { return Err(f.value); }
      return Ok(Grant(q.session, q.tenant, q.user, row.device, row.location, e.roles, permissions.value, expiry));
    }

    /** The body of refresh's try block; a failure leaves whatever had been written so far. */
    method TryRefresh(q: RefreshRequest) returns (r: Result<Grant, Failure>)
      modifies `sessions, `evaluations
      ensures r.Ok? <==> RefreshFailure(old(State()), q).None?
      ensures r.Err? ==> RefreshFailure(old(State()), q) == Some(r.error)
      ensures r.Ok? ==> (State(), Ok(r.value)) == SessionLedger.Refresh(old(State()), q)
    {
      hide RefreshDenied;
      var f := CheckRefresh(q);
      if f.Some? {
        return Err(f.value);
      }
      r := WriteRefresh(q);
    }

    method Refresh(q: RefreshRequest) returns (a: Answer)
      modifies `sessions, `evaluations
      ensures (State(), a) == SessionLedger.Refresh(old(State()), q)
    {
      var savedSessions, savedEvaluations := sessions, evaluations;
      var r := TryRefresh(q);
      if r.Ok? {
        return Ok(r.value);
      }
      sessions, evaluations := savedSessions, savedEvaluations;
      PersistDenial(q, r.error);
      return Err(r.error.error);
    }

    method ExpireStale(t: TenantId, u: UserId, d: DeviceId, now: Time)
      modifies `sessions
      ensures sessions == SessionLedger.ExpireStale(old(sessions), t, u, d, now)
    {
      sessions := map k | k in sessions ::
        if ActiveOn(sessions, k, t, u, d) && sessions[k].expiresAt <= now
          then sessions[k].(status := SessionExpired) else sessions[k];
    }

    /** The checks of create_or_reuse, up to the first write. */
    method CheckCreate(q: CreateRequest) returns (f: Option<Failure>)
      ensures f == CreateDenied(State(), q)
    {
      var e, d := q.readings, q.readings.fault;
      f := At(d, AtNetwork, None);
      if f.Some? { return; }
      f := At(d, AtTenant, TenantCheck(e.tenantStatus));
      if f.Some? { return; }
      f := At(d, AtIdentity, IdentityCheck(State(), q.identity));
      if f.Some? { return; }
      f := At(d, AtContext, ContextCheck(State(), q.identity.value.0));
      if f.Some? { return; }
      f := At(d, AtPolicy, PolicyCheck(State(), q.tenant));
      if f.Some? { return; }
      f := At(d, AtDevice, DeviceCheck(e.device));
      if f.Some? { return; }
      f := PlaceAndTime(policies[q.tenant], q.geo, e);
    }

    /** The writes of create_or_reuse; a failure leaves whatever had been written so far. */
    method WriteCreate(q: CreateRequest) returns (a: Answer, ghost found: Option<SessionId>)
      requires CreateDenied(State(), q).None?
      modifies `sessions, `evaluations
      ensures LooksUp(old(State()), q, found)
      ensures a == CreateFinish(old(State()), q, found).1
      ensures a.Ok? ==> State() == CreateFinish(old(State()), q, found).0
    {
      hide CreateDenied, PlaceAndTime, MatchLocation, Schedule.Evaluate, Text.ValidatePermissions, Expiry, LastSteps,
          RowCheck;
      var e, d, user, policy := q.readings, q.readings.fault, q.identity.value.0, policies[q.tenant];
      var place := FindLocation(e.candidates);
      var decision := Schedule.EvaluateSchedule(e.now, place.value.offset, place.value.windows, place.value.override);
      var permissions := Text.ValidatePermissions(e.permissions);
      found := None;
      ExpireStale(q.tenant, user, q.device, e.now);
      var active: Option<SessionId> := None;
      if k :| k in sessions && ActiveOn(sessions, k, q.tenant, user, q.device) {
        active := Some(k);
      }
      found := active;
      if At(d, AtWrite, None).Some? {
        return Err(d.error), found;
      }
      if active.Some? && sessions[active.value].location != place.value.location {
        return Err(SecurityError(AccessSessionContextConflict)), found;
      }
      var k, row;
      if active.Some? {
        k, row := active.value, sessions[active.value];
      } else {
        k, row := q.freshId, Session(q.tenant, user, q.device, place.value.location, 0, SessionActive, e.now, e.now);
      }
      var expiry := Expiry(policy, e.now, row.startedAt, decision.until);
      row := row.(version := Version(State(), user, q.tenant), expiresAt := expiry);
      if (active.None? && k in sessions) || RowCheck(row).Some? {
        return Err(OtherError), found;
      }
      sessions := sessions[k := row];
      evaluations := evaluations + [Allow(q.tenant, user, k, place.value.location, e.now)];
      var f := LastSteps(d);
      if f.Some? {
        return Err(f.value.error), found;
      }
      return Ok(Grant(k, q.tenant, user, q.device, place.value.location, e.roles, permissions.value, expiry)), found;
    }

    method CreateOrReuse(q: CreateRequest) returns (a: Answer)
      modifies `sessions, `evaluations
      ensures SessionLedger.CreateOrReuse(old(State()), q, State(), a)
    {
      hide CreateFinish, CreateDenied, LooksUp;
      var f := CheckCreate(q);
      if f.Some? {
        return Err(f.value.error);
      }
      var savedSessions, savedEvaluations := sessions, evaluations;
      ghost var found;
      a, found := WriteCreate(q);
      if a.Err? {
        sessions, evaluations := savedSessions, savedEvaluations;
      }
      assert State() == CreateFinish(old(State()), q, found).0;
    }

    method Revoke(k: SessionId, t: TenantId, u: UserId, fault: Option<Raised>) returns (r: Result<bool, Raised>)
      modifies `sessions
      ensures (State(), r) == SessionLedger.Revoke(old(State()), k, t, u, fault)
    {
      var saved := sessions;
      if k !in sessions || sessions[k].tenant != t || sessions[k].user != u || !sessions[k].status.SessionActive? {
        return if fault.Some? then Err(fault.value) else Ok(false);
      }
      sessions := sessions[k := sessions[k].(status := SessionRevoked)];
      if fault.Some? {
        sessions := saved;
        return Err(fault.value);
      }
      return Ok(true);
    }

    method RevokeAll(u: UserId)
      modifies `sessions
      ensures sessions == SessionLedger.RevokeAll(old(sessions), u)
    {
      sessions := map k | k in sessions ::
        if sessions[k].user == u && sessions[k].status.SessionActive?
          then sessions[k].(status := SessionRevoked) else sessions[k];
    }

    method SetUserStatus(u: UserId, target: UserStatus, f: StatusFaults) returns (r: Result<bool, StatusError>)
      modifies `users, `sessions
      ensures (State(), r) == SetStatus(old(State()), u, target, f)
    {
      if target.UserPending? || target.UserInvited? {
        return Err(Unsupported);
      }
      if u !in users {
        return Err(NotFound);
      }
      var current := users[u];
      if target.UserActive? {
        if !CanActivate(current.status) {
          return Err(BadTransition);
        }
        if current.clerk.None? {
          return Err(NoClerkIdentity);
        }
        if f.unban {
          return Err(ProviderFailed);
        }
      } else {
        if current.status.UserExited? {
          return Err(Terminal);
        }
        if current.status == target {
          return Ok(true);
        }
      }
      var savedUsers, savedSessions := users, sessions;
      users := users[u := users[u].(status := target)];
      if !target.UserActive? {
        RevokeAll(u);
      }
      if target.UserActive? && users[u].onboarding == Some(PendingAdminApproval) {
        users := users[u := users[u].(onboarding := Some(RequestApproved))];
      }
      assert users == savedUsers[u := NewStatus(current, target)];
      if f.database {
        users, sessions := savedUsers, savedSessions;
        return Err(DatabaseFailed);
      }
      if !target.UserActive? && current.clerk.Some? && f.ban {
        return Err(ProviderFailed);
      }
      return Ok(true);
    }
  }
}
