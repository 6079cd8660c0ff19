/**
 What every interleaving of the transactions in RowLocks keeps.

 The unique index on ACTIVE USER sessions plays no part here: one ACTIVE session per device follows
 from the device row lock alone, and the device limit from the membership row lock alone.
 */
module RowLocksSafety {
  import opened RowLocks

  // ---------------------------------------------------------------------------------------------
  // The invariant
  // ---------------------------------------------------------------------------------------------

  /** At most one ACTIVE USER session per (tenant, user, device). */
  ghost predicate OneActive(m: Sessions) {
    forall j, k :: j in m && ActiveOn(m, k, m[j].owner, m[j].device) && m[j].status.SessionActive? ==> j == k
  }

  ghost predicate NoneActive(m: Sessions, owner: Owner, device: DeviceId) {
    forall j :: !ActiveOn(m, j, owner, device)
  }

  ghost predicate NoneButActive(m: Sessions, owner: Owner, device: DeviceId, k: SessionId) {
    forall j :: ActiveOn(m, j, owner, device) ==> j == k
  }

  ghost predicate LimitOk(db: Db, limits: map<TenantId, nat>) {
    forall owner: Owner :: owner.tenant in limits ==> |ActiveDevices(db, owner)| <= limits[owner.tenant]
  }

  /** Every pending write to a stored session is to a locked ACTIVE row and moves it nowhere. */
  ghost predicate SessionWritesOk(db: Db, x: Tx) {
    forall k :: k in x.writes.sessions ==>
      if k in db.sessions
      then
        && SessionRow(k) in x.locks
        && db.sessions[k].status.SessionActive?
        && x.writes.sessions[k].owner == db.sessions[k].owner
        && x.writes.sessions[k].device == db.sessions[k].device
      else
        && x.job.CreateOrReuse?
        && x.phase.Ready?
        && k == x.job.freshId
        && DeviceRow(x.job.device) in x.locks
        && x.writes.sessions[k].owner == x.job.owner
        && x.writes.sessions[k].device == x.job.device
        && NoneButActive(SeenSessions(db, x), x.job.owner, x.job.device, k)
  }

  ghost predicate NoWrites(x: Tx) { x.writes == NO_WRITES }

  ghost predicate OnlySessionWrites(x: Tx) { x.writes.devices == map[] && x.writes.requests == map[] }

  ghost predicate NoActiveWrites(x: Tx) {
    forall k :: k in x.writes.sessions ==> !x.writes.sessions[k].status.SessionActive?
  }

  ghost predicate CreateOk(db: Db, x: Tx)
    requires x.job.CreateOrReuse?
  {
    var CreateOrReuse(owner, device, now, freshId) := x.job;
    && OnlySessionWrites(x)
    && match x.phase
       case CreateLockDevice => NoWrites(x) && x.locks == {}
       case CreateEvaluate => NoWrites(x) && x.locks == {DeviceRow(device)}
       case CreateExpire(todo) =>
         && CreateLocks(db, x) && NoActiveWrites(x)
         && (todo != [] ==> |todo| == 1 && x.locks == {DeviceRow(device)}
                            && todo[0] in db.sessions && NoneButActive(db.sessions, owner, device, todo[0]))
       case CreateFind => CreateLocks(db, x) && NoActiveWrites(x)
       case CreateReuse(target) =>
         && CreateLocks(db, x) && NoActiveWrites(x)
         && target in db.sessions && db.sessions[target].owner == owner && db.sessions[target].device == device
         && (forall k :: SessionRow(k) in x.locks ==> k == target)
       case CreateInsert =>
         && CreateLocks(db, x) && NoActiveWrites(x) && NoneActive(SeenSessions(db, x), owner, device)
       case Ready => CreateLocks(db, x)
       case Done(_) => NoWrites(x) && x.locks == {}
       case _ => false
  }

  /** The device row, and perhaps one session row: the only one that can be ACTIVE on the device. */
  ghost predicate CreateLocks(db: Db, x: Tx)
    requires x.job.CreateOrReuse?
  {
    && DeviceRow(x.job.device) in x.locks
    && forall r :: r in x.locks ==>
         || r == DeviceRow(x.job.device)
         || (r.SessionRow? && r.session in db.sessions
             && NoneButActive(db.sessions, x.job.owner, x.job.device, r.session))
  }

  ghost predicate RefreshOk(db: Db, x: Tx)
    requires x.job.Refresh?
  {
    var Refresh(owner, session, now) := x.job;
    && OnlySessionWrites(x)
    && match x.phase
       case RefreshObserve => NoWrites(x) && x.locks == {}
       case RefreshLockDevice(_) => NoWrites(x) && x.locks == {}
       case RefreshLockSession(device) => NoWrites(x) && x.locks == {DeviceRow(device)}
       case RefreshUpdate(device) =>
         && NoWrites(x) && x.locks == {DeviceRow(device), SessionRow(session)}
         && ActiveOn(db.sessions, session, owner, device)
       case Ready =>
         && session in db.sessions
         && ActiveOn(db.sessions, session, owner, db.sessions[session].device)
         && x.locks == {DeviceRow(db.sessions[session].device), SessionRow(session)}
         && x.writes.sessions.Keys == {session}
         && x.writes.sessions[session].status.SessionActive?
       case Done(_) => NoWrites(x) && x.locks == {}
       case _ => false
  }

  ghost predicate RevokeOk(db: Db, x: Tx)
    requires x.job.Revoke?
  {
    var Revoke(owner, session) := x.job;
    && OnlySessionWrites(x)
    && match x.phase
       case RevokeLock => NoWrites(x) && x.locks == {}
       case RevokeWrite => NoWrites(x) && x.locks == {SessionRow(session)} && session in db.sessions
       case Ready => x.locks == {SessionRow(session)} && x.writes.sessions.Keys == {session}
                     && x.writes.sessions[session].status.SessionRevoked?
       case Done(_) => NoWrites(x) && x.locks == {}
       case _ => false
  }

  ghost predicate ApproveOk(db: Db, limits: map<TenantId, nat>, x: Tx)
    requires x.job.Approve?
  {
    var Approve(owner, device, request) := x.job;
    && x.writes.sessions == map[]
    && match x.phase
       case ApproveLockMembership => NoWrites(x) && x.locks == {}
       case ApproveLockDevice => NoWrites(x) && x.locks == {MembershipRow(owner)}
       case ApproveCount =>
         && NoWrites(x) && x.locks == {MembershipRow(owner), DeviceRow(device)}
         && DeviceIs(db, device, owner, DevicePending)
       case ApproveLockRequest =>
         && NoWrites(x) && x.locks == {MembershipRow(owner), DeviceRow(device)}
         && DeviceIs(db, device, owner, DevicePending) && HasRoom(db, limits, owner)
       case ApproveWrite =>
         && NoWrites(x) && x.locks == {MembershipRow(owner), DeviceRow(device), RequestRow(request)}
         && DeviceIs(db, device, owner, DevicePending) && HasRoom(db, limits, owner)
         && RequestIs(db, request, owner, device, RequestPending)
       case Ready =>
         && x.locks == {MembershipRow(owner), DeviceRow(device), RequestRow(request)}
         && DeviceIs(db, device, owner, DevicePending) && HasRoom(db, limits, owner)
         && RequestIs(db, request, owner, device, RequestPending)
         && x.writes.devices == map[device := Device(owner, DeviceActive)]
         && x.writes.requests == map[request := Request(owner, device, RequestApproved)]
       case Done(_) => NoWrites(x) && x.locks == {}
       case _ => false
  }

  ghost predicate HasRoom(db: Db, limits: map<TenantId, nat>, owner: Owner) {
    owner.tenant in limits && |ActiveDevices(db, owner)| < limits[owner.tenant]
  }

  ghost predicate StatusOk(db: Db, x: Tx)
    requires x.job.SetStatus?
  {
    var user := x.job.user;
    && OnlySessionWrites(x)
    && NoActiveWrites(x)
    && match x.phase
       case StatusLockUser => NoWrites(x) && x.locks == {}
       case StatusSnapshot => NoWrites(x) && x.locks == {UserRow(user)}
       case StatusRevoke(todo) =>
         StatusLocks(db, x) && forall k :: k in todo ==> k in db.sessions && db.sessions[k].owner.user == user
       case Ready => StatusLocks(db, x)
       case Done(_) => NoWrites(x) && x.locks == {}
       case _ => false
  }

  ghost predicate StatusLocks(db: Db, x: Tx)
    requires x.job.SetStatus?
  {
    && UserRow(x.job.user) in x.locks
    && forall r :: r in x.locks ==>
         || r == UserRow(x.job.user)
         || (r.SessionRow? && r.session in db.sessions && db.sessions[r.session].owner.user == x.job.user)
  }

  ghost predicate TxOk(db: Db, limits: map<TenantId, nat>, x: Tx) {
    && SessionWritesOk(db, x)
    && match x.job
       case CreateOrReuse(_, _, _, freshId) => CreateOk(db, x) && (!x.phase.Done? ==> freshId !in db.sessions)
       case Refresh(_, _, _) => RefreshOk(db, x)
       case Revoke(_, _) => RevokeOk(db, x)
       case Approve(_, _, _) => ApproveOk(db, limits, x)
       case SetStatus(_, _) => StatusOk(db, x)
  }

  /** Row locks exclude each other. */
  ghost predicate Exclusive(txs: map<TxId, Tx>) {
    forall t, u, r :: t in txs && u in txs && r in txs[t].locks && r in txs[u].locks ==> t == u
  }

  /** uuid4() never repeats a session id. */
  ghost predicate FreshIdsDiffer(txs: map<TxId, Tx>) {
    forall t, u | t in txs && u in txs && txs[t].job.CreateOrReuse? && txs[u].job.CreateOrReuse? ::
      txs[t].job.freshId == txs[u].job.freshId ==> t == u
  }

  ghost predicate Inv(s: State) {
    && OneActive(s.db.sessions)
    && LimitOk(s.db, s.limits)
    && Exclusive(s.txs)
    && FreshIdsDiffer(s.txs)
    && forall t :: t in s.txs ==> TxOk(s.db, s.limits, s.txs[t])
  }

  /** Any number of calls, none of which has executed a statement yet, over tables that respect both limits. */
  ghost predicate Initial(s: State) {
    && OneActive(s.db.sessions)
    && LimitOk(s.db, s.limits)
    && FreshIdsDiffer(s.txs)
    && forall t :: t in s.txs ==>
         && s.txs[t] == Begin(s.txs[t].job)
         && (s.txs[t].job.CreateOrReuse? ==> s.txs[t].job.freshId !in s.db.sessions)
  }

  // ---------------------------------------------------------------------------------------------
  // One statement keeps the transaction's own part of the invariant
  // ---------------------------------------------------------------------------------------------

  lemma StaleIndexIsZero(m: Sessions, order: seq<SessionId>, owner: Owner, device: DeviceId, now: Time, i: nat)
    requires OneActive(m) && ScanOrder(order, StaleRows(m, owner, device, now)) && i < |order|
    ensures i == 0
  {
    assert order[i] in order && order[0] in order;
    assert Stale(m, order[i], owner, device, now);
    assert ActiveOn(m, order[i], m[order[0]].owner, m[order[0]].device);
  }

  /** An UPDATE of the stale sessions of one device selects at most one row. */
  lemma AtMostOneStale(m: Sessions, order: seq<SessionId>, owner: Owner, device: DeviceId, now: Time)
    requires OneActive(m) && ScanOrder(order, StaleRows(m, owner, device, now))
    ensures |order| <= 1
    ensures order != [] ==> order[0] in m && NoneButActive(m, owner, device, order[0])
  {
    if order != [] {
      assert order[0] in order;
      assert Stale(m, order[0], owner, device, now);
    }
    if |order| > 1 { StaleIndexIsZero(m, order, owner, device, now, 1); }
  }

  lemma CreateExpireOk(db: Db, limits: map<TenantId, nat>, x: Tx, c: Choice)
    requires x.job.CreateOrReuse? && TxOk(db, limits, x) && x.phase.CreateExpire?
    ensures TxOk(db, limits, CreateStep(db, x, c))
  {
    var y := CreateStep(db, x, c);
    if x.phase.todo != [] {
      var k := x.phase.todo[0];
      assert SessionRow(k) !in x.locks;
      assert k !in x.writes.sessions;
    }
  }

  lemma CreateFindOk(db: Db, limits: map<TenantId, nat>, x: Tx, c: Choice)
    requires x.job.CreateOrReuse? && TxOk(db, limits, x) && x.phase.CreateFind?
    requires !ActiveOn(SeenSessions(db, x), c.pick, x.job.owner, x.job.device) ==>
               NoneActive(SeenSessions(db, x), x.job.owner, x.job.device)
    ensures TxOk(db, limits, CreateStep(db, x, c))
  {
    if ActiveOn(SeenSessions(db, x), c.pick, x.job.owner, x.job.device) {
      assert c.pick !in x.writes.sessions;
      assert ActiveOn(db.sessions, c.pick, x.job.owner, x.job.device);
    }
  }

  lemma CreateInsertOk(db: Db, limits: map<TenantId, nat>, x: Tx, c: Choice)
    requires x.job.CreateOrReuse? && TxOk(db, limits, x) && x.phase.CreateInsert?
    ensures TxOk(db, limits, CreateStep(db, x, c))
  {
    var CreateOrReuse(owner, device, now, freshId) := x.job;
    var y := CreateStep(db, x, c);
    assert forall j :: j != freshId && ActiveOn(SeenSessions(db, y), j, owner, device) ==>
        ActiveOn(SeenSessions(db, x), j, owner, device);
  }

  /** What the database may answer to the two scans of create_or_reuse. */
  ghost predicate HonestScans(db: Db, x: Tx, c: Choice)
    requires x.job.CreateOrReuse?
  {
    && (x.phase.CreateEvaluate? ==> ScanOrder(c.order, StaleRows(db.sessions, x.job.owner, x.job.device, x.job.now)))
    && (x.phase.CreateFind? && !ActiveOn(SeenSessions(db, x), c.pick, x.job.owner, x.job.device) ==>
          NoneActive(SeenSessions(db, x), x.job.owner, x.job.device))
  }

  lemma CreateStepOk(db: Db, limits: map<TenantId, nat>, x: Tx, c: Choice)
    requires OneActive(db.sessions) && TxOk(db, limits, x) && x.job.CreateOrReuse? && HonestScans(db, x, c)
    requires !x.phase.Ready? && !x.phase.Done?
    ensures TxOk(db, limits, CreateStep(db, x, c))
  {
    hide TxOk, CreateStep, OneActive;
    if x.phase.CreateEvaluate? { CreateEvaluateOk(db, limits, x, c); }
    else if x.phase.CreateExpire? { CreateExpireOk(db, limits, x, c); }
    else if x.phase.CreateFind? { CreateFindOk(db, limits, x, c); }
    else if x.phase.CreateInsert? { CreateInsertOk(db, limits, x, c); }
    else { CreateLockOk(db, limits, x, c); }
  }

  lemma CreateEvaluateOk(db: Db, limits: map<TenantId, nat>, x: Tx, c: Choice)
    requires OneActive(db.sessions) && TxOk(db, limits, x) && x.job.CreateOrReuse? && x.phase.CreateEvaluate?
             && HonestScans(db, x, c)
    ensures TxOk(db, limits, CreateStep(db, x, c))
  {
    AtMostOneStale(db.sessions, c.order, x.job.owner, x.job.device, x.job.now);
  }

  /** Rewriting a locked ACTIVE row where it stands is an allowed pending write. */
  lemma RewriteOk(db: Db, x: Tx, k: SessionId, row: Session, y: Tx)
    requires SessionWritesOk(db, x) && forall j :: j in x.writes.sessions ==> j in db.sessions
    requires k in db.sessions && db.sessions[k].status.SessionActive?
    requires row.owner == db.sessions[k].owner && row.device == db.sessions[k].device
    requires y.writes.sessions == x.writes.sessions[k := row] && x.locks <= y.locks && SessionRow(k) in y.locks
    ensures SessionWritesOk(db, y)
  {
    hide NoneButActive;
  }

  /** Before its last statement a call has written stored rows only. */
  lemma WritesAreStored(db: Db, limits: map<TenantId, nat>, x: Tx)
    requires TxOk(db, limits, x) && !x.phase.Ready?
    ensures forall j :: j in x.writes.sessions ==> j in db.sessions
  {
    hide NoneButActive;
  }

  lemma CreateLockDeviceOk(db: Db, limits: map<TenantId, nat>, x: Tx, c: Choice)
    requires x.job.CreateOrReuse? && TxOk(db, limits, x) && x.phase.CreateLockDevice?
    ensures TxOk(db, limits, CreateStep(db, x, c))
  {
    hide NoneButActive, NoneActive, SeenSessions;
  }

  lemma CreateReuseOk(db: Db, limits: map<TenantId, nat>, x: Tx, c: Choice)
    requires OneActive(db.sessions) && x.job.CreateOrReuse? && TxOk(db, limits, x) && x.phase.CreateReuse?
    ensures TxOk(db, limits, CreateStep(db, x, c))
  {
    var k, y := x.phase.target, CreateStep(db, x, c);
    WritesAreStored(db, limits, x);
    if db.sessions[k].status.SessionActive? {
      assert NoneButActive(db.sessions, x.job.owner, x.job.device, k) by {
        assert ActiveOn(db.sessions, k, x.job.owner, x.job.device);
      }
      assert y.locks == x.locks + {SessionRow(k)} && y.phase.Ready? && OnlySessionWrites(y);
      hide NoneButActive;
      RewriteOk(db, x, k, db.sessions[k].(expiresAt := c.expiry), y);
      assert CreateLocks(db, y);
    } else {
      hide NoneButActive;
    }
  }

  lemma CreateLockOk(db: Db, limits: map<TenantId, nat>, x: Tx, c: Choice)
    requires OneActive(db.sessions)
    requires x.job.CreateOrReuse? && TxOk(db, limits, x) && !x.phase.Ready? && !x.phase.Done?
    requires !x.phase.CreateEvaluate? && !x.phase.CreateExpire? && !x.phase.CreateFind? && !x.phase.CreateInsert?
    ensures TxOk(db, limits, CreateStep(db, x, c))
  {
    assert CreateOk(db, x);
    if x.phase.CreateLockDevice? {
      CreateLockDeviceOk(db, limits, x, c);
    } else {
      CreateReuseOk(db, limits, x, c);
    }
    hide TxOk, CreateStep, OneActive, NoneButActive, NoneActive;
  }

  lemma RefreshLocksOk(db: Db, limits: map<TenantId, nat>, x: Tx, c: Choice)
    requires x.job.Refresh? && TxOk(db, limits, x) && !x.phase.Ready? && !x.phase.Done? && !x.phase.RefreshUpdate?
    ensures TxOk(db, limits, RefreshStep(db, x, c))
  {
    assert x.writes.sessions == map[];
    hide NoneButActive, SeenSessions;
  }

  lemma RefreshUpdateOk(db: Db, limits: map<TenantId, nat>, x: Tx, c: Choice)
    requires x.job.Refresh? && TxOk(db, limits, x) && x.phase.RefreshUpdate?
    ensures TxOk(db, limits, RefreshStep(db, x, c))
  {
    var k, y := x.job.session, RefreshStep(db, x, c);
    WritesAreStored(db, limits, x);
    hide NoneButActive, SeenSessions;
    RewriteOk(db, x, k, db.sessions[k].(expiresAt := c.expiry), y);
  }

  lemma RefreshStepOk(db: Db, limits: map<TenantId, nat>, x: Tx, c: Choice)
    requires x.job.Refresh? && TxOk(db, limits, x) && !x.phase.Ready? && !x.phase.Done?
    ensures TxOk(db, limits, RefreshStep(db, x, c))
  {
    hide TxOk, RefreshStep;
    if x.phase.RefreshUpdate? {
      RefreshUpdateOk(db, limits, x, c);
    } else {
      RefreshLocksOk(db, limits, x, c);
    }
  }

  lemma RevokeWriteOk(db: Db, limits: map<TenantId, nat>, x: Tx)
    requires x.job.Revoke? && TxOk(db, limits, x) && x.phase.RevokeWrite?
    ensures TxOk(db, limits, RevokeStep(db, x))
  {
    var k, y := x.job.session, RevokeStep(db, x);
    WritesAreStored(db, limits, x);
    hide NoneButActive, SeenSessions;
    if OwnedSession(db.sessions, k, x.job.owner) && db.sessions[k].status.SessionActive? {
      RewriteOk(db, x, k, db.sessions[k].(status := SessionRevoked), y);
    }
  }

  lemma RevokeStepOk(db: Db, limits: map<TenantId, nat>, x: Tx)
    requires x.job.Revoke? && TxOk(db, limits, x) && !x.phase.Ready? && !x.phase.Done?
    ensures TxOk(db, limits, RevokeStep(db, x))
  {
    if x.phase.RevokeWrite? {
      RevokeWriteOk(db, limits, x);
      hide TxOk, RevokeStep;
    } else {
      assert x.writes.sessions == map[];
      hide NoneButActive, SeenSessions;
    }
  }

  lemma ApproveStepOk(db: Db, limits: map<TenantId, nat>, x: Tx)
    requires x.job.Approve? && TxOk(db, limits, x) && !x.phase.Ready? && !x.phase.Done?
    ensures TxOk(db, limits, ApproveStep(db, limits, x))
  {
    hide ActiveDevices;
  }

  lemma StatusStepOk(db: Db, limits: map<TenantId, nat>, x: Tx, c: Choice)
    requires x.job.SetStatus? && TxOk(db, limits, x) && !x.phase.Ready? && !x.phase.Done?
    requires x.phase.StatusSnapshot? ==> ScanOrder(c.order, ActiveRows(db.sessions, x.job.user))
    ensures TxOk(db, limits, StatusStep(db, x, c))
  {
    if x.phase.StatusRevoke? {
      StatusRevokeOk(db, limits, x, c);
      hide TxOk, StatusStep;
    } else {
      if x.phase.StatusSnapshot? {
        forall k | k in c.order ensures ActiveOf(db.sessions, k, x.job.user) {}
      }
      hide NoneButActive, SeenSessions;
    }
  }

  lemma StatusRevokeOk(db: Db, limits: map<TenantId, nat>, x: Tx, c: Choice)
    requires x.job.SetStatus? && TxOk(db, limits, x) && x.phase.StatusRevoke?
    ensures TxOk(db, limits, StatusStep(db, x, c))
  {
    WritesAreStored(db, limits, x);
    hide NoneButActive, SeenSessions;
    if x.phase.todo != [] {
      var k, y := x.phase.todo[0], StatusStep(db, x, c);
      assert k in x.phase.todo;
      if ActiveOf(db.sessions, k, x.job.user) {
        RewriteOk(db, x, k, db.sessions[k].(status := SessionRevoked), y);
      }
      assert forall j :: j in x.phase.todo[1..] ==> j in x.phase.todo;
    }
  }

  lemma EndOk(db: Db, limits: map<TenantId, nat>, x: Tx, committed: bool)
    ensures TxOk(db, limits, End(x, committed))
  {
  }

  lemma LocalScans(s: State, t: TxId, c: Choice)
    requires Enabled(s, t, c)
    ensures s.txs[t].job.CreateOrReuse? ==> HonestScans(s.db, s.txs[t], c)
    ensures s.txs[t].job.SetStatus? && s.txs[t].phase.StatusSnapshot? ==>
              ScanOrder(c.order, ActiveRows(s.db.sessions, s.txs[t].job.user))
  {
    hide ScanOrder, Blocked;
  }

  lemma LocalStepOk(s: State, t: TxId, c: Choice)
    requires Inv(s) && Enabled(s, t, c)
    requires !(s.txs[t].phase.Ready? && !c.fails)
    ensures TxOk(s.db, s.limits, LocalStep(s.db, s.limits, s.txs[t], c))
  {
    var db, limits, x := s.db, s.limits, s.txs[t];
    assert TxOk(db, limits, x);
    EndOk(db, limits, x, false);
    LocalScans(s, t, c);
    hide TxOk, CreateStep, RefreshStep, RevokeStep, ApproveStep, StatusStep, LimitOk, Exclusive, FreshIdsDiffer,
        Enabled;
    if !c.fails {
      match x.job
      case CreateOrReuse(_, _, _, _) => CreateStepOk(db, limits, x, c);
      case Refresh(_, _, _) => RefreshStepOk(db, limits, x, c);
      case Revoke(_, _) => RevokeStepOk(db, limits, x);
      case Approve(_, _, _) => ApproveStepOk(db, limits, x);
      case SetStatus(_, _) => StatusStepOk(db, limits, x, c);
    }
  }

  // ---------------------------------------------------------------------------------------------
  // A commit does not disturb the other transactions
  // ---------------------------------------------------------------------------------------------

  /** How the tables may change under a transaction x that commits nothing itself. */
  ghost predicate Shift(db: Db, db': Db, x: Tx) {
    // stored sessions stay, stay on their device, and are final once they are not ACTIVE
    && (forall k :: k in db.sessions ==>
          && k in db'.sessions
          && db'.sessions[k].owner == db.sessions[k].owner
          && db'.sessions[k].device == db.sessions[k].device
          && (!db.sessions[k].status.SessionActive? || SessionRow(k) in x.locks ==> db'.sessions[k] == db.sessions[k]))
    // new sessions are on devices x has not locked
    && (forall k :: k in db'.sessions && k !in db.sessions ==>
          && DeviceRow(db'.sessions[k].device) !in x.locks
          && (x.job.CreateOrReuse? ==> k != x.job.freshId))
    && (forall d :: DeviceRow(d) in x.locks && d in db.devices ==> d in db'.devices && db'.devices[d] == db.devices[d])
    && (forall r :: RequestRow(r) in x.locks && r in db.requests ==>
       r in db'.requests && db'.requests[r] == db.requests[r])
    && (forall owner :: MembershipRow(owner) in x.locks ==> ActiveDevices(db', owner) == ActiveDevices(db, owner))
  }

  lemma ShiftKeepsNoneBut(db: Db, db': Db, x: Tx, owner: Owner, device: DeviceId, k: SessionId)
    requires Shift(db, db', x) && DeviceRow(device) in x.locks
    requires NoneButActive(db.sessions, owner, device, k)
    ensures NoneButActive(db'.sessions, owner, device, k)
  {
    assert forall j :: ActiveOn(db'.sessions, j, owner, device) ==> ActiveOn(db.sessions, j, owner, device);
  }

  lemma ShiftKeepsSeen(db: Db, db': Db, x: Tx, owner: Owner, device: DeviceId)
    requires Shift(db, db', x) && DeviceRow(device) in x.locks && SessionWritesOk(db, x)
    ensures forall j :: ActiveOn(SeenSessions(db', x), j, owner, device) ==>
              ActiveOn(SeenSessions(db, x), j, owner, device)
  {
  }

  lemma ShiftKeepsSessionWrites(db: Db, db': Db, x: Tx)
    requires Shift(db, db', x) && SessionWritesOk(db, x)
    ensures SessionWritesOk(db', x)
  {
    forall k | k in x.writes.sessions && k !in db'.sessions
      ensures NoneButActive(SeenSessions(db', x), x.job.owner, x.job.device, k)
    {
      ShiftKeepsSeen(db, db', x, x.job.owner, x.job.device);
    }
  }

  lemma ShiftKeepsCreateOk(db: Db, db': Db, x: Tx)
    requires Shift(db, db', x) && x.job.CreateOrReuse? && SessionWritesOk(db, x) && CreateOk(db, x)
    ensures CreateOk(db', x)
  {
    var CreateOrReuse(owner, device, now, freshId) := x.job;
    if DeviceRow(device) in x.locks {
      ShiftKeepsSeen(db, db', x, owner, device);
      forall k | NoneButActive(db.sessions, owner, device, k) ensures NoneButActive(db'.sessions, owner, device, k) {
        ShiftKeepsNoneBut(db, db', x, owner, device, k);
      }
    }
  }

  lemma ShiftKeepsRefreshOk(db: Db, db': Db, x: Tx)
    requires Shift(db, db', x) && x.job.Refresh? && RefreshOk(db, x)
    ensures RefreshOk(db', x)
  {
    hide ActiveDevices;
  }

  lemma ShiftKeepsRevokeOk(db: Db, db': Db, x: Tx)
    requires Shift(db, db', x) && x.job.Revoke? && RevokeOk(db, x)
    ensures RevokeOk(db', x)
  {
    hide ActiveDevices;
  }

  lemma ShiftKeepsApproveOk(db: Db, db': Db, limits: map<TenantId, nat>, x: Tx)
    requires Shift(db, db', x) && x.job.Approve? && ApproveOk(db, limits, x)
    ensures ApproveOk(db', limits, x)
  {
    hide ActiveDevices;
    assert x.locks != {} && !x.phase.Done? ==> MembershipRow(x.job.owner) in x.locks;
  }

  lemma ShiftKeepsStatusOk(db: Db, db': Db, x: Tx)
    requires Shift(db, db', x) && x.job.SetStatus? && StatusOk(db, x)
    ensures StatusOk(db', x)
  {
    hide ActiveDevices;
  }

  lemma ShiftKeepsTxOk(db: Db, db': Db, limits: map<TenantId, nat>, x: Tx)
    requires Shift(db, db', x) && TxOk(db, limits, x)
    ensures TxOk(db', limits, x)
  {
    ShiftKeepsSessionWrites(db, db', x);
    match x.job
    case CreateOrReuse(_, _, _, _) => ShiftKeepsCreateOk(db, db', x);
    case Refresh(_, _, _) => ShiftKeepsRefreshOk(db, db', x);
    case Revoke(_, _) => ShiftKeepsRevokeOk(db, db', x);
    case Approve(_, _, _) => ShiftKeepsApproveOk(db, db', limits, x);
    case SetStatus(_, _) => ShiftKeepsStatusOk(db, db', x);
    hide SessionWritesOk, CreateOk, RefreshOk, RevokeOk, ApproveOk, StatusOk;
  }

  /** The only ACTIVE device a commit can add belongs to the owner whose membership row it has locked. */
  lemma CommitDevices(db: Db, limits: map<TenantId, nat>, x: Tx, owner: Owner)
    requires TxOk(db, limits, x) && x.phase.Ready?
    ensures MembershipRow(owner) !in x.locks ==> ActiveDevices(Install(db, x.writes), owner) == ActiveDevices(db, owner)
    ensures MembershipRow(owner) in x.locks ==>
              && x.job.Approve? && x.job.owner == owner
              && ActiveDevices(Install(db, x.writes), owner) == ActiveDevices(db, owner) + {x.job.device}
  {
    if x.job.Approve? {
      ApprovalDevices(db, limits, x, owner);
    } else {
      OthersWriteSessions(db, limits, x);
      hide TxOk;
    }
  }

  /** Only an approval writes devices and requests or locks a membership row. */
  lemma OthersWriteSessions(db: Db, limits: map<TenantId, nat>, x: Tx)
    requires TxOk(db, limits, x) && !x.job.Approve?
    ensures OnlySessionWrites(x)
    ensures Install(db, x.writes).devices == db.devices && Install(db, x.writes).requests == db.requests
    ensures forall r :: r in x.locks ==> !r.MembershipRow? && !r.RequestRow?
  {
    assert OnlySessionWrites(x);
    hide SessionWritesOk, NoneButActive, NoneActive, ActiveDevices;
    match x.job
    case CreateOrReuse(_, _, _, _) => assert CreateOk(db, x);
    case Refresh(_, _, _) => assert RefreshOk(db, x);
    case Revoke(_, _) => assert RevokeOk(db, x);
    case SetStatus(_, _) => assert StatusOk(db, x);
  }

  lemma ApprovalDevices(db: Db, limits: map<TenantId, nat>, x: Tx, owner: Owner)
    requires x.job.Approve? && ApproveOk(db, limits, x) && x.phase.Ready?
    ensures MembershipRow(owner) in x.locks <==> x.job.owner == owner
    ensures ActiveDevices(Install(db, x.writes), owner) == ActiveDevices(db, owner) + if x.job.owner == owner
            then {x.job.device} else {}
  {
    var db', device := Install(db, x.writes), x.job.device;
    assert forall d :: d in db'.devices && d != device ==> d in db.devices && db'.devices[d] == db.devices[d];
    assert db'.devices[device] == Device(x.job.owner, DeviceActive);
  }

  /** Stored sessions stay where they are, and change only under the committer's own locks. */
  lemma CommitKeepsStored(s: State, t: TxId, u: TxId, k: SessionId)
    requires Exclusive(s.txs) && t in s.txs && u in s.txs && t != u && SessionWritesOk(s.db, s.txs[t])
    requires k in s.db.sessions
    ensures var db' := Install(s.db, s.txs[t].writes);
            && k in db'.sessions
            && db'.sessions[k].owner == s.db.sessions[k].owner
            && db'.sessions[k].device == s.db.sessions[k].device
            && (!s.db.sessions[k].status.SessionActive? || SessionRow(k) in s.txs[u].locks ==>
                  db'.sessions[k] == s.db.sessions[k])
  {
    hide NoneButActive, SeenSessions;
  }

  /** A new session is the committer's own, on the device it has locked. */
  lemma CommitAddsOwn(s: State, t: TxId, u: TxId, k: SessionId)
    requires t in s.txs && u in s.txs && t != u
    requires Exclusive(s.txs) && FreshIdsDiffer(s.txs) && SessionWritesOk(s.db, s.txs[t])
    requires k in s.txs[t].writes.sessions && k !in s.db.sessions
    ensures DeviceRow(s.txs[t].writes.sessions[k].device) !in s.txs[u].locks
    ensures s.txs[u].job.CreateOrReuse? ==> k != s.txs[u].job.freshId
  {
    hide NoneButActive, SeenSessions;
  }

  /** Devices and requests change only under the committer's own locks. */
  lemma CommitKeepsLocked(s: State, t: TxId, u: TxId)
    requires Exclusive(s.txs) && t in s.txs && u in s.txs && t != u
    requires TxOk(s.db, s.limits, s.txs[t]) && s.txs[t].phase.Ready?
    ensures var db' := Install(s.db, s.txs[t].writes);
            && (forall d :: DeviceRow(d) in s.txs[u].locks && d in s.db.devices ==>
                  d in db'.devices && db'.devices[d] == s.db.devices[d])
            && (forall r :: RequestRow(r) in s.txs[u].locks && r in s.db.requests ==>
                  r in db'.requests && db'.requests[r] == s.db.requests[r])
  {
    var x := s.txs[t];
    if x.job.Approve? {
      assert DeviceRow(x.job.device) in x.locks && RequestRow(x.job.request) in x.locks;
      CommittedRows(s.db, s.limits, x);
      hide TxOk;
    } else {
      OthersWriteSessions(s.db, s.limits, x);
      hide TxOk;
    }
  }

  lemma CommitShifts(s: State, t: TxId, u: TxId)
    requires Inv(s) && t in s.txs && u in s.txs && t != u && s.txs[t].phase.Ready?
    ensures Shift(s.db, Install(s.db, s.txs[t].writes), s.txs[u])
  {
    var x, y := s.txs[t], s.txs[u];
    var db' := Install(s.db, x.writes);
    assert TxOk(s.db, s.limits, x) && SessionWritesOk(s.db, x);
    CommitKeepsLocked(s, t, u);
    hide TxOk, SessionWritesOk, Exclusive, FreshIdsDiffer, OneActive, LimitOk, ActiveDevices;
    forall k | k in s.db.sessions
      ensures k in db'.sessions
      ensures db'.sessions[k].owner == s.db.sessions[k].owner && db'.sessions[k].device == s.db.sessions[k].device
      ensures !s.db.sessions[k].status.SessionActive? || SessionRow(k) in y.locks ==>
                db'.sessions[k] == s.db.sessions[k]
    {
      CommitKeepsStored(s, t, u, k);
    }
    forall k | k in db'.sessions && k !in s.db.sessions
      ensures DeviceRow(db'.sessions[k].device) !in y.locks && (y.job.CreateOrReuse? ==> k != y.job.freshId)
    {
      CommitAddsOwn(s, t, u, k);
    }
    forall owner | MembershipRow(owner) in y.locks
      ensures ActiveDevices(db', owner) == ActiveDevices(s.db, owner)
    {
      MembershipIsMine(s, t, u, owner);
      CommitDevices(s.db, s.limits, x, owner);
    }
  }

  lemma MembershipIsMine(s: State, t: TxId, u: TxId, owner: Owner)
    requires Exclusive(s.txs) && t in s.txs && u in s.txs && t != u && MembershipRow(owner) in s.txs[u].locks
    ensures MembershipRow(owner) !in s.txs[t].locks
  {}

  lemma CommitKeepsOneActive(db: Db, limits: map<TenantId, nat>, x: Tx)
    requires OneActive(db.sessions) && TxOk(db, limits, x)
    ensures OneActive(Install(db, x.writes).sessions)
  {
    var m' := SeenSessions(db, x);
    forall j, k | j in m' && ActiveOn(m', k, m'[j].owner, m'[j].device) && m'[j].status.SessionActive?
      ensures j == k
    {
      if j in db.sessions && k in db.sessions {
        assert ActiveOn(db.sessions, k, db.sessions[j].owner, db.sessions[j].device);
      } else {
        assert ActiveOn(m', j, m'[j].owner, m'[j].device);
      }
    }
  }

  lemma CommitKeepsLimit(db: Db, limits: map<TenantId, nat>, x: Tx)
    requires LimitOk(db, limits) && TxOk(db, limits, x) && x.phase.Ready?
    ensures LimitOk(Install(db, x.writes), limits)
  {
    forall owner: Owner | owner.tenant in limits
      ensures |ActiveDevices(Install(db, x.writes), owner)| <= limits[owner.tenant]
    {
      CommitDevices(db, limits, x, owner);
    }
  }

  // ---------------------------------------------------------------------------------------------
  // Every step keeps the invariant
  // ---------------------------------------------------------------------------------------------

  lemma LocalStepLocks(s: State, t: TxId, c: Choice)
    requires Enabled(s, t, c) && !(s.txs[t].phase.Ready? && !c.fails)
    ensures LocalStep(s.db, s.limits, s.txs[t], c).locks <= s.txs[t].locks + Awaits(s.db, s.txs[t])
    ensures LocalStep(s.db, s.limits, s.txs[t], c).job == s.txs[t].job
  {
  }

  lemma EndReleases(txs: map<TxId, Tx>, t: TxId)
    requires Exclusive(txs) && FreshIdsDiffer(txs) && t in txs
    ensures Exclusive(txs[t := End(txs[t], true)]) && FreshIdsDiffer(txs[t := End(txs[t], true)])
  {}

  lemma CommitKeepsInv(s: State, t: TxId, c: Choice)
    requires Inv(s) && Enabled(s, t, c) && s.txs[t].phase.Ready? && !c.fails
    ensures Inv(Next(s, t, c))
  {
    var x := s.txs[t];
    var s' := Next(s, t, c);
    assert TxOk(s.db, s.limits, x);
    assert s'.db.sessions == SeenSessions(s.db, x);
    CommitKeepsOneActive(s.db, s.limits, x);
    CommitKeepsLimit(s.db, s.limits, x);
    EndReleases(s.txs, t);
    hide TxOk, Shift, Exclusive, FreshIdsDiffer, OneActive, LimitOk, Enabled, Install;
    forall u | u in s'.txs ensures TxOk(s'.db, s'.limits, s'.txs[u]) {
      if u != t {
        CommitShifts(s, t, u);
        ShiftKeepsTxOk(s.db, s'.db, s.limits, s.txs[u]);
      } else {
        EndOk(s'.db, s.limits, x, true);
      }
    }
  }

  lemma StepKeepsExclusive(s: State, t: TxId, x': Tx)
    requires Exclusive(s.txs) && t in s.txs && !Blocked(s, t)
    requires x'.locks <= s.txs[t].locks + Awaits(s.db, s.txs[t])
    ensures Exclusive(s.txs[t := x'])
  {
    forall u, r | u in s.txs && u != t && r in s.txs[u].locks ensures r !in x'.locks {
      assert HeldByOther(s, t, r);
    }
  }

  lemma StepKeepsInv(s: State, t: TxId, c: Choice)
    requires Inv(s) && Enabled(s, t, c)
    ensures Inv(Next(s, t, c))
  {
    if s.txs[t].phase.Ready? && !c.fails {
      CommitKeepsInv(s, t, c);
    } else {
      LocalStepOk(s, t, c);
      LocalStepLocks(s, t, c);
      StepKeepsExclusive(s, t, LocalStep(s.db, s.limits, s.txs[t], c));
    }
  }

  // ---------------------------------------------------------------------------------------------
  // Runs
  // ---------------------------------------------------------------------------------------------

  /** Some transaction executes one statement. */
  ghost predicate Step(s: State, s': State) {
    exists t, c :: Enabled(s, t, c) && s' == Next(s, t, c)
  }

  ghost predicate Run(run: seq<State>) {
    && run != []
    && Initial(run[0])
    && forall i :: 0 < i < |run| ==> Step(run[i - 1], run[i])
  }

  lemma InitialInv(s: State)
    requires Initial(s)
    ensures Inv(s)
  {
  }

  lemma StepRelationKeepsInv(s: State, s': State)
    requires Inv(s) && Step(s, s')
    ensures Inv(s') && s'.limits == s.limits
  {
    var t, c :| Enabled(s, t, c) && s' == Next(s, t, c);
    StepKeepsInv(s, t, c);
  }

  lemma {:induction false} RunKeepsInv(run: seq<State>, i: nat)
    requires Run(run) && i < |run|
    ensures Inv(run[i]) && run[i].limits == run[0].limits
  {
    if i == 0 {
      InitialInv(run[0]);
    } else {
      RunKeepsInv(run, i - 1);
      StepRelationKeepsInv(run[i - 1], run[i]);
    }
  }

  /** The two numeric promises of the lifecycle, at every moment of every interleaving. */
  lemma EveryRunIsSafe(run: seq<State>, i: nat)
    requires Run(run) && i < |run|
    ensures OneActive(run[i].db.sessions)
    ensures LimitOk(run[i].db, run[i].limits) && run[i].limits == run[0].limits
  {
    RunKeepsInv(run, i);
  }

  /** What one step may do to the session table. */
  lemma StepKeepsFinalSessions(s: State, s': State, k: SessionId)
    requires Inv(s) && Step(s, s') && k in s.db.sessions && !s.db.sessions[k].status.SessionActive?
    ensures k in s'.db.sessions && s'.db.sessions[k] == s.db.sessions[k]
  {
    var t, c :| Enabled(s, t, c) && s' == Next(s, t, c);
    assert TxOk(s.db, s.limits, s.txs[t]);
    assert k !in s.txs[t].writes.sessions;
  }

  lemma FinalSessionStays(run: seq<State>, j: nat, k: SessionId)
    requires Run(run) && 0 < j < |run|
    requires k in run[j - 1].db.sessions && !run[j - 1].db.sessions[k].status.SessionActive?
    ensures k in run[j].db.sessions && run[j].db.sessions[k] == run[j - 1].db.sessions[k]
  {
    hide Inv, Step;
    RunKeepsInv(run, j - 1);
    StepKeepsFinalSessions(run[j - 1], run[j], k);
  }

  /** A REVOKED or EXPIRED session never becomes ACTIVE again, nor changes in any other way. */
  lemma {:induction false} FinalSessionsStay(run: seq<State>, i: nat, j: nat, k: SessionId)
    requires Run(run) && i <= j < |run|
    requires k in run[i].db.sessions && !run[i].db.sessions[k].status.SessionActive?
    ensures k in run[j].db.sessions && run[j].db.sessions[k] == run[i].db.sessions[k]
  {
    if i < j {
      FinalSessionsStay(run, i, j - 1, k);
      FinalSessionStays(run, j, k);
    }
  }

  /** A refresh that commits does so while its session is ACTIVE, and leaves it ACTIVE. */
  lemma RefreshCommitsAnActiveSession(s: State, t: TxId, c: Choice)
    requires Inv(s) && Enabled(s, t, c)
    requires s.txs[t].job.Refresh? && s.txs[t].phase.Ready? && !c.fails
    ensures var k := s.txs[t].job.session;
            && k in s.db.sessions && s.db.sessions[k].status.SessionActive?
            && k in Next(s, t, c).db.sessions && Next(s, t, c).db.sessions[k].status.SessionActive?
            && Next(s, t, c).db.sessions[k].owner == s.txs[t].job.owner
  {
    assert TxOk(s.db, s.limits, s.txs[t]);
  }

  /** Device d turns ACTIVE in this step. */
  ghost predicate Activates(s: State, s': State, d: DeviceId) {
    d in s'.db.devices && s'.db.devices[d].status.DeviceActive?
    && !(d in s.db.devices && s.db.devices[d] == s'.db.devices[d])
  }

  /** Request r turns APPROVED in this step. */
  ghost predicate Approves(s: State, s': State, r: RequestId) {
    r in s'.db.requests && s'.db.requests[r].status.RequestApproved?
    && !(r in s.db.requests && s.db.requests[r] == s'.db.requests[r])
  }

  /**
   A device turns ACTIVE and its enrolment request turns APPROVED in one and the same step, the
   commit of an approval, from PENDING each; no other step touches a device or a request.
   */
  lemma ApprovalIsAtomic(s: State, t: TxId, c: Choice)
    requires Inv(s) && Enabled(s, t, c)
    ensures var s', x := Next(s, t, c), s.txs[t];
            if x.job.Approve? && x.phase.Ready? && !c.fails
            then
              var Approve(owner, device, request) := x.job;
              && DeviceIs(s.db, device, owner, DevicePending) && DeviceIs(s'.db, device, owner, DeviceActive)
              && RequestIs(s.db, request, owner, device, RequestPending)
              && RequestIs(s'.db, request, owner, device, RequestApproved)
              && (forall d :: Activates(s, s', d) <==> d == device)
              && (forall r :: Approves(s, s', r) <==> r == request)
            else s'.db.devices == s.db.devices && s'.db.requests == s.db.requests
  {
    var x := s.txs[t];
    assert TxOk(s.db, s.limits, x);
    if x.phase.Ready? && !c.fails {
      CommittedRows(s.db, s.limits, x);
    }
    hide TxOk, Inv, LocalStep;
  }

  lemma CommittedRows(db: Db, limits: map<TenantId, nat>, x: Tx)
    requires TxOk(db, limits, x) && x.phase.Ready?
    ensures if x.job.Approve? then
              && DeviceIs(db, x.job.device, x.job.owner, DevicePending)
                 && RequestIs(db, x.job.request, x.job.owner, x.job.device, RequestPending)
              && x.writes.devices == map[x.job.device := Device(x.job.owner, DeviceActive)]
              && x.writes.requests == map[x.job.request := Request(x.job.owner, x.job.device, RequestApproved)]
            else Install(db, x.writes).devices == db.devices && Install(db, x.writes).requests == db.requests
  {
    if x.job.Approve? {
      assert ApproveOk(db, limits, x);
      hide HasRoom, SessionWritesOk, ActiveDevices;
    } else {
      OthersWriteSessions(db, limits, x);
      hide TxOk;
    }
  }
}
