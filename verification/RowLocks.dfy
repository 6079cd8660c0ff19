/**
 USER session and device transactions, interleaved statement by statement.

 Every transaction runs under READ COMMITTED: a plain SELECT sees the committed tables overlaid
 with the transaction's own writes, `FOR UPDATE` and UPDATE wait for a row lock and then look at
 the newest committed row, and a transaction's writes reach the tables only when it commits.
 Row locks are kept until the transaction ends.  Raising an error rolls the transaction back, but
 only a transaction that is not waiting for a lock can raise one: nothing here escapes a deadlock
 by giving up.
 */
module RowLocks {
  type TenantId = nat
  type UserId = nat
  type DeviceId = nat
  type SessionId = nat
  type RequestId = nat
  type TxId = nat
  type Time = int

  // ---------------------------------------------------------------------------------------------
  // Tables
  // ---------------------------------------------------------------------------------------------

  /** The (tenant, user) pair that owns a membership, a device or a USER session. */
  datatype Owner = Owner(tenant: TenantId, user: UserId)

  datatype SessionStatus = SessionActive | SessionExpired | SessionRevoked
  datatype DeviceStatus = DevicePending | DeviceActive | DeviceBlocked | DeviceRevoked
  datatype RequestStatus = RequestPending | RequestApproved | RequestRejected | RequestExpired

  datatype Session = Session(owner: Owner, device: DeviceId, status: SessionStatus, expiresAt: Time)
  datatype Device = Device(owner: Owner, status: DeviceStatus)
  datatype Request = Request(owner: Owner, device: DeviceId, status: RequestStatus)

  type Sessions = map<SessionId, Session>

  /** Committed rows.  A membership is mapped to whether its status is ACTIVE. */
  datatype Db = Db(
    memberships: map<Owner, bool>,
    devices: map<DeviceId, Device>,
    requests: map<RequestId, Request>,
    sessions: Sessions)

  /** What one transaction has written and not yet committed. */
  datatype Writes = Writes(
    devices: map<DeviceId, Device>,
    requests: map<RequestId, Request>,
    sessions: Sessions)

  const NO_WRITES := Writes(map[], map[], map[])

  function Install(db: Db, w: Writes): Db {
    db.(devices := db.devices + w.devices,
        requests := db.requests + w.requests,
        sessions := db.sessions + w.sessions)
  }

  // ---------------------------------------------------------------------------------------------
  // Transactions
  // ---------------------------------------------------------------------------------------------

  /** The rows that are ever locked. */
  datatype Row =
    | UserRow(user: UserId)
    | MembershipRow(owner: Owner)
    | DeviceRow(device: DeviceId)
    | RequestRow(request: RequestId)
    | SessionRow(session: SessionId)

  /** One call of a service; `now` is read once per call and `freshId` is its uuid4(). */
  datatype Job =
    | CreateOrReuse(owner: Owner, device: DeviceId, now: Time, freshId: SessionId)
    | Refresh(owner: Owner, session: SessionId, now: Time)
    | Revoke(owner: Owner, session: SessionId)
    | Approve(owner: Owner, device: DeviceId, request: RequestId)
    | SetStatus(user: UserId, revokes: bool)

  /** The statement a transaction executes next. */
  datatype Phase =
    | CreateLockDevice
    | CreateEvaluate
    | CreateExpire(todo: seq<SessionId>)
    | CreateFind
    | CreateReuse(target: SessionId)
    | CreateInsert
    | RefreshObserve
    | RefreshLockDevice(observed: DeviceId)
    | RefreshLockSession(observed: DeviceId)
    | RefreshUpdate(observed: DeviceId)
    | RevokeLock
    | RevokeWrite
    | ApproveLockMembership
    | ApproveLockDevice
    | ApproveCount
    | ApproveLockRequest
    | ApproveWrite
    | StatusLockUser
    | StatusSnapshot
    | StatusRevoke(todo: seq<SessionId>)
    | Ready
    | Done(committed: bool)

  datatype Tx = Tx(job: Job, phase: Phase, writes: Writes, locks: set<Row>)

  function FirstPhase(job: Job): Phase {
    match job
    case CreateOrReuse(_, _, _, _) => CreateLockDevice
    case Refresh(_, _, _) => RefreshObserve
    case Revoke(_, _) => RevokeLock
    case Approve(_, _, _) => ApproveLockMembership
    case SetStatus(_, _) => StatusLockUser
  }

  function Begin(job: Job): Tx {
    Tx(job, FirstPhase(job), NO_WRITES, {})
  }

  /** Commit and rollback both release every lock; only the caller of commit installs the writes. */
  function End(x: Tx, committed: bool): Tx {
    x.(phase := Done(committed), writes := NO_WRITES, locks := {})
  }

  datatype State = State(db: Db, limits: map<TenantId, nat>, txs: map<TxId, Tx>)

  // ---------------------------------------------------------------------------------------------
  // Queries
  // ---------------------------------------------------------------------------------------------

  predicate ActiveOn(m: Sessions, k: SessionId, owner: Owner, device: DeviceId) {
    k in m && m[k].owner == owner && m[k].device == device && m[k].status.SessionActive?
  }

  predicate Stale(m: Sessions, k: SessionId, owner: Owner, device: DeviceId, now: Time) {
    ActiveOn(m, k, owner, device) && m[k].expiresAt <= now
  }

  predicate ActiveOf(m: Sessions, k: SessionId, user: UserId) {
    k in m && m[k].owner.user == user && m[k].status.SessionActive?
  }

  predicate OwnedSession(m: Sessions, k: SessionId, owner: Owner) {
    k in m && m[k].owner == owner
  }

  predicate DeviceIs(db: Db, d: DeviceId, owner: Owner, status: DeviceStatus) {
    d in db.devices && db.devices[d] == Device(owner, status)
  }

  predicate RequestIs(db: Db, r: RequestId, owner: Owner, d: DeviceId, status: RequestStatus) {
    r in db.requests && db.requests[r] == Request(owner, d, status)
  }

  function ActiveDevices(db: Db, owner: Owner): set<DeviceId> {
    set d | d in db.devices && db.devices[d] == Device(owner, DeviceActive)
  }

  function SeenSessions(db: Db, x: Tx): Sessions {
    db.sessions + x.writes.sessions
  }

  function StaleRows(m: Sessions, owner: Owner, device: DeviceId, now: Time): set<SessionId> {
    set k | k in m && Stale(m, k, owner, device, now)
  }

  function ActiveRows(m: Sessions, user: UserId): set<SessionId> {
    set k | k in m && ActiveOf(m, k, user)
  }

  /** Any scan order of the rows an UPDATE selects: each exactly once. */
  ghost predicate ScanOrder(order: seq<SessionId>, selected: set<SessionId>) {
    && (forall i, j :: 0 <= i < |order| && 0 <= j < |order| && order[i] == order[j] ==> i == j)
    && (forall k :: k in order <==> k in selected)
  }

  // ---------------------------------------------------------------------------------------------
  // Steps
  // ---------------------------------------------------------------------------------------------

  /** The row lock the next statement needs; None when it locks nothing or finds no row. */
  function Awaits(db: Db, x: Tx): (r: set<Row>)
  {
    match (x.job, x.phase)
    case (CreateOrReuse(owner, device, _, _), CreateLockDevice) =>
      if device in db.devices && db.devices[device].owner == owner then {DeviceRow(device)} else {}
    case (CreateOrReuse(_, _, _, _), CreateExpire(todo)) =>
      if todo == [] then {} else {SessionRow(todo[0])}
    case (CreateOrReuse(owner, device, _, _), CreateReuse(target)) =>
      if target in db.sessions && db.sessions[target].status.SessionActive? then {SessionRow(target)} else {}
    case (Refresh(owner, _, _), RefreshLockDevice(device)) =>
      if device in db.devices && db.devices[device].owner == owner then {DeviceRow(device)} else {}
    case (Refresh(owner, session, _), RefreshLockSession(_)) =>
      if OwnedSession(db.sessions, session, owner) then {SessionRow(session)} else {}
    case (Revoke(owner, session), RevokeLock) =>
      if OwnedSession(db.sessions, session, owner) then {SessionRow(session)} else {}
    case (Approve(owner, _, _), ApproveLockMembership) =>
      if owner in db.memberships then {MembershipRow(owner)} else {}
    case (Approve(owner, device, _), ApproveLockDevice) =>
      if DeviceIs(db, device, owner, DevicePending) then {DeviceRow(device)} else {}
    case (Approve(owner, device, request), ApproveLockRequest) =>
      if RequestIs(db, request, owner, device, RequestPending) then {RequestRow(request)} else {}
    case (SetStatus(user, _), StatusLockUser) => {UserRow(user)}
    case (SetStatus(_, _), StatusRevoke(todo)) => if todo == [] then {} else {SessionRow(todo[0])}
    case _ => {}
  }

  ghost predicate HeldByOther(s: State, t: TxId, r: Row) {
    exists u :: u != t && u in s.txs && r in s.txs[u].locks
  }

  ghost predicate Blocked(s: State, t: TxId)
    requires t in s.txs
  {
    exists r :: r in Awaits(s.db, s.txs[t]) && HeldByOther(s, t, r)
  }

  /**
   What the surroundings decide in one step: whether the statement raises an error, the scan order
   of an UPDATE, the row LIMIT 1 returns, and the expiry the policy evaluation produced.
   */
  datatype Choice = Choice(fails: bool, order: seq<SessionId>, pick: SessionId, expiry: Time)

  ghost predicate Enabled(s: State, t: TxId, c: Choice) {
    && t in s.txs
    && !s.txs[t].phase.Done?
    && !Blocked(s, t)
    && var x := s.txs[t];
       match (x.job, x.phase)
       case (CreateOrReuse(owner, device, now, _), CreateEvaluate) =>
         ScanOrder(c.order, StaleRows(s.db.sessions, owner, device, now))
       case (SetStatus(user, _), StatusSnapshot) =>
         ScanOrder(c.order, ActiveRows(s.db.sessions, user))
       case (CreateOrReuse(owner, device, _, _), CreateFind) =>
         (exists k :: ActiveOn(SeenSessions(s.db, x), k, owner, device))
           ==> ActiveOn(SeenSessions(s.db, x), c.pick, owner, device)
       case _ => true
  }

  function Lock(x: Tx, r: Row, next: Phase): Tx {
    x.(locks := x.locks + {r}, phase := next)
  }

  function WriteSession(x: Tx, k: SessionId, row: Session): Tx {
    x.(writes := x.writes.(sessions := x.writes.sessions[k := row]))
  }

  /** One statement of x, other than its commit, against the committed tables. */
  function LocalStep(db: Db, limits: map<TenantId, nat>, x: Tx, c: Choice): Tx {
    if c.fails then End(x, false) else
    match x.job
    case CreateOrReuse(owner, device, now, freshId) => CreateStep(db, x, c)
    case Refresh(owner, session, now) => RefreshStep(db, x, c)
    case Revoke(owner, session) => RevokeStep(db, x)
    case Approve(owner, device, request) => ApproveStep(db, limits, x)
    case SetStatus(user, revokes) => StatusStep(db, x, c)
  }

  function CreateStep(db: Db, x: Tx, c: Choice): Tx
    requires x.job.CreateOrReuse?
  {
    var CreateOrReuse(owner, device, now, freshId) := x.job;
    match x.phase
    case CreateLockDevice =>
      if DeviceIs(db, device, owner, DeviceActive) then Lock(x, DeviceRow(device), CreateEvaluate)
      else End(x, false)
    case CreateEvaluate => x.(phase := CreateExpire(c.order))
    case CreateExpire(todo) =>
      if todo == [] then x.(phase := CreateFind)
      else
        var y := Lock(x, SessionRow(todo[0]), CreateExpire(todo[1..]));
        if Stale(db.sessions, todo[0], owner, device, now)
        then WriteSession(y, todo[0], db.sessions[todo[0]].(status := SessionExpired))
        else y
    case CreateFind =>
      if ActiveOn(SeenSessions(db, x), c.pick, owner, device) then x.(phase := CreateReuse(c.pick))
      else x.(phase := CreateInsert)
    case CreateReuse(target) =>
      if target in db.sessions && db.sessions[target].status.SessionActive?
      then WriteSession(Lock(x, SessionRow(target), Ready), target,
                        db.sessions[target].(expiresAt := c.expiry))
      else x.(phase := Ready)
    case CreateInsert =>
      WriteSession(x, freshId, Session(owner, device, SessionActive, c.expiry)).(phase := Ready)
    case _ => End(x, false)
  }

  function RefreshStep(db: Db, x: Tx, c: Choice): Tx
    requires x.job.Refresh?
  {
    var Refresh(owner, session, now) := x.job;
    match x.phase
    case RefreshObserve =>
      if OwnedSession(db.sessions, session, owner) && db.sessions[session].status.SessionActive?
      then x.(phase := RefreshLockDevice(db.sessions[session].device))
      else End(x, false)
    case RefreshLockDevice(device) =>
      if DeviceIs(db, device, owner, DeviceActive) then Lock(x, DeviceRow(device), RefreshLockSession(device))
      else End(x, false)
    case RefreshLockSession(device) =>
      if ActiveOn(db.sessions, session, owner, device) && now < db.sessions[session].expiresAt
      then Lock(x, SessionRow(session), RefreshUpdate(device))
      else End(x, false)
    case RefreshUpdate(_) =>
      if OwnedSession(db.sessions, session, owner) && db.sessions[session].status.SessionActive?
      then WriteSession(x, session, db.sessions[session].(expiresAt := c.expiry)).(phase := Ready)
      else End(x, false)
    case _ => End(x, false)
  }

  function RevokeStep(db: Db, x: Tx): Tx
    requires x.job.Revoke?
  {
    var Revoke(owner, session) := x.job;
    match x.phase
    case RevokeLock =>
      if OwnedSession(db.sessions, session, owner) && db.sessions[session].status.SessionActive?
      then Lock(x, SessionRow(session), RevokeWrite)
      else End(x, false)
    case RevokeWrite =>
      if OwnedSession(db.sessions, session, owner) && db.sessions[session].status.SessionActive?
      then WriteSession(x, session, db.sessions[session].(status := SessionRevoked)).(phase := Ready)
      else End(x, false)
    case _ => End(x, false)
  }

  function ApproveStep(db: Db, limits: map<TenantId, nat>, x: Tx): Tx
    requires x.job.Approve?
  {
    var Approve(owner, device, request) := x.job;
    match x.phase
    case ApproveLockMembership =>
      if owner in db.memberships && db.memberships[owner] && owner.tenant in limits
      then Lock(x, MembershipRow(owner), ApproveLockDevice)
      else End(x, false)
    case ApproveLockDevice =>
      if DeviceIs(db, device, owner, DevicePending) then Lock(x, DeviceRow(device), ApproveCount)
      else End(x, false)
    case ApproveCount =>
      if owner.tenant in limits && |ActiveDevices(db, owner)| < limits[owner.tenant]
      then x.(phase := ApproveLockRequest)
      else End(x, false)
    case ApproveLockRequest =>
      if RequestIs(db, request, owner, device, RequestPending) then Lock(x, RequestRow(request), ApproveWrite)
      else End(x, false)
    case ApproveWrite =>
      if DeviceIs(db, device, owner, DevicePending) && RequestIs(db, request, owner, device, RequestPending)
      then x.(writes := x.writes.(devices := map[device := Device(owner, DeviceActive)],
                                  requests := map[request := Request(owner, device, RequestApproved)]),
              phase := Ready)
      else End(x, false)
    case _ => End(x, false)
  }

  function StatusStep(db: Db, x: Tx, c: Choice): Tx
    requires x.job.SetStatus?
  {
    match x.phase
    case StatusLockUser =>
      Lock(x, UserRow(x.job.user), if x.job.revokes then StatusSnapshot else Ready)
    case StatusSnapshot => x.(phase := StatusRevoke(c.order))
    case StatusRevoke(todo) =>
      if todo == [] then x.(phase := Ready)
      else
        var y := Lock(x, SessionRow(todo[0]), StatusRevoke(todo[1..]));
        if ActiveOf(db.sessions, todo[0], x.job.user)
        then WriteSession(y, todo[0], db.sessions[todo[0]].(status := SessionRevoked))
        else y
    case _ => End(x, false)
  }

  ghost function Next(s: State, t: TxId, c: Choice): State
    requires Enabled(s, t, c)
  {
    var x := s.txs[t];
    if x.phase.Ready? && !c.fails
    then s.(db := Install(s.db, x.writes), txs := s.txs[t := End(x, true)])
    else s.(txs := s.txs[t := LocalStep(s.db, s.limits, x, c)])
  }
}
