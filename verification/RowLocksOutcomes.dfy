/**
 What the transactions of RowLocks have achieved when they commit, in any interleaving, and where two of them
 achieve less than their caller is told.
 */
module RowLocksOutcomes {
  import opened RowLocks
  import opened RowLocksSafety

  /** Transaction `tx` takes its next step under these choices. */
  datatype Move = Move(tx: TxId, choice: Choice)

  ghost predicate Leads(s: State, m: Move, s': State) {
    Enabled(s, m.tx, m.choice) && s' == Next(s, m.tx, m.choice)
  }

  /** A run that keeps its choices. */
  ghost predicate Trace(run: seq<State>, moves: seq<Move>) {
    && |run| == |moves| + 1
    && Initial(run[0])
    && forall i :: 0 <= i < |moves| ==> Leads(run[i], moves[i], run[i + 1])
  }

  lemma TraceIsRun(run: seq<State>, moves: seq<Move>, i: nat)
    requires Trace(run, moves) && i < |run|
    ensures Run(run) && Inv(run[i])
  {
    hide Initial, Enabled, Next, Inv;
    forall j | 0 < j < |run| ensures Step(run[j - 1], run[j]) {
      assert Leads(run[j - 1], moves[j - 1], run[j]);
    }
    RunKeepsInv(run, i);
  }

  lemma OthersStay(s: State, t: TxId, c: Choice, u: TxId)
    requires Enabled(s, t, c) && u in s.txs && u != t
    ensures u in Next(s, t, c).txs && Next(s, t, c).txs[u] == s.txs[u]
  {
    hide LocalStep, Blocked;
  }

  lemma JobStays(s: State, t: TxId, c: Choice)
    requires Enabled(s, t, c)
    ensures t in Next(s, t, c).txs && Next(s, t, c).txs[t].job == s.txs[t].job
  {
    hide Blocked, DeviceIs, RequestIs, ActiveDevices, Stale, ActiveOf, ActiveOn, OwnedSession;
  }

  // ---------------------------------------------------------------------------------------------
  // A session runs on an ACTIVE device
  // ---------------------------------------------------------------------------------------------

  function DeviceOf(m: Sessions, k: SessionId): DeviceId { if k in m then m[k].device else 0 }

  /** The caller's session, unexpired when its refresh looked. */
  predicate Refreshable(m: Sessions, k: SessionId, owner: Owner, now: Time) {
    k in m && m[k].owner == owner && now < m[k].expiresAt
  }

  /** What the checks of a transaction have established about its device and its session. */
  ghost predicate Rightful(db: Db, x: Tx) {
    match x.job
    case CreateOrReuse(owner, device, _, _) =>
      x.phase.CreateLockDevice? || x.phase.Done? || DeviceIs(db, device, owner, DeviceActive)
    case Refresh(owner, session, now) =>
      (match x.phase
       case RefreshLockSession(device) => DeviceIs(db, device, owner, DeviceActive)
       case RefreshUpdate(device) =>
         DeviceIs(db, device, owner, DeviceActive) && Refreshable(db.sessions, session, owner, now)
       case Ready =>
         && DeviceIs(db, DeviceOf(db.sessions, session), owner, DeviceActive)
         && Refreshable(db.sessions, session, owner, now)
       case _ => true)
    case Revoke(owner, session) =>
      x.phase.RevokeWrite? || x.phase.Ready? ==> OwnedSession(db.sessions, session, owner)
    case _ => true
  }

  /** An ACTIVE device stays ACTIVE: no call takes it away. */
  lemma ActiveDeviceStays(s: State, t: TxId, c: Choice, d: DeviceId, owner: Owner)
    requires Inv(s) && Enabled(s, t, c) && DeviceIs(s.db, d, owner, DeviceActive)
    ensures DeviceIs(Next(s, t, c).db, d, owner, DeviceActive)
  {
    ApprovalIsAtomic(s, t, c);
    var s', x := Next(s, t, c), s.txs[t];
    if x.job.Approve? && x.phase.Ready? && !c.fails {
      assert d != x.job.device;
      assert TxOk(s.db, s.limits, x);
      hide Inv, HasRoom, SessionWritesOk, LocalStep;
    }
    hide Inv, LocalStep, Enabled;
  }

  /** A stored session keeps its owner and device. */
  lemma SessionStaysPut(s: State, t: TxId, c: Choice, k: SessionId)
    requires Inv(s) && Enabled(s, t, c) && k in s.db.sessions
    ensures k in Next(s, t, c).db.sessions
    ensures Next(s, t, c).db.sessions[k].owner == s.db.sessions[k].owner
    ensures Next(s, t, c).db.sessions[k].device == s.db.sessions[k].device
  {
    assert TxOk(s.db, s.limits, s.txs[t]);
    hide LocalStep, Blocked, CreateOk, RefreshOk, RevokeOk, ApproveOk, StatusOk;
  }

  /** A row another transaction has locked does not change. */
  lemma LockedRowStays(s: State, t: TxId, c: Choice, u: TxId, k: SessionId)
    requires Inv(s) && Enabled(s, t, c) && u in s.txs && u != t && SessionRow(k) in s.txs[u].locks && k in s.db.sessions
    ensures k in Next(s, t, c).db.sessions && Next(s, t, c).db.sessions[k] == s.db.sessions[k]
  {
    assert TxOk(s.db, s.limits, s.txs[t]);
    assert SessionRow(k) !in s.txs[t].locks;
    hide LocalStep, Blocked, CreateOk, RefreshOk, RevokeOk, ApproveOk, StatusOk;
  }

  lemma OwnStepIsRightful(s: State, t: TxId, c: Choice)
    requires Inv(s) && Enabled(s, t, c) && Rightful(s.db, s.txs[t])
    ensures t in Next(s, t, c).txs && Rightful(Next(s, t, c).db, Next(s, t, c).txs[t])
  {
    var x := s.txs[t];
    assert TxOk(s.db, s.limits, x);
    JobStays(s, t, c);
    hide Inv, Blocked, CreateOk, RevokeOk, ApproveOk, StatusOk, SessionWritesOk, StaleRows, ActiveRows, ScanOrder;
  }

  lemma OtherStepKeepsSession(s: State, t: TxId, c: Choice, u: TxId)
    requires Inv(s) && Enabled(s, t, c) && u in s.txs && u != t && s.txs[u].job.Refresh?
    requires s.txs[u].phase.RefreshUpdate? || s.txs[u].phase.Ready?
    ensures var k := s.txs[u].job.session;
            k in s.db.sessions ==> k in Next(s, t, c).db.sessions && Next(s, t, c).db.sessions[k] == s.db.sessions[k]
  {
    assert TxOk(s.db, s.limits, s.txs[u]);
    var k := s.txs[u].job.session;
    assert SessionRow(k) in s.txs[u].locks;
    hide Inv, Next, Enabled;
    if k in s.db.sessions {
      LockedRowStays(s, t, c, u, k);
    }
  }

  lemma OtherStepIsRightful(s: State, t: TxId, c: Choice, u: TxId)
    requires Inv(s) && Enabled(s, t, c) && u in s.txs && u != t && Rightful(s.db, s.txs[u])
    ensures u in Next(s, t, c).txs && Rightful(Next(s, t, c).db, Next(s, t, c).txs[u])
  {
    OthersStay(s, t, c, u);
    var x := s.txs[u];
    hide Inv, Next, Enabled;
    forall d, owner | DeviceIs(s.db, d, owner, DeviceActive)
      ensures DeviceIs(Next(s, t, c).db, d, owner, DeviceActive)
    {
      ActiveDeviceStays(s, t, c, d, owner);
    }
    if x.job.Refresh? && (x.phase.RefreshUpdate? || x.phase.Ready?) {
      OtherStepKeepsSession(s, t, c, u);
    }
    if x.job.Revoke? && x.job.session in s.db.sessions {
      SessionStaysPut(s, t, c, x.job.session);
    }
    hide DeviceIs;
  }

  lemma {:induction false} EveryTxIsRightful(run: seq<State>, moves: seq<Move>, i: nat, t: TxId)
    requires Trace(run, moves) && i < |run| && t in run[i].txs
    ensures Rightful(run[i].db, run[i].txs[t])
  {
    hide Enabled, Next, Inv;
    if i == 0 {
      assert run[0].txs[t] == Begin(run[0].txs[t].job);
    } else {
      hide Initial, Rightful;
      TraceIsRun(run, moves, i - 1);
      assert Leads(run[i - 1], moves[i - 1], run[i]);
      var m := moves[i - 1];
      KeysStay(run[i - 1], m.tx, m.choice);
      EveryTxIsRightful(run, moves, i - 1, t);
      if m.tx == t {
        OwnStepIsRightful(run[i - 1], t, m.choice);
      } else {
        OtherStepIsRightful(run[i - 1], m.tx, m.choice, t);
      }
    }
  }

  lemma KeysStay(s: State, t: TxId, c: Choice)
    requires Enabled(s, t, c)
    ensures Next(s, t, c).txs.Keys == s.txs.Keys
  {
    hide LocalStep, Blocked;
  }

  /** Move i is the commit of transaction t. */
  ghost predicate CommitsAt(run: seq<State>, moves: seq<Move>, i: int, t: TxId)
    requires |run| == |moves| + 1
  {
    0 <= i < |moves| && moves[i].tx == t && t in run[i].txs && run[i].txs[t].phase.Ready? && !moves[i].choice.fails
  }

  /**
   A create or reuse commits while its device is ACTIVE and the owner's; a refresh besides for a session of the
   owner on that device that had not expired.
   */
  lemma SessionsCommitOnActiveDevices(run: seq<State>, moves: seq<Move>, i: nat, t: TxId)
    requires Trace(run, moves) && CommitsAt(run, moves, i, t)
    ensures match run[i].txs[t].job
            case CreateOrReuse(owner, device, _, _) => DeviceIs(run[i + 1].db, device, owner, DeviceActive)
            case Refresh(owner, session, now) =>
              && Refreshable(run[i].db.sessions, session, owner, now)
              && session in run[i + 1].db.sessions
              && DeviceIs(run[i + 1].db, run[i + 1].db.sessions[session].device, owner, DeviceActive)
            case _ => true
  {
    hide Enabled, Next, Inv;
    EveryTxIsRightful(run, moves, i, t);
    TraceIsRun(run, moves, i);
    assert Leads(run[i], moves[i], run[i + 1]);
    var x := run[i].txs[t];
    match x.job
    case CreateOrReuse(owner, device, _, _) => ActiveDeviceStays(run[i], t, moves[i].choice, device, owner);
    case Refresh(owner, session, _) =>
      SessionStaysPut(run[i], t, moves[i].choice, session);
      ActiveDeviceStays(run[i], t, moves[i].choice, run[i].db.sessions[session].device, owner);
    case _ =>
  }

  // ---------------------------------------------------------------------------------------------
  // Revoking
  // ---------------------------------------------------------------------------------------------

  lemma RevokeEnds(s: State, t: TxId, c: Choice)
    requires Inv(s) && Enabled(s, t, c)
    requires s.txs[t].job.Revoke? && s.txs[t].phase.Ready? && !c.fails
    ensures var s', k := Next(s, t, c), s.txs[t].job.session;
            && k in s.db.sessions && s.db.sessions[k].status == SessionActive
            && k in s'.db.sessions && s'.db.sessions[k].status == SessionRevoked
            && s'.db.sessions[k].owner == s.db.sessions[k].owner
            && s'.db == s.db.(sessions := s.db.sessions[k := s'.db.sessions[k]])
  {
    var x := s.txs[t];
    assert TxOk(s.db, s.limits, x);
    assert x.writes.sessions.Keys == {x.job.session};
    hide Inv, Blocked;
  }

  /** A revoke that commits ends the caller's own ACTIVE session, for good, and touches nothing else. */
  lemma RevokeCommitsItsSession(run: seq<State>, moves: seq<Move>, i: nat, j: nat, t: TxId)
    requires Trace(run, moves) && CommitsAt(run, moves, i, t) && run[i].txs[t].job.Revoke? && i < j < |run|
    ensures var k, m, m' := run[i].txs[t].job.session, run[i].db.sessions, run[i + 1].db.sessions;
            && k in m && m[k].owner == run[i].txs[t].job.owner && m[k].status == SessionActive
            && k in m' && m'[k].status == SessionRevoked
            && run[i + 1].db == run[i].db.(sessions := m[k := m'[k]])
            && k in run[j].db.sessions && run[j].db.sessions[k] == m'[k]
  {
    hide Enabled, Next, Inv;
    EveryTxIsRightful(run, moves, i, t);
    TraceIsRun(run, moves, i);
    assert Leads(run[i], moves[i], run[i + 1]);
    RevokeEnds(run[i], t, moves[i].choice);
    FinalSessionsStay(run, i + 1, j, run[i].txs[t].job.session);
  }

  // ---------------------------------------------------------------------------------------------
  // Reusing a session that is revoked meanwhile
  // ---------------------------------------------------------------------------------------------

  /** Between i and j only other transactions move. */
  ghost predicate Rests(moves: seq<Move>, i: int, j: int, t: TxId) {
    forall n :: i <= n < j && 0 <= n < |moves| ==> moves[n].tx != t
  }

  lemma {:induction false} RestingTxStays(run: seq<State>, moves: seq<Move>, i: nat, j: nat, t: TxId)
    requires Trace(run, moves) && i <= j < |run| && t in run[i].txs && Rests(moves, i, j, t)
    ensures t in run[j].txs && run[j].txs[t] == run[i].txs[t]
    decreases j
  {
    hide Initial, Enabled, Next;
    if i < j {
      RestingTxStays(run, moves, i, j - 1, t);
      assert Leads(run[j - 1], moves[j - 1], run[j]);
      OthersStay(run[j - 1], moves[j - 1].tx, moves[j - 1].choice, t);
    }
  }

  ghost predicate IsActive(m: Sessions, k: SessionId) { k in m && m[k].status == SessionActive }

  lemma ReuseWrites(s: State, t: TxId, c: Choice)
    requires Enabled(s, t, c) && s.txs[t].job.CreateOrReuse? && s.txs[t].phase.CreateReuse? && !c.fails
    ensures var k, y := s.txs[t].phase.target, Next(s, t, c).txs[t];
            && y.phase == Ready && Next(s, t, c).db == s.db
            && (IsActive(s.db.sessions, k) ==> IsActive(y.writes.sessions, k))
  {
    hide Blocked;
  }

  lemma CommitInstalls(s: State, t: TxId, c: Choice, k: SessionId)
    requires Enabled(s, t, c) && s.txs[t].phase.Ready? && !c.fails
    ensures k in s.txs[t].writes.sessions ==>
              k in Next(s, t, c).db.sessions && Next(s, t, c).db.sessions[k] == s.txs[t].writes.sessions[k]
    ensures k !in s.txs[t].writes.sessions ==>
              (k in Next(s, t, c).db.sessions <==> k in s.db.sessions)
              && (k in s.db.sessions ==> Next(s, t, c).db.sessions[k] == s.db.sessions[k])
  {
    hide Blocked, LocalStep;
  }

  /**
   A reuse that commits leaves the session it answers for ACTIVE exactly when the session still was when its update
   looked: the update does not count its rows, so a session revoked since the lookup goes unnoticed.
   */
  lemma ReuseLeavesActiveExactlyWhen(run: seq<State>, moves: seq<Move>, i: nat, j: nat, t: TxId)
    requires Trace(run, moves) && i < j < |moves| && moves[i].tx == t && t in run[i].txs && !moves[i].choice.fails
    requires run[i].txs[t].job.CreateOrReuse? && run[i].txs[t].phase.CreateReuse?
    requires Rests(moves, i + 1, j, t) && CommitsAt(run, moves, j, t)
    ensures var k := run[i].txs[t].phase.target;
            k in run[i].db.sessions && (IsActive(run[j + 1].db.sessions, k) <==> IsActive(run[i].db.sessions, k))
  {
    hide Enabled, Next, Initial;
    var k := run[i].txs[t].phase.target;
    TraceIsRun(run, moves, i);
    assert TxOk(run[i].db, run[i].limits, run[i].txs[t]);
    hide Inv, TxOk, Run;
    assert Leads(run[i], moves[i], run[i + 1]) && Leads(run[j], moves[j], run[j + 1]);
    ReuseWrites(run[i], t, moves[i].choice);
    KeysStay(run[i], t, moves[i].choice);
    RestingTxStays(run, moves, i + 1, j, t);
    CommitInstalls(run[j], t, moves[j].choice, k);
    if !IsActive(run[i].db.sessions, k) {
      FinalSessionsStay(run, i, j + 1, k);
    }
  }

  /** An insert that commits leaves its fresh session ACTIVE. */
  lemma InsertLeavesActive(run: seq<State>, moves: seq<Move>, i: nat, j: nat, t: TxId)
    requires Trace(run, moves) && i < j < |moves| && moves[i].tx == t && t in run[i].txs && !moves[i].choice.fails
    requires run[i].txs[t].job.CreateOrReuse? && run[i].txs[t].phase.CreateInsert?
    requires Rests(moves, i + 1, j, t) && CommitsAt(run, moves, j, t)
    ensures var job := run[i].txs[t].job;
            ActiveOn(run[j + 1].db.sessions, job.freshId, job.owner, job.device)
  {
    hide Enabled, Next, Initial;
    assert Leads(run[i], moves[i], run[i + 1]) && Leads(run[j], moves[j], run[j + 1]);
    InsertWrites(run[i], t, moves[i].choice);
    RestingTxStays(run, moves, i + 1, j, t);
    CommitInstalls(run[j], t, moves[j].choice, run[i].txs[t].job.freshId);
  }

  lemma InsertWrites(s: State, t: TxId, c: Choice)
    requires Enabled(s, t, c) && s.txs[t].job.CreateOrReuse? && s.txs[t].phase.CreateInsert? && !c.fails
    ensures t in Next(s, t, c).txs
    ensures var job, y := s.txs[t].job, Next(s, t, c).txs[t];
            ActiveOn(y.writes.sessions, job.freshId, job.owner, job.device)
  {
    hide Blocked;
  }

  // ---------------------------------------------------------------------------------------------
  // Revoking every session of a user
  // ---------------------------------------------------------------------------------------------

  /** How far the bulk revoke has come with the sessions its snapshot selected. */
  ghost predicate Sweeps(db: Db, x: Tx, selected: set<SessionId>) {
    && x.job.SetStatus?
    && (x.phase.StatusRevoke? || x.phase.Ready? ==>
          && x.writes.sessions.Keys <= selected
          && (x.phase.StatusRevoke? ==> forall k :: k in x.phase.todo ==> k in selected)
          && forall k :: k in selected ==>
               || (x.phase.StatusRevoke? && k in x.phase.todo)
               || k in x.writes.sessions || !ActiveOf(db.sessions, k, x.job.user))
    && (x.phase.StatusRevoke? || x.phase.Ready? || x.phase.Done?)
  }

  lemma SnapshotSweeps(s: State, t: TxId, c: Choice)
    requires Inv(s) && Enabled(s, t, c) && s.txs[t].job.SetStatus? && s.txs[t].phase.StatusSnapshot? && !c.fails
    ensures t in Next(s, t, c).txs
    ensures Sweeps(Next(s, t, c).db, Next(s, t, c).txs[t], ActiveRows(s.db.sessions, s.txs[t].job.user))
  {
    assert TxOk(s.db, s.limits, s.txs[t]);
    hide Inv, Blocked, SessionWritesOk, ActiveOf;
  }

  lemma OwnStepSweeps(s: State, t: TxId, c: Choice, selected: set<SessionId>)
    requires Inv(s) && Enabled(s, t, c) && Sweeps(s.db, s.txs[t], selected)
    ensures t in Next(s, t, c).txs && Sweeps(Next(s, t, c).db, Next(s, t, c).txs[t], selected)
  {
    hide Inv, Blocked;
  }

  lemma OtherStepSweeps(s: State, t: TxId, c: Choice, u: TxId, selected: set<SessionId>)
    requires Inv(s) && Enabled(s, t, c) && u in s.txs && u != t && Sweeps(s.db, s.txs[u], selected)
    requires forall k :: k in selected ==> k in s.db.sessions
    ensures u in Next(s, t, c).txs && Sweeps(Next(s, t, c).db, Next(s, t, c).txs[u], selected)
  {
    OthersStay(s, t, c, u);
    forall k | k in selected && !ActiveOf(s.db.sessions, k, s.txs[u].job.user)
      ensures !ActiveOf(Next(s, t, c).db.sessions, k, s.txs[u].job.user)
    {
      InactiveStays(s, t, c, k);
    }
    hide Inv, Next, Enabled, ActiveOf;
  }

  lemma InactiveStays(s: State, t: TxId, c: Choice, k: SessionId)
    requires Inv(s) && Enabled(s, t, c) && k in s.db.sessions
    ensures forall user :: ActiveOf(Next(s, t, c).db.sessions, k, user) ==> ActiveOf(s.db.sessions, k, user)
  {
    SessionStaysPut(s, t, c, k);
    if s.db.sessions[k].status != SessionActive {
      assert Step(s, Next(s, t, c));
      StepKeepsFinalSessions(s, Next(s, t, c), k);
    }
    hide Inv, Next, Enabled;
  }

  /** Stored sessions are never deleted. */
  lemma {:induction false} SessionsStay(run: seq<State>, moves: seq<Move>, i: nat, j: nat, k: SessionId)
    requires Trace(run, moves) && i <= j < |run| && k in run[i].db.sessions
    ensures k in run[j].db.sessions
    decreases j
  {
    hide Initial, Inv, Enabled, Next;
    if i < j {
      SessionsStay(run, moves, i, j - 1, k);
      TraceIsRun(run, moves, j - 1);
      assert Leads(run[j - 1], moves[j - 1], run[j]);
      SessionStaysPut(run[j - 1], moves[j - 1].tx, moves[j - 1].choice, k);
    }
  }

  lemma {:induction false} SweepGoesOn(run: seq<State>, moves: seq<Move>, i: nat, j: nat, t: TxId)
    requires Trace(run, moves) && i < j < |run| && i < |moves| && moves[i].tx == t && t in run[i].txs
    requires run[i].txs[t].job.SetStatus? && run[i].txs[t].phase.StatusSnapshot? && !moves[i].choice.fails
    ensures t in run[j].txs && run[j].txs[t].job == run[i].txs[t].job
    ensures Sweeps(run[j].db, run[j].txs[t], ActiveRows(run[i].db.sessions, run[i].txs[t].job.user))
    decreases j
  {
    hide Initial, Inv, Enabled, Next, Sweeps, ActiveOf;
    var selected := ActiveRows(run[i].db.sessions, run[i].txs[t].job.user);
    TraceIsRun(run, moves, j - 1);
    var m := moves[j - 1];
    assert Leads(run[j - 1], m, run[j]);
    if i + 1 == j {
      SnapshotSweeps(run[i], t, m.choice);
      JobStays(run[i], t, m.choice);
    } else {
      SweepGoesOn(run, moves, i, j - 1, t);
      if m.tx == t {
        OwnStepSweeps(run[j - 1], t, m.choice, selected);
        JobStays(run[j - 1], t, m.choice);
      } else {
        forall k | k in selected ensures k in run[j - 1].db.sessions {
          SessionsStay(run, moves, i, j - 1, k);
        }
        OtherStepSweeps(run[j - 1], m.tx, m.choice, t, selected);
        OthersStay(run[j - 1], m.tx, m.choice, t);
      }
    }
  }

  /**
   A status change that commits leaves a session of its user ACTIVE exactly when the session was ACTIVE then and had
   not been when its bulk revoke looked: one that was committed in between survives.
   */
  lemma SurvivesRevocationExactlyWhen(run: seq<State>, moves: seq<Move>, i: nat, j: nat, t: TxId, k: SessionId)
    requires Trace(run, moves) && i < j < |moves| && moves[i].tx == t && t in run[i].txs && !moves[i].choice.fails
    requires run[i].txs[t].job.SetStatus? && run[i].txs[t].phase.StatusSnapshot? && CommitsAt(run, moves, j, t)
    ensures var user := run[i].txs[t].job.user;
            ActiveOf(run[j + 1].db.sessions, k, user) <==>
              ActiveOf(run[j].db.sessions, k, user) && !ActiveOf(run[i].db.sessions, k, user)
  {
    hide Initial, Enabled, Next;
    SweepGoesOn(run, moves, i, j, t);
    TraceIsRun(run, moves, j);
    assert Leads(run[j], moves[j], run[j + 1]);
    CommitInstalls(run[j], t, moves[j].choice, k);
    RevokesWrite(run[j], t);
    hide Inv, Run;
  }

  lemma RevokesWrite(s: State, t: TxId)
    requires Inv(s) && t in s.txs && s.txs[t].job.SetStatus?
    ensures forall k :: k in s.txs[t].writes.sessions ==> !IsActive(s.txs[t].writes.sessions, k)
  {
    assert TxOk(s.db, s.limits, s.txs[t]);
    hide SessionWritesOk;
  }

  // ---------------------------------------------------------------------------------------------
  // Inputs
  // ---------------------------------------------------------------------------------------------

  const SOMEBODY := Owner(1, 1)

  function Choose(order: seq<SessionId>, pick: SessionId): Choice { Choice(false, order, pick, 20) }

  /** One device, ACTIVE, with these sessions. */
  function OneDevice(sessions: Sessions): Db {
    Db(map[SOMEBODY := true], map[1 := Device(SOMEBODY, DeviceActive)], map[], sessions)
  }

  function Two(sessions: Sessions, a: Tx, b: Tx): State { State(OneDevice(sessions), map[], map[1 := a, 2 := b]) }

  /** A create or reuse on that device, at this statement, holding the device row. */
  function Creating(phase: Phase): Tx {
    Tx(CreateOrReuse(SOMEBODY, 1, 0, 8), phase, NO_WRITES,
       if phase.CreateLockDevice? || phase.Done? then {} else {DeviceRow(1)})
  }

  function Running(expiresAt: Time): Session { Session(SOMEBODY, 1, SessionActive, expiresAt) }

  function Revoking(phase: Phase): Tx {
    Tx(Revoke(SOMEBODY, 7), phase,
       if phase.Ready? then Writes(map[], map[], map[7 := Running(10).(status := SessionRevoked)]) else NO_WRITES,
       if phase.RevokeLock? || phase.Done? then {} else {SessionRow(7)})
  }

  ghost predicate Scans(db: Db, x: Tx, c: Choice) {
    && (x.job.CreateOrReuse? ==> HonestScans(db, x, c))
    && (x.job.SetStatus? && x.phase.StatusSnapshot? ==> ScanOrder(c.order, ActiveRows(db.sessions, x.job.user)))
  }

  lemma FirstGoes(m: Sessions, a: Tx, b: Tx, c: Choice, a': Tx)
    requires !a.phase.Done? && !a.phase.Ready? && Awaits(OneDevice(m), a) !! b.locks && Scans(OneDevice(m), a, c)
    requires LocalStep(OneDevice(m), map[], a, c) == a'
    ensures Leads(Two(m, a, b), Move(1, c), Two(m, a', b))
  {
    assert Two(m, a, b).txs[1 := a'] == Two(m, a', b).txs;
    hide LocalStep, Awaits, ScanOrder, StaleRows, ActiveRows, ActiveOn;
  }

  lemma SecondGoes(m: Sessions, a: Tx, b: Tx, c: Choice, b': Tx)
    requires !b.phase.Done? && !b.phase.Ready? && Awaits(OneDevice(m), b) !! a.locks && Scans(OneDevice(m), b, c)
    requires LocalStep(OneDevice(m), map[], b, c) == b'
    ensures Leads(Two(m, a, b), Move(2, c), Two(m, a, b'))
  {
    assert Two(m, a, b).txs[2 := b'] == Two(m, a, b').txs;
    hide LocalStep, Awaits, ScanOrder, StaleRows, ActiveRows, ActiveOn;
  }

  /** Nothing waits before a commit. */
  lemma CommitsFreely(s: State, t: TxId, c: Choice)
    requires t in s.txs && s.txs[t].phase.Ready? && !c.fails
    ensures Enabled(s, t, c) && Next(s, t, c) == s.(db := Install(s.db, s.txs[t].writes),
                                                    txs := s.txs[t := End(s.txs[t], true)])
  {
    assert Awaits(s.db, s.txs[t]) == {};
    hide LocalStep, ScanOrder;
  }

  lemma FirstCommits(m: Sessions, a: Tx, b: Tx, c: Choice, m': Sessions)
    requires a.phase.Ready? && !c.fails && OnlySessionWrites(a) && m' == m + a.writes.sessions
    ensures Leads(Two(m, a, b), Move(1, c), Two(m', End(a, true), b))
  {
    CommitsFreely(Two(m, a, b), 1, c);
    assert Two(m, a, b).txs[1 := End(a, true)] == Two(m', End(a, true), b).txs;
    assert Install(OneDevice(m), a.writes) == OneDevice(m');
    hide Next, Enabled, Install;
  }

  lemma SecondCommits(m: Sessions, a: Tx, b: Tx, c: Choice, m': Sessions)
    requires b.phase.Ready? && !c.fails && OnlySessionWrites(b) && m' == m + b.writes.sessions
    ensures Leads(Two(m, a, b), Move(2, c), Two(m', a, End(b, true)))
  {
    CommitsFreely(Two(m, a, b), 2, c);
    assert Two(m, a, b).txs[2 := End(b, true)] == Two(m', a, End(b, true)).txs;
    assert Install(OneDevice(m), b.writes) == OneDevice(m');
    hide Next, Enabled, Install;
  }

  lemma CreateLocks(m: Sessions, b: Tx, c: Choice)
    requires b.locks == {} && !c.fails
    ensures Leads(Two(m, Creating(CreateLockDevice), b), Move(1, c), Two(m, Creating(CreateEvaluate), b))
  {
    FirstGoes(m, Creating(CreateLockDevice), b, c, Creating(CreateEvaluate));
    hide Leads;
  }

  lemma CreateEvaluates(m: Sessions, b: Tx, c: Choice)
    requires b.locks == {} && !c.fails && c.order == [] && StaleRows(m, SOMEBODY, 1, 0) == {}
    ensures Leads(Two(m, Creating(CreateEvaluate), b), Move(1, c), Two(m, Creating(CreateExpire([])), b))
  {
    hide StaleRows;
    assert ScanOrder([], {});
    FirstGoes(m, Creating(CreateEvaluate), b, c, Creating(CreateExpire([])));
    hide Leads;
  }

  lemma CreateExpires(m: Sessions, b: Tx, c: Choice)
    requires b.locks == {} && !c.fails
    ensures Leads(Two(m, Creating(CreateExpire([])), b), Move(1, c), Two(m, Creating(CreateFind), b))
  {
    FirstGoes(m, Creating(CreateExpire([])), b, c, Creating(CreateFind));
    hide Leads;
  }

  lemma CreateFinds(m: Sessions, b: Tx, c: Choice)
    requires b.locks == {} && !c.fails
    requires ActiveOn(m, c.pick, SOMEBODY, 1) || NoneActive(m, SOMEBODY, 1)
    ensures var found := if ActiveOn(m, c.pick, SOMEBODY, 1) then CreateReuse(c.pick) else CreateInsert;
            Leads(Two(m, Creating(CreateFind), b), Move(1, c), Two(m, Creating(found), b))
  {
    assert SeenSessions(OneDevice(m), Creating(CreateFind)) == m;
    hide ActiveOn, NoneActive, SeenSessions;
    FirstGoes(m, Creating(CreateFind), b, c,
        Creating(if ActiveOn(m, c.pick, SOMEBODY, 1) then CreateReuse(c.pick) else CreateInsert));
    hide Leads;
  }

  /** The statements of a create up to its lookup, over sessions none of which is stale. */
  lemma CreateLooks(m: Sessions, b: Tx, pick: SessionId)
    requires b.locks == {} && StaleRows(m, SOMEBODY, 1, 0) == {}
    requires ActiveOn(m, pick, SOMEBODY, 1) || NoneActive(m, SOMEBODY, 1)
    ensures var found := if ActiveOn(m, pick, SOMEBODY, 1) then CreateReuse(pick) else CreateInsert;
            var look := Move(1, Choose([], pick));
            && Leads(Two(m, Creating(CreateLockDevice), b), look, Two(m, Creating(CreateEvaluate), b))
            && Leads(Two(m, Creating(CreateEvaluate), b), look, Two(m, Creating(CreateExpire([])), b))
            && Leads(Two(m, Creating(CreateExpire([])), b), look, Two(m, Creating(CreateFind), b))
            && Leads(Two(m, Creating(CreateFind), b), look, Two(m, Creating(found), b))
  {
    hide Leads, StaleRows, ActiveOn, NoneActive, Two;
    CreateLocks(m, b, Choose([], pick));
    CreateEvaluates(m, b, Choose([], pick));
    CreateExpires(m, b, Choose([], pick));
    CreateFinds(m, b, Choose([], pick));
  }

  lemma RevokeSteps(m: Sessions, a: Tx)
    requires m == map[7 := Running(10)] && a == Creating(CreateReuse(7))
    ensures var go := Move(2, Choose([], 0));
            && Leads(Two(m, a, Revoking(RevokeLock)), go, Two(m, a, Revoking(RevokeWrite)))
            && Leads(Two(m, a, Revoking(RevokeWrite)), go, Two(m, a, Revoking(Ready)))
  {
    hide Leads, Two;
    SecondGoes(m, a, Revoking(RevokeLock), Choose([], 0), Revoking(RevokeWrite));
    SecondGoes(m, a, Revoking(RevokeWrite), Choose([], 0), Revoking(Ready));
  }

  lemma RevokeGoesThrough()
    ensures var m, m', a := map[7 := Running(10)], map[7 := Running(10).(status := SessionRevoked)],
                            Creating(CreateReuse(7));
            var go := Move(2, Choose([], 0));
            && Leads(Two(m, a, Revoking(RevokeLock)), go, Two(m, a, Revoking(RevokeWrite)))
            && Leads(Two(m, a, Revoking(RevokeWrite)), go, Two(m, a, Revoking(Ready)))
            && Leads(Two(m, a, Revoking(Ready)), go, Two(m', a, Revoking(Done(true))))
  {
    var m, m', a := map[7 := Running(10)], map[7 := Running(10).(status := SessionRevoked)], Creating(CreateReuse(7));
    hide Leads, Two, Creating;
    RevokeSteps(m, a);
    SecondCommits(m, a, Revoking(Ready), Choose([], 0), m');
  }

  lemma ReuseGoesThrough()
    ensures var m', b, go := map[7 := Running(10).(status := SessionRevoked)], Revoking(Done(true)),
                             Move(1, Choose([], 0));
            && Leads(Two(m', Creating(CreateReuse(7)), b), go, Two(m', Creating(Ready), b))
            && Leads(Two(m', Creating(Ready), b), go, Two(m', Creating(Done(true)), b))
  {
    var m', b := map[7 := Running(10).(status := SessionRevoked)], Revoking(Done(true));
    hide Leads;
    FirstGoes(m', Creating(CreateReuse(7)), b, Choose([], 0), Creating(Ready));
    FirstCommits(m', Creating(Ready), b, Choose([], 0), m');
  }

  lemma TwoHas(m: Sessions, a: Tx, b: Tx)
    ensures Two(m, a, b).txs.Keys == {1, 2} && Two(m, a, b).txs[1] == a && Two(m, a, b).txs[2] == b
    ensures Two(m, a, b).db.sessions == m
  {}

  lemma OneMore(run: seq<State>, moves: seq<Move>, m: Move, s: State)
    requires Trace(run, moves) && Leads(run[|moves|], m, s)
    ensures Trace(run + [s], moves + [m])
  {
    hide Leads, Initial;
  }

  lemma Alone(s: State)
    requires Initial(s)
    ensures Trace([s], [])
  {
    hide Initial;
  }

  /** The trace goes on through three more states. */
  lemma ThreeMore(run: seq<State>, moves: seq<Move>, m: Move, s: State, s': State, s'': State)
      returns (more: seq<State>, further: seq<Move>)
    requires Trace(run, moves) && Leads(run[|moves|], m, s) && Leads(s, m, s') && Leads(s', m, s'')
    ensures Trace(more, further) && |further| + 1 == |more| == |moves| + 4 && run <= more && moves <= further
    ensures more[|run|] == s && more[|run| + 1] == s' && more[|run| + 2] == s''
    ensures forall i :: |moves| <= i < |further| ==> further[i] == m
  {
    hide Leads, Initial;
    OneMore(run, moves, m, s);
    OneMore(run + [s], moves + [m], m, s');
    OneMore(run + [s] + [s'], moves + [m] + [m], m, s'');
    more, further := run + [s] + [s'] + [s''], moves + [m] + [m] + [m];
  }

  lemma TwoMore(run: seq<State>, moves: seq<Move>, m: Move, s: State, s': State)
      returns (more: seq<State>, further: seq<Move>)
    requires Trace(run, moves) && Leads(run[|moves|], m, s) && Leads(s, m, s')
    ensures Trace(more, further) && |further| + 1 == |more| == |moves| + 3 && run <= more && moves <= further
    ensures more[|run|] == s && more[|run| + 1] == s'
    ensures forall i :: |moves| <= i < |further| ==> further[i] == m
  {
    hide Leads, Initial;
    OneMore(run, moves, m, s);
    OneMore(run + [s], moves + [m], m, s');
    more, further := run + [s] + [s'], moves + [m] + [m];
  }

  /** A create that has looked up what is there, before anything else happens. */
  lemma Looked(m: Sessions, b: Tx, pick: SessionId, found: Phase) returns (run: seq<State>, moves: seq<Move>)
    requires b.locks == {} && StaleRows(m, SOMEBODY, 1, 0) == {} && Initial(Two(m, Creating(CreateLockDevice), b))
    requires ActiveOn(m, pick, SOMEBODY, 1) || NoneActive(m, SOMEBODY, 1)
    requires found == if ActiveOn(m, pick, SOMEBODY, 1) then CreateReuse(pick) else CreateInsert
    ensures Trace(run, moves) && |moves| == 4 && |run| == 5
    ensures run[4] == Two(m, Creating(found), b)
  {
    hide Leads, Initial, Two, Creating, StaleRows, ActiveOn, NoneActive, Trace;
    CreateLooks(m, b, pick);
    var look := Move(1, Choose([], pick));
    run, moves := [Two(m, Creating(CreateLockDevice), b)], [];
    Alone(run[0]);
    run, moves := TwoMore(run, moves, look, Two(m, Creating(CreateEvaluate), b), Two(m, Creating(CreateExpire([])), b));
    run, moves := TwoMore(run, moves, look, Two(m, Creating(CreateFind), b), Two(m, Creating(found), b));
  }

  /** The session found for reuse is revoked before its update. */
  lemma RevokeFollows(run: seq<State>, moves: seq<Move>) returns (more: seq<State>, further: seq<Move>)
    requires Trace(run, moves) && |moves| == 4 && |run| == 5
    requires run[4] == Two(map[7 := Running(10)], Creating(CreateReuse(7)), Revoking(RevokeLock))
    ensures Trace(more, further) && |further| == 7 && |more| == 8 && more[4] == run[4]
    ensures more[6] == Two(map[7 := Running(10)], Creating(CreateReuse(7)), Revoking(Ready))
    ensures more[7] == Two(map[7 := Running(10).(status := SessionRevoked)], Creating(CreateReuse(7)),
                           Revoking(Done(true)))
    ensures further[6] == Move(2, Choose([], 0))
  {
    var m, m', reuse := map[7 := Running(10)], map[7 := Running(10).(status := SessionRevoked)],
                        Creating(CreateReuse(7));
    hide Trace, Leads, Two, Creating, Revoking;
    RevokeGoesThrough();
    more, further := ThreeMore(run, moves, Move(2, Choose([], 0)), Two(m, reuse, Revoking(RevokeWrite)),
        Two(m, reuse, Revoking(Ready)), Two(m', reuse, Revoking(Done(true))));
  }

  /** And then the reuse goes through. */
  lemma ReuseFollows(run: seq<State>, moves: seq<Move>) returns (more: seq<State>, further: seq<Move>)
    requires Trace(run, moves) && |moves| == 7 && |run| == 8
    requires run[7] == Two(map[7 := Running(10).(status := SessionRevoked)], Creating(CreateReuse(7)),
                           Revoking(Done(true)))
    ensures Trace(more, further) && |further| == 9 && |more| == 10
    ensures more[4] == run[4] && more[6] == run[6] && further[6] == moves[6]
    ensures more[8] == Two(map[7 := Running(10).(status := SessionRevoked)], Creating(Ready), Revoking(Done(true)))
    ensures more[9] == Two(map[7 := Running(10).(status := SessionRevoked)], Creating(Done(true)), Revoking(Done(true)))
    ensures further[8] == Move(1, Choose([], 0))
  {
    var m' := map[7 := Running(10).(status := SessionRevoked)];
    hide Trace, Leads, Two, Creating, Revoking;
    ReuseGoesThrough();
    more, further := TwoMore(run, moves, Move(1, Choose([], 0)), Two(m', Creating(Ready), Revoking(Done(true))),
        Two(m', Creating(Done(true)), Revoking(Done(true))));
  }

  /** An input: a session is found for reuse, revoked, and then answered for by a reuse that commits. */
  lemma RevokedUnderReuse() returns (run: seq<State>, moves: seq<Move>)
    ensures Trace(run, moves) && |moves| == 9
    ensures 1 in run[4].txs && run[4].txs[1].phase == CreateReuse(7)
    ensures CommitsAt(run, moves, 6, 2) && CommitsAt(run, moves, 8, 1)
    ensures IsActive(run[4].db.sessions, 7) && !IsActive(run[9].db.sessions, 7)
  {
    var m, m' := map[7 := Running(10)], map[7 := Running(10).(status := SessionRevoked)];
    hide Initial, Two, Creating, Revoking, ActiveOn, StaleRows, NoneActive, Trace;
    OneSessionIsInitial();
    run, moves := Looked(m, Revoking(RevokeLock), 7, CreateReuse(7));
    run, moves := RevokeFollows(run, moves);
    run, moves := ReuseFollows(run, moves);
    TwoHas(m, Creating(CreateReuse(7)), Revoking(RevokeLock));
    TwoHas(m, Creating(CreateReuse(7)), Revoking(Ready));
    TwoHas(m', Creating(Ready), Revoking(Done(true)));
    TwoHas(m', Creating(Done(true)), Revoking(Done(true)));
  }

  lemma OneSessionIsInitial()
    ensures Initial(Two(map[7 := Running(10)], Creating(CreateLockDevice), Revoking(RevokeLock)))
    ensures ActiveOn(map[7 := Running(10)], 7, SOMEBODY, 1) && StaleRows(map[7 := Running(10)], SOMEBODY, 1, 0) == {}
    ensures Revoking(RevokeLock).locks == {} && Revoking(Ready).phase == Creating(Ready).phase == Ready
    ensures Creating(CreateReuse(7)).phase == CreateReuse(7)
  {
    LimitsAreFree(Two(map[7 := Running(10)], Creating(CreateLockDevice), Revoking(RevokeLock)));
  }

  lemma LimitsAreFree(s: State)
    requires s.limits == map[]
    ensures LimitOk(s.db, s.limits)
  {}

  function Suspending(phase: Phase): Tx {
    Tx(SetStatus(1, true), phase, NO_WRITES, if phase.StatusLockUser? || phase.Done? then {} else {UserRow(1)})
  }

  function Inserting(): Tx {
    Creating(Ready).(writes := Writes(map[], map[], map[8 := Running(20)]))
  }

  lemma SuspensionLooks()
    ensures var a, go := Creating(CreateInsert), Move(2, Choose([], 0));
            && Leads(Two(map[], a, Suspending(StatusLockUser)), go, Two(map[], a, Suspending(StatusSnapshot)))
            && Leads(Two(map[], a, Suspending(StatusSnapshot)), go, Two(map[], a, Suspending(StatusRevoke([]))))
  {
    var none: Sessions := map[];
    assert ActiveRows(none, 1) == {};
    hide Leads;
    SecondGoes(none, Creating(CreateInsert), Suspending(StatusLockUser), Choose([], 0), Suspending(StatusSnapshot));
    SecondGoes(none, Creating(CreateInsert), Suspending(StatusSnapshot), Choose([], 0), Suspending(StatusRevoke([])));
  }

  lemma InsertCommits(b: Tx)
    requires b.locks == {UserRow(1)}
    ensures var go := Move(1, Choose([], 0));
            && Leads(Two(map[], Creating(CreateInsert), b), go, Two(map[], Inserting(), b))
            && Leads(Two(map[], Inserting(), b), go, Two(map[8 := Running(20)], Creating(Done(true)), b))
  {
    hide Leads, Two;
    FirstGoes(map[], Creating(CreateInsert), b, Choose([], 0), Inserting());
    FirstCommits(map[], Inserting(), b, Choose([], 0), map[8 := Running(20)]);
  }

  lemma SuspensionCommits(m: Sessions, a: Tx)
    ensures var go := Move(2, Choose([], 0));
            && Leads(Two(m, a, Suspending(StatusRevoke([]))), go, Two(m, a, Suspending(Ready)))
            && Leads(Two(m, a, Suspending(Ready)), go, Two(m, a, Suspending(Done(true))))
  {
    hide Leads, Two;
    SecondGoes(m, a, Suspending(StatusRevoke([])), Choose([], 0), Suspending(Ready));
    SecondCommits(m, a, Suspending(Ready), Choose([], 0), m);
  }

  /** The bulk revoke looks before the new session is committed. */
  lemma SuspensionFollows(run: seq<State>, moves: seq<Move>) returns (more: seq<State>, further: seq<Move>)
    requires Trace(run, moves) && |moves| == 4 && |run| == 5
    requires run[4] == Two(map[], Creating(CreateInsert), Suspending(StatusLockUser))
    ensures Trace(more, further) && |further| == 6 && |more| == 7
    ensures more[5] == Two(map[], Creating(CreateInsert), Suspending(StatusSnapshot))
    ensures more[6] == Two(map[], Creating(CreateInsert), Suspending(StatusRevoke([])))
  {
    hide Trace, Leads, Two, Creating, Suspending;
    SuspensionLooks();
    more, further := TwoMore(run, moves, Move(2, Choose([], 0)),
        Two(map[], Creating(CreateInsert), Suspending(StatusSnapshot)),
        Two(map[], Creating(CreateInsert), Suspending(StatusRevoke([]))));
  }

  /** And then both commit. */
  lemma BothCommit(run: seq<State>, moves: seq<Move>) returns (more: seq<State>, further: seq<Move>)
    requires Trace(run, moves) && |moves| == 6 && |run| == 7
    requires run[6] == Two(map[], Creating(CreateInsert), Suspending(StatusRevoke([])))
    ensures Trace(more, further) && |further| == 10 && |more| == 11 && more[5] == run[5]
    ensures more[7] == Two(map[], Inserting(), Suspending(StatusRevoke([])))
    ensures more[9] == Two(map[8 := Running(20)], Creating(Done(true)), Suspending(Ready))
    ensures more[10] == Two(map[8 := Running(20)], Creating(Done(true)), Suspending(Done(true)))
    ensures further[7] == Move(1, Choose([], 0)) && further[9] == Move(2, Choose([], 0))
  {
    var m, a, sweep := map[8 := Running(20)], Creating(Done(true)), Suspending(StatusRevoke([]));
    assert sweep.locks == {UserRow(1)};
    hide Trace, Leads, Two, Creating, Suspending, Inserting;
    InsertCommits(sweep);
    SuspensionCommits(m, a);
    more, further := TwoMore(run, moves, Move(1, Choose([], 0)), Two(map[], Inserting(), sweep), Two(m, a, sweep));
    more, further := TwoMore(more, further, Move(2, Choose([], 0)), Two(m, a, Suspending(Ready)),
        Two(m, a, Suspending(Done(true))));
  }

  /** Another: a user is suspended while a session of theirs is being created, and the session stays ACTIVE. */
  lemma CreatedUnderSuspension() returns (run: seq<State>, moves: seq<Move>)
    ensures Trace(run, moves) && |moves| == 10
    ensures 2 in run[5].txs && run[5].txs[2].phase == StatusSnapshot
    ensures CommitsAt(run, moves, 7, 1) && CommitsAt(run, moves, 9, 2)
    ensures !ActiveOf(run[5].db.sessions, 8, 1) && ActiveOf(run[10].db.sessions, 8, 1)
  {
    var none: Sessions, m := map[], map[8 := Running(20)];
    hide Initial, Two, Creating, Suspending, Inserting, StaleRows, ActiveOn, NoneActive, Trace;
    NoSessionIsInitial();
    run, moves := Looked(none, Suspending(StatusLockUser), 0, CreateInsert);
    run, moves := SuspensionFollows(run, moves);
    run, moves := BothCommit(run, moves);
    TwoHas(none, Creating(CreateInsert), Suspending(StatusSnapshot));
    TwoHas(none, Inserting(), Suspending(StatusRevoke([])));
    TwoHas(m, Creating(Done(true)), Suspending(Ready));
    TwoHas(m, Creating(Done(true)), Suspending(Done(true)));
  }

  lemma NoSessionIsInitial()
    ensures Initial(Two(map[], Creating(CreateLockDevice), Suspending(StatusLockUser)))
    ensures NoneActive(map[], SOMEBODY, 1) && StaleRows(map[], SOMEBODY, 1, 0) == {}
    ensures Suspending(StatusLockUser).locks == {} && Suspending(Ready).phase == Inserting().phase == Ready
    ensures Suspending(StatusSnapshot).phase == StatusSnapshot && !ActiveOn(map[], 0, SOMEBODY, 1)
  {
    LimitsAreFree(Two(map[], Creating(CreateLockDevice), Suspending(StatusLockUser)));
  }
}
