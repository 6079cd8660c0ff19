/**
 Deadlock freedom of the transactions in RowLocks.

 Locks are taken in rising rank: user, membership, device, enrolment request, session.  The one
 exception is a status change, which locks several session rows one after the other; it is safe
 because only one status change per user runs at a time and nobody else who holds a session row
 ever waits.
 */
module RowLocksProgress {
  import opened RowLocks
  import opened RowLocksSafety

  function Rank(r: Row): nat {
    match r
    case UserRow(_) => 0
    case MembershipRow(_) => 1
    case DeviceRow(_) => 2
    case RequestRow(_) => 3
    case SessionRow(_) => 4
  }

  /** A transaction asks for a row it does not hold yet only if that row outranks all it holds. */
  lemma LocksRise(s: State, t: TxId, r: Row, held: Row)
    requires Inv(s) && t in s.txs
    requires r in Awaits(s.db, s.txs[t]) && r !in s.txs[t].locks && held in s.txs[t].locks
    ensures Rank(held) < Rank(r) || (s.txs[t].job.SetStatus? && held.SessionRow? && r.SessionRow?)
  {
    var db, x := s.db, s.txs[t];
    assert TxOk(db, s.limits, x);
    match x.job
    case CreateOrReuse(owner, device, _, _) => assert CreateOk(db, x);
    case Refresh(_, _, _) => assert RefreshOk(db, x);
    case Revoke(_, _) =>
    case Approve(_, _, _) => assert ApproveOk(db, s.limits, x);
    case SetStatus(_, _) => assert StatusOk(db, x);
  }

  // ---------------------------------------------------------------------------------------------
  // The wait-for graph
  // ---------------------------------------------------------------------------------------------

  /** t waits for a row that u holds. */
  ghost predicate WaitsFor(s: State, t: TxId, u: TxId) {
    && t in s.txs && u in s.txs && t != u
    && exists r :: r in Awaits(s.db, s.txs[t]) && r in s.txs[u].locks
  }

  /** How far a waiting transaction can be from one that can step. */
  ghost function Height(s: State, t: TxId): (h: nat)
    requires t in s.txs
    ensures h > 0 <==> Blocked(s, t)
  {
    if !Blocked(s, t) then 0
    else
      var r :| r in Awaits(s.db, s.txs[t]) && HeldByOther(s, t, r);
      if s.txs[t].job.SetStatus? && r.SessionRow? then 1 else 6 - Rank(r)
  }

  /** Holding a session row, or an enrolment request row, means never waiting again, unless one is a status change. */
  lemma SessionHoldersRun(s: State, u: TxId, r: Row)
    requires Inv(s) && u in s.txs && r in s.txs[u].locks && (r.SessionRow? || r.RequestRow?)
    ensures Awaits(s.db, s.txs[u]) <= s.txs[u].locks || s.txs[u].job.SetStatus?
  {
    var db, x := s.db, s.txs[u];
    assert TxOk(db, s.limits, x);
    match x.job
    case CreateOrReuse(_, _, _, _) => assert CreateOk(db, x);
    case Refresh(_, _, _) => assert RefreshOk(db, x);
    case Revoke(_, _) => assert RevokeOk(db, x);
    case Approve(_, _, _) => assert ApproveOk(db, s.limits, x);
    case SetStatus(_, _) => 
  }

  /** Who holds a row: only one kind of transaction per kind of row, sessions apart. */
  lemma Holders(s: State, u: TxId, r: Row)
    requires Inv(s) && u in s.txs && r in s.txs[u].locks
    ensures r.UserRow? ==> s.txs[u].job.SetStatus? && s.txs[u].job.user == r.user
    ensures r.MembershipRow? || r.RequestRow? ==> s.txs[u].job.Approve?
    ensures r.DeviceRow? ==> !s.txs[u].job.SetStatus?
    ensures r.SessionRow? && s.txs[u].job.SetStatus? ==>
              && r.session in s.db.sessions && s.db.sessions[r.session].owner.user == s.txs[u].job.user
              && UserRow(s.txs[u].job.user) in s.txs[u].locks
  {
    var db, x := s.db, s.txs[u];
    assert TxOk(db, s.limits, x);
    match x.job
    case CreateOrReuse(_, _, _, _) => assert CreateOk(db, x);
    case Refresh(_, _, _) => assert RefreshOk(db, x);
    case Revoke(_, _) => assert RevokeOk(db, x);
    case Approve(_, _, _) => assert ApproveOk(db, s.limits, x);
    case SetStatus(_, _) => assert StatusOk(db, x);
  }

  /** What a status change waits for once it holds its user row: a session of that user. */
  lemma StatusAwaits(s: State, u: TxId, r: Row)
    requires Inv(s) && u in s.txs && s.txs[u].job.SetStatus? && r in Awaits(s.db, s.txs[u])
    requires s.txs[u].locks != {}
    ensures r.SessionRow? && r.session in s.db.sessions && s.db.sessions[r.session].owner.user == s.txs[u].job.user
    ensures UserRow(s.txs[u].job.user) in s.txs[u].locks
  {
    assert TxOk(s.db, s.limits, s.txs[u]);
  }

  lemma AwaitsOne(db: Db, x: Tx, r: Row, q: Row)
    requires r in Awaits(db, x) && q in Awaits(db, x)
    ensures r == q
  {
  }

  /** Two status changes that meet on a session are of the same user, and the user's row keeps them apart. */
  lemma StatusChangesNeverMeet(s: State, t: TxId, u: TxId, r: Row)
    requires Inv(s) && t in s.txs && u in s.txs && t != u
    requires s.txs[t].job.SetStatus? && r.SessionRow? && r in Awaits(s.db, s.txs[t]) && r in s.txs[u].locks
    ensures !s.txs[u].job.SetStatus?
  {
    assert TxOk(s.db, s.limits, s.txs[t]) && TxOk(s.db, s.limits, s.txs[u]);
    StatusAwaits(s, t, r);
  }

  /** Along every edge of the wait-for graph the height falls, so the graph has no cycle. */
  lemma WaitingDescends(s: State, t: TxId, u: TxId)
    requires Inv(s) && WaitsFor(s, t, u)
    ensures Height(s, u) < Height(s, t)
  {
    var r :| r in Awaits(s.db, s.txs[t]) && r in s.txs[u].locks;
    assert HeldByOther(s, t, r);
    assert Blocked(s, t);
    Holders(s, u, r);
    if Blocked(s, u) {
      var q :| q in Awaits(s.db, s.txs[u]) && HeldByOther(s, u, q);
      var w :| w != u && w in s.txs && q in s.txs[w].locks;
      assert q !in s.txs[u].locks;
      LocksRise(s, u, q, r);
      forall r' | r' in Awaits(s.db, s.txs[t]) ensures r' == r { AwaitsOne(s.db, s.txs[t], r', r); }
      forall q' | q' in Awaits(s.db, s.txs[u]) ensures q' == q { AwaitsOne(s.db, s.txs[u], q', q); }
      if r.SessionRow? || r.RequestRow? { SessionHoldersRun(s, u, r); }
      if s.txs[u].job.SetStatus? {
        StatusAwaits(s, u, q);
        if s.txs[t].job.SetStatus? && r.SessionRow? {
          StatusChangesNeverMeet(s, t, u, r);
        }
      }
    }
  }

  /** An unfinished transaction that is not waiting can execute its next statement, without raising an error. */
  lemma UnblockedCanStep(s: State, t: TxId)
    requires Inv(s) && t in s.txs && !s.txs[t].phase.Done? && !Blocked(s, t)
    ensures exists c: Choice :: !c.fails && Enabled(s, t, c)
  {
    var c := HonestChoice(s.db, s.txs[t]);
    HonestChoiceEnables(s, t, c);
  }

  lemma HonestChoiceEnables(s: State, t: TxId, c: Choice)
    requires t in s.txs && !s.txs[t].phase.Done? && !Blocked(s, t) && Honest(s.db, s.txs[t], c)
    ensures Enabled(s, t, c)
  {
    hide Blocked, ScanOrder, SeenSessions, ActiveOn, StaleRows, ActiveRows;
  }

  /** c answers the scans of x's next statement as the database may. */
  ghost predicate Honest(db: Db, x: Tx, c: Choice) {
    && (x.job.CreateOrReuse? ==> HonestScans(db, x, c))
    && (x.job.SetStatus? && x.phase.StatusSnapshot? ==> ScanOrder(c.order, ActiveRows(db.sessions, x.job.user)))
  }

  lemma HonestChoice(db: Db, x: Tx) returns (c: Choice)
    ensures Honest(db, x, c) && !c.fails
  {
    c := Choice(false, [], 0, 0);
    if x.job.CreateOrReuse? && x.phase.CreateEvaluate? {
      var order := SomeOrder(StaleRows(db.sessions, x.job.owner, x.job.device, x.job.now));
      c := Choice(false, order, 0, 0);
    } else if x.job.CreateOrReuse? && x.phase.CreateFind? {
      if k :| ActiveOn(SeenSessions(db, x), k, x.job.owner, x.job.device) {
        c := Choice(false, [], k, 0);
      }
    } else if x.job.SetStatus? && x.phase.StatusSnapshot? {
      var order := SomeOrder(ActiveRows(db.sessions, x.job.user));
      c := Choice(false, order, 0, 0);
    }
    hide ScanOrder, SeenSessions, ActiveOn, StaleRows, ActiveRows;
  }

  lemma SomeOrder(selected: set<SessionId>) returns (order: seq<SessionId>)
    ensures ScanOrder(order, selected)
  {
    order := [];
    var rest := selected;
    while rest != {}
      invariant rest <= selected
      invariant ScanOrder(order, selected - rest)
    {
      var k :| k in rest;
      order := order + [k];
      rest := rest - {k};
    }
  }

  /** From any unfinished transaction, following who waits for whom leads to one that can step. */
  lemma {:induction false} SomeoneCanStep(s: State, t: TxId) returns (u: TxId, c: Choice)
    requires Inv(s) && t in s.txs && !s.txs[t].phase.Done?
    ensures Enabled(s, u, c) && !c.fails
    decreases Height(s, t)
  {
    if Blocked(s, t) {
      var r :| r in Awaits(s.db, s.txs[t]) && HeldByOther(s, t, r);
      var w :| w != t && w in s.txs && r in s.txs[w].locks;
      assert WaitsFor(s, t, w);
      WaitingDescends(s, t, w);
      assert TxOk(s.db, s.limits, s.txs[w]);
      u, c := SomeoneCanStep(s, w);
    } else {
      UnblockedCanStep(s, t);
      u := t;
      c :| !c.fails && Enabled(s, t, c);
    }
  }

  /**
   No interleaving of any number of calls ever deadlocks: while a call is unfinished, some call can
   execute its next statement, and it need not raise an error to do so.
   */
  lemma NoDeadlock(run: seq<State>, i: nat, t: TxId)
    requires Run(run) && i < |run| && t in run[i].txs && !run[i].txs[t].phase.Done?
    ensures exists u, c :: Enabled(run[i], u, c) && !c.fails
  {
    RunKeepsInv(run, i);
    var u, c := SomeoneCanStep(run[i], t);
  }

  // ---------------------------------------------------------------------------------------------
  // No call runs for ever
  // ---------------------------------------------------------------------------------------------

  function Position(p: Phase): nat {
    match p
    case CreateLockDevice => 0
    case CreateEvaluate => 1
    case CreateExpire(_) => 2
    case CreateFind => 3
    case CreateReuse(_) => 4
    case CreateInsert => 4
    case RefreshObserve => 0
    case RefreshLockDevice(_) => 1
    case RefreshLockSession(_) => 2
    case RefreshUpdate(_) => 3
    case RevokeLock => 0
    case RevokeWrite => 1
    case ApproveLockMembership => 0
    case ApproveLockDevice => 1
    case ApproveCount => 2
    case ApproveLockRequest => 3
    case ApproveWrite => 4
    case StatusLockUser => 0
    case StatusSnapshot => 1
    case StatusRevoke(_) => 2
    case Ready => 5
    case Done(_) => 6
  }

  function Left(p: Phase): nat {
    match p
    case CreateExpire(todo) => |todo|
    case StatusRevoke(todo) => |todo|
    case _ => 0
  }

  /** Each step moves its transaction forward, and no other transaction at all; `Done` is at the end. */
  lemma EveryStepAdvances(s: State, t: TxId, c: Choice)
    requires Enabled(s, t, c)
    ensures Advances(s.txs[t].phase, Next(s, t, c).txs[t].phase)
    ensures forall u :: u in s.txs && u != t ==> Next(s, t, c).txs[u] == s.txs[u]
  {
    var x := s.txs[t];
    if !c.fails && !x.phase.Ready? {
      match x.job
      case CreateOrReuse(_, _, _, _) => CreateAdvances(s.db, x, c);
      case Refresh(_, _, _) => RefreshAdvances(s.db, x, c);
      case Revoke(_, _) => RevokeAdvances(s.db, x);
      case Approve(_, _, _) => ApproveAdvances(s.db, s.limits, x);
      case SetStatus(_, _) => StatusAdvances(s.db, x, c);
    }
    hide CreateStep, RefreshStep, RevokeStep, ApproveStep, StatusStep;
  }

  predicate Advances(p: Phase, p': Phase) {
    Position(p') > Position(p) || (Position(p') == Position(p) && Left(p') < Left(p))
  }

  lemma CreateAdvances(db: Db, x: Tx, c: Choice)
    requires x.job.CreateOrReuse? && !x.phase.Ready? && !x.phase.Done?
    ensures Advances(x.phase, CreateStep(db, x, c).phase)
  {
    hide Stale, ActiveOn, SeenSessions;
  }

  lemma RefreshAdvances(db: Db, x: Tx, c: Choice)
    requires x.job.Refresh? && !x.phase.Ready? && !x.phase.Done?
    ensures Advances(x.phase, RefreshStep(db, x, c).phase)
  {
    hide ActiveOn, OwnedSession, DeviceIs;
  }

  lemma RevokeAdvances(db: Db, x: Tx)
    requires x.job.Revoke? && !x.phase.Ready? && !x.phase.Done?
    ensures Advances(x.phase, RevokeStep(db, x).phase)
  {
    hide OwnedSession;
  }

  lemma ApproveAdvances(db: Db, limits: map<TenantId, nat>, x: Tx)
    requires x.job.Approve? && !x.phase.Ready? && !x.phase.Done?
    ensures Advances(x.phase, ApproveStep(db, limits, x).phase)
  {
    hide ActiveDevices, DeviceIs, RequestIs;
  }

  lemma StatusAdvances(db: Db, x: Tx, c: Choice)
    requires x.job.SetStatus? && !x.phase.Ready? && !x.phase.Done?
    ensures Advances(x.phase, StatusStep(db, x, c).phase)
  {
    hide ActiveOf;
  }
}
