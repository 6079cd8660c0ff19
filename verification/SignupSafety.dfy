/**
 What every interleaving of self-onboarding calls keeps: one terminal move per attempt, a user exactly
 for each COMPLETED attempt, no two live attempts for one e-mail or mobile, and no row lock while the
 provider is being called.
 */
module SignupSafety {
  import opened Options
  import opened Signup

  // ---------------------------------------------------------------------------------------------
  // Invariants
  // ---------------------------------------------------------------------------------------------

  /** Two live attempts never share an e-mail address or a mobile number. */
  ghost predicate LiveAttemptsDiffer(db: Db) {
    forall a, b :: Live(db, a) && Live(db, b) && a != b ==>
      db.attempts[a].email != db.attempts[b].email && db.attempts[a].mobile != db.attempts[b].mobile
  }

  /** u is the user a signup attempt created. */
  ghost predicate CreatedBy(db: Db, u: UserId, a: AttemptId) {
    u in db.users && db.users[u].attempt == Some(a)
  }

  ghost predicate CompletedAttempt(db: Db, a: AttemptId) {
    a in db.attempts && db.attempts[a].status.Completed?
  }

  /** Exactly the COMPLETED attempts have a user, each just one, with the attempt's e-mail, mobile and Clerk id. */
  ghost predicate UsersMatchAttempts(db: Db) {
    && (forall u, a :: CreatedBy(db, u, a) ==>
          && CompletedAttempt(db, a)
          && db.users[u].email == Some(db.attempts[a].email) && db.users[u].mobile == Some(db.attempts[a].mobile)
          && db.users[u].clerk == db.attempts[a].clerk && db.users[u].clerk.Some?)
    && (forall a :: CompletedAttempt(db, a) ==> exists u :: CreatedBy(db, u, a))
    && (forall u, v, a :: CreatedBy(db, u, a) && CreatedBy(db, v, a) ==> u == v)
  }

  /** The unique indexes on users and Clerk identities. */
  ghost predicate UsersDiffer(db: Db) {
    forall u, v :: u in db.users && v in db.users && u != v ==>
      && (db.users[u].email.Some? ==> db.users[u].email != db.users[v].email)
      && (db.users[u].mobile.Some? ==> db.users[u].mobile != db.users[v].mobile)
      && (db.users[u].clerk.Some? ==> db.users[u].clerk != db.users[v].clerk)
  }

  ghost predicate DbOk(db: Db) {
    LiveAttemptsDiffer(db) && UsersMatchAttempts(db) && UsersDiffer(db)
  }

  /** Pending writes are to locked rows that are still live, and change their status or Clerk id only. */
  ghost predicate WritesOk(db: Db, x: Call) {
    forall a :: a in x.writes ==>
      && a in x.locks && Live(db, a)
      && x.writes[a].email == db.attempts[a].email && x.writes[a].mobile == db.attempts[a].mobile
      && (x.writes[a].status.Authorized? || x.writes[a].clerk == db.attempts[a].clerk)
      && (x.writes[a].status.Completed? ==> x.phase.VerifyCommit? && x.newUser.Some?)
  }

  /**
   Between locking the attempt and committing, a verify call holds the row, which is live with the verified
   Clerk id.
   */
  ghost predicate HoldsVerified(db: Db, x: Call, clerk: ClerkId) {
    x.job.Verify? && x.job.attempt in x.locks && Live(db, x.job.attempt)
      && db.attempts[x.job.attempt].clerk == Some(clerk)
  }

  ghost predicate PhaseOk(db: Db, x: Call) {
    match x.phase
    case VerifyCheckRegistered(clerk) => HoldsVerified(db, x, clerk) && x.writes == map[] && x.newUser.None?
    case VerifyWrite(clerk) => HoldsVerified(db, x, clerk) && x.writes == map[] && x.newUser.None?
    case VerifyCommit(clerk) =>
      && HoldsVerified(db, x, clerk)
      && var row := db.attempts[x.job.attempt];
      && x.writes == map[x.job.attempt := row.(status := Completed)]
      && x.newUser == Some(User(Some(row.email), Some(row.mobile), Some(clerk), Some(x.job.attempt)))
    case VerifyLockedExpire => x.job.Verify? && x.job.attempt in x.locks && x.writes == map[] && x.newUser.None?
    case StartExpireCommit => x.newUser.None?
    case StartSaveCommit(_) => x.newUser.None?
    case StartCancelCommit(_) => x.newUser.None?
    case VerifyExpireCommit => x.newUser.None?
    case _ => x.locks == {} && x.writes == map[] && x.newUser.None?
  }

  ghost predicate CallOk(db: Db, x: Call) {
    WritesOk(db, x) && PhaseOk(db, x)
  }

  ghost predicate LocksExclusive(s: State) {
    forall c, d :: c in s.calls && d in s.calls && c != d ==> s.calls[c].locks !! s.calls[d].locks
  }

  ghost predicate Inv(s: State) {
    && DbOk(s.db) && LocksExclusive(s)
    && forall c :: c in s.calls ==> CallOk(s.db, s.calls[c])
  }

  // ---------------------------------------------------------------------------------------------
  // How the tables move
  // ---------------------------------------------------------------------------------------------

  /** No attempt disappears, a terminal one never changes, and nothing is ever un-registered. */
  ghost predicate Grows(was: Db, db: Db) {
    && (forall a :: a in was.attempts ==>
          && a in db.attempts && db.attempts[a].email == was.attempts[a].email
             && db.attempts[a].mobile == was.attempts[a].mobile
          && (!was.attempts[a].status.Authorized? ==> db.attempts[a] == was.attempts[a]))
    && (forall a :: a in db.attempts && a !in was.attempts ==> db.attempts[a].status.Authorized?)
    && (forall u :: u in was.users ==> u in db.users && db.users[u] == was.users[u])
  }

  /** Rows outside `rows` are the same. */
  ghost predicate KeepsRows(was: Db, db: Db, rows: set<AttemptId>) {
    forall a :: a in was.attempts && a !in rows ==> a in db.attempts && db.attempts[a] == was.attempts[a]
  }

  /** Another call's assumptions survive a commit that leaves its locked rows alone. */
  lemma OthersUnharmed(before: Db, after: Db, rows: set<AttemptId>, y: Call)
    requires CallOk(before, y) && KeepsRows(before, after, rows) && y.locks !! rows
    ensures CallOk(after, y)
  {}

  /** Installing writes that make no attempt live and complete none. */
  lemma InstallKeepsDb(db: Db, x: Call)
    requires DbOk(db) && WritesOk(db, x) && (forall a :: a in x.writes ==> !x.writes[a].status.Completed?)
    ensures DbOk(Install(db, x.writes)) && Grows(db, Install(db, x.writes))
            && KeepsRows(db, Install(db, x.writes), x.locks)
  {
    var after := Install(db, x.writes);
    forall a ensures CompletedAttempt(after, a) <==> CompletedAttempt(db, a) {}
    forall a | CompletedAttempt(db, a) ensures after.attempts[a] == db.attempts[a] {}
    forall u, a ensures CreatedBy(after, u, a) <==> CreatedBy(db, u, a) {}
    forall a | Live(after, a) ensures Live(db, a) && after.attempts[a].email == db.attempts[a].email
      && after.attempts[a].mobile == db.attempts[a].mobile {}
    assert forall a :: CompletedAttempt(after, a) ==> exists u :: CreatedBy(db, u, a) && CreatedBy(after, u, a);
  }

  lemma InsertKeepsDb(db: Db, a: AttemptId, row: Attempt)
    requires DbOk(db) && a !in db.attempts && row.status.Authorized? && !LiveAttemptFor(db, row.email, row.mobile)
    ensures var after := db.(attempts := db.attempts[a := row]);
            DbOk(after) && Grows(db, after) && KeepsRows(db, after, {})
  {
    var after := db.(attempts := db.attempts[a := row]);
    forall u, b ensures CreatedBy(after, u, b) <==> CreatedBy(db, u, b) {}
    forall b ensures CompletedAttempt(after, b) <==> CompletedAttempt(db, b) {}
    assert forall b :: CompletedAttempt(after, b) ==> exists u :: CreatedBy(db, u, b) && CreatedBy(after, u, b);
  }

  /** The commit that completes an attempt adds its one user. */
  lemma CompleteKeepsDb(db: Db, a: AttemptId, u: UserId, clerk: ClerkId)
    requires DbOk(db) && Live(db, a) && db.attempts[a].clerk == Some(clerk) && u !in db.users
    requires !Registered(db, db.attempts[a].email, db.attempts[a].mobile) && !ClerkRegistered(db, clerk)
    ensures var row := db.attempts[a];
            var after := Db(db.attempts + map[a := row.(status := Completed)],
                            db.users[u := User(Some(row.email), Some(row.mobile), Some(clerk), Some(a))]);
            DbOk(after) && Grows(db, after) && KeepsRows(db, after, {a})
  {
    var row := db.attempts[a];
    var after := Db(db.attempts + map[a := row.(status := Completed)],
                    db.users[u := User(Some(row.email), Some(row.mobile), Some(clerk), Some(a))]);
    assert !CompletedAttempt(db, a);
    assert CreatedBy(after, u, a);
    forall v, b ensures CreatedBy(after, v, b) <==> CreatedBy(db, v, b) || (v == u && b == a) {}
    forall b ensures CompletedAttempt(after, b) <==> CompletedAttempt(db, b) || b == a {}
    forall b | CompletedAttempt(db, b) ensures exists v :: CreatedBy(after, v, b) {
      var v :| CreatedBy(db, v, b);
      assert CreatedBy(after, v, b);
    }
  }

  // ---------------------------------------------------------------------------------------------
  // Steps
  // ---------------------------------------------------------------------------------------------

  lemma ReleasedIsOk(db: Db, x: Call, p: Phase)
    requires !p.VerifyCheckRegistered? && !p.VerifyWrite? && !p.VerifyCommit? && !p.VerifyLockedExpire?
    ensures CallOk(db, Release(x, p))
  {}

  lemma StartStepIsOk(db: Db, x: Call, c: Choice)
    requires CallOk(db, x) && x.job.Start? && !Commits(x.phase)
    ensures CallOk(db, StartStep(db, x, c))
    ensures StartStep(db, x, c).locks <= x.locks + Needs(db, x)
  {
    hide Registered, LiveAttemptFor;
  }

  lemma VerifyWriteIsOk(db: Db, x: Call, c: Choice)
    requires CallOk(db, x) && x.job.Verify? && x.phase.VerifyWrite?
    ensures CallOk(db, VerifyStep(db, x, c)) && VerifyStep(db, x, c).locks <= x.locks
  {}

  lemma VerifyLockIsOk(db: Db, x: Call, c: Choice)
    requires CallOk(db, x) && x.job.Verify? && x.phase.VerifyLock?
    ensures CallOk(db, VerifyStep(db, x, c)) && VerifyStep(db, x, c).locks <= {x.job.attempt}
  {}

  lemma VerifyExpireIsOk(db: Db, x: Call, c: Choice)
    requires CallOk(db, x) && x.job.Verify? && (x.phase.VerifyExpire? || x.phase.VerifyLockedExpire?)
    ensures CallOk(db, VerifyStep(db, x, c)) && VerifyStep(db, x, c).locks <= x.locks + Needs(db, x)
  {
    hide Registered, ClerkRegistered, Completable;
  }

  lemma VerifyReadIsOk(db: Db, x: Call, c: Choice)
    requires CallOk(db, x) && x.job.Verify? && !Commits(x.phase)
    requires !x.phase.VerifyWrite? && !x.phase.VerifyLock? && !x.phase.VerifyExpire? && !x.phase.VerifyLockedExpire?
    ensures CallOk(db, VerifyStep(db, x, c)) && VerifyStep(db, x, c).locks <= x.locks
  {
    hide Registered, ClerkRegistered, Completable;
  }

  lemma VerifyStepIsOk(db: Db, x: Call, c: Choice)
    requires CallOk(db, x) && x.job.Verify? && !Commits(x.phase)
    ensures CallOk(db, VerifyStep(db, x, c))
    ensures VerifyStep(db, x, c).locks <= x.locks + Needs(db, x)
  {
    hide CallOk, VerifyStep, Commits;
    match x.phase
    case VerifyWrite(_) => VerifyWriteIsOk(db, x, c);
    case VerifyLock(_) => VerifyLockIsOk(db, x, c);
    case VerifyExpire => VerifyExpireIsOk(db, x, c);
    case VerifyLockedExpire => VerifyExpireIsOk(db, x, c);
    case _ => VerifyReadIsOk(db, x, c);
  }

  lemma CommitIsOk(db: Db, x: Call)
    requires DbOk(db) && CallOk(db, x) && Commit(db, x).Some?
    ensures var (after, p) := Commit(db, x).value;
            && DbOk(after) && Grows(db, after) && KeepsRows(db, after, x.locks)
            && !p.VerifyCheckRegistered? && !p.VerifyWrite? && !p.VerifyCommit? && !p.VerifyLockedExpire?
  {
    hide DbOk, LiveAttemptFor, Registered, ClerkRegistered, Grows, KeepsRows;
    match x.phase
    case StartInsert => InsertKeepsDb(db, x.job.attempt,
        Attempt(x.job.email, x.job.mobile, Authorized, x.job.now + ATTEMPT_TTL, None));
      KeepsMore(db, Commit(db, x).value.0, {}, x.locks);
    case VerifyCommit(clerk) =>
      CompleteKeepsDb(db, x.job.attempt, x.job.user, clerk);
      KeepsMore(db, Commit(db, x).value.0, {x.job.attempt}, x.locks);
    case _ => InstallKeepsDb(db, x);
  }

  lemma KeepsMore(before: Db, after: Db, rows: set<AttemptId>, more: set<AttemptId>)
    requires KeepsRows(before, after, rows) && rows <= more
    ensures KeepsRows(before, after, more)
  {}

  /** A call that takes only rows nobody else holds keeps the locks exclusive. */
  lemma LocksStayExclusive(s: State, k: CallId, y: Call)
    requires LocksExclusive(s) && Enabled(s, k) && y.locks <= s.calls[k].locks + Needs(s.db, s.calls[k])
    ensures LocksExclusive(State(s.db, s.calls[k := y]))
  {
    forall d | d in s.calls && d != k ensures s.calls[d].locks !! y.locks {
      forall a | a in y.locks ensures a !in s.calls[d].locks {
        if a in Needs(s.db, s.calls[k]) {
          assert !HeldByOther(s, k, a);
        }
      }
    }
  }

  lemma StepKeepsInv(s: State, k: CallId, c: Choice)
    requires Inv(s) && Enabled(s, k)
    ensures Inv(Next(s, k, c)) && Grows(s.db, Next(s, k, c).db)
  {
    hide DbOk, CallOk, StartStep, VerifyStep, Commit, Needs, Commits, HeldByOther;
    var x, s' := s.calls[k], Next(s, k, c);
    assert Grows(s.db, s.db);
    if s'.db == s.db {
      assert CallOk(s.db, x);
      if !c.crashes && !c.raises && !Commits(x.phase) {
        if x.job.Start? { StartStepIsOk(s.db, x, c); } else { VerifyStepIsOk(s.db, x, c); }
      } else if !c.crashes && !c.raises && Commit(s.db, x).Some? {
        CommitIsOk(s.db, x);
        ReleasedIsOk(s.db, x, Commit(s.db, x).value.1);
      } else {
        ReleasedIsOk(s.db, x, s'.calls[k].phase);
      }
      LocksStayExclusive(s, k, s'.calls[k]);
    } else {
      CommitIsOk(s.db, x);
      ReleasedIsOk(s'.db, x, Commit(s.db, x).value.1);
      LocksStayExclusive(s, k, s'.calls[k]);
      forall d | d in s.calls && d != k ensures CallOk(s'.db, s.calls[d]) {
        OthersUnharmed(s.db, s'.db, x.locks, s.calls[d]);
      }
    }
  }

  // ---------------------------------------------------------------------------------------------
  // Runs
  // ---------------------------------------------------------------------------------------------

  /** A new call may begin at any time under a new id; otherwise some enabled call takes a step. */
  ghost predicate Moves(s: State, s': State) {
    || (exists k, job :: k !in s.calls && s' == s.(calls := s.calls[k := Begin(job)]))
    || (exists k, c :: Enabled(s, k) && s' == Next(s, k, c))
  }

  ghost predicate Run(states: seq<State>) {
    states != [] && forall i :: 0 <= i < |states| - 1 ==> Moves(states[i], states[i + 1])
  }

  lemma MoveKeepsInv(s: State, s': State)
    requires Inv(s) && Moves(s, s')
    ensures Inv(s') && Grows(s.db, s'.db)
  {
    hide DbOk, CallOk, Next;
    if k, c :| Enabled(s, k) && s' == Next(s, k, c) {
      StepKeepsInv(s, k, c);
    } else {
      var k, job :| k !in s.calls && s' == s.(calls := s.calls[k := Begin(job)]);
      BeginIsOk(s.db, job);
    }
  }

  lemma BeginIsOk(db: Db, job: Job)
    ensures CallOk(db, Begin(job))
  {}

  /** Every reachable state satisfies the invariants. */
  lemma {:induction false} EveryRunIsSafe(states: seq<State>, i: nat)
    requires Run(states) && Inv(states[0]) && i < |states|
    ensures Inv(states[i])
  {
    hide Inv, Moves;
    if i > 0 {
      EveryRunIsSafe(states, i - 1);
      MoveKeepsInv(states[i - 1], states[i]);
    }
  }

  /** An attempt leaves AUTHORIZED_FOR_CLERK at most once: whatever terminal row it reaches is its last. */
  lemma {:induction false} TerminalIsFinal(states: seq<State>, i: nat, j: nat, a: AttemptId)
    requires Run(states) && Inv(states[0]) && i <= j < |states| && a in states[i].db.attempts
    ensures a in states[j].db.attempts
    ensures !states[i].db.attempts[a].status.Authorized? ==> states[j].db.attempts[a] == states[i].db.attempts[a]
    decreases j
  {
    hide Inv, Moves;
    if i < j {
      TerminalIsFinal(states, i, j - 1, a);
      EveryRunIsSafe(states, j - 1);
      MoveKeepsInv(states[j - 1], states[j]);
    }
  }

  /** Racing verifies of one attempt create one user, and it has one exactly when it is COMPLETED. */
  lemma OneUserPerCompletedAttempt(states: seq<State>, i: nat, a: AttemptId)
    requires Run(states) && Inv(states[0]) && i < |states|
    ensures CompletedAttempt(states[i].db, a) <==> exists u :: CreatedBy(states[i].db, u, a)
    ensures forall u, v :: CreatedBy(states[i].db, u, a) && CreatedBy(states[i].db, v, a) ==> u == v
  {
    EveryRunIsSafe(states, i);
  }

  /** No call holds a row lock, or unsaved writes, while it waits for the provider. */
  lemma NoLockAcrossProviderCalls(states: seq<State>, i: nat, k: CallId)
    requires Run(states) && Inv(states[0]) && i < |states| && k in states[i].calls
    ensures AtProvider(states[i].calls[k].phase) ==>
              states[i].calls[k].locks == {} && states[i].calls[k].writes == map[]
  {
    hide DbOk;
    EveryRunIsSafe(states, i);
    assert CallOk(states[i].db, states[i].calls[k]);
  }
}
