/**
 Where attempts, Clerk ids and users come from: runs of self-onboarding calls that keep the choices of every
 step, and what must have happened earlier in them.
 */
module SignupTraces {
  import opened Options
  import opened Signup
  import opened SignupSafety

  /** A call begins, or takes its next step under these choices of its surroundings. */
  datatype Move = Begins(call: CallId, job: Job) | Steps(call: CallId, choice: Choice)

  ghost predicate Leads(s: State, m: Move, s': State) {
    match m
    case Begins(k, job) => k !in s.calls && s' == s.(calls := s.calls[k := Begin(job)])
    case Steps(k, c) => Enabled(s, k) && s' == Next(s, k, c)
  }

  /** states[0] has no calls yet, and moves[i] leads from states[i] to states[i + 1]. */
  ghost predicate Trace(states: seq<State>, moves: seq<Move>) {
    && |states| == |moves| + 1
    && Inv(states[0]) && states[0].calls == map[]
    && forall i :: 0 <= i < |moves| ==> Leads(states[i], moves[i], states[i + 1])
  }

  lemma MoveLeads(s: State, s': State) returns (m: Move)
    requires Moves(s, s')
    ensures Leads(s, m, s')
  {
    hide Next;
    if k, c :| Enabled(s, k) && s' == Next(s, k, c) {
      m := Steps(k, c);
    } else {
      var k, job :| k !in s.calls && s' == s.(calls := s.calls[k := Begin(job)]);
      m := Begins(k, job);
    }
  }

  /** Keeping the choices loses no run. */
  lemma {:induction false} EveryRunIsATrace(states: seq<State>) returns (moves: seq<Move>)
    requires Run(states) && Inv(states[0]) && states[0].calls == map[]
    ensures Trace(states, moves)
  {
    hide Inv, Leads, Moves;
    moves := [];
    if |states| > 1 {
      var n := |states| - 1;
      var earlier := EveryRunIsATrace(states[..n]);
      var last := MoveLeads(states[n - 1], states[n]);
      moves := earlier + [last];
      assert Trace(states[..n], earlier);
      forall i | 0 <= i < |moves| ensures Leads(states[i], moves[i], states[i + 1]) {
        if i < n - 1 {
          assert Leads(states[..n][i], earlier[i], states[..n][i + 1]);
        }
      }
    }
  }

  lemma TraceIsRun(states: seq<State>, moves: seq<Move>)
    requires Trace(states, moves)
    ensures Run(states) && Inv(states[0])
  {
    hide Inv, Enabled, Next;
    forall i | 0 <= i < |moves| ensures Moves(states[i], states[i + 1]) {
      assert Leads(states[i], moves[i], states[i + 1]);
    }
  }

  // ---------------------------------------------------------------------------------------------
  // Steps of a call that go as planned
  // ---------------------------------------------------------------------------------------------

  /** Move i is a step of call k, which neither raises nor crashes. */
  ghost predicate Succeeds(states: seq<State>, moves: seq<Move>, i: int, k: CallId)
    requires |states| == |moves| + 1
  {
    && 0 <= i < |moves| && moves[i].Steps? && moves[i].call == k && k in states[i].calls
    && !moves[i].choice.raises && !moves[i].choice.crashes
  }

  function CallAt(states: seq<State>, i: int, k: CallId): Call
    requires 0 <= i < |states| && k in states[i].calls
  {
    states[i].calls[k]
  }

  /** The provider accepts the code of call k, which verifies attempt a under this Clerk id. */
  ghost predicate AcceptsAt(states: seq<State>, moves: seq<Move>, i: int, k: CallId, a: AttemptId, clerk: ClerkId)
    requires |states| == |moves| + 1
  {
    && Succeeds(states, moves, i, k) && moves[i].choice.accepted
    && CallAt(states, i, k).phase == VerifyAskProvider(clerk)
    && CallAt(states, i, k).job.Verify? && CallAt(states, i, k).job.attempt == a
  }

  /** Call k locks attempt a, which is live, unexpired and carries the Clerk id. */
  ghost predicate LocksAt(states: seq<State>, moves: seq<Move>, i: int, k: CallId, a: AttemptId, clerk: ClerkId)
    requires |states| == |moves| + 1
  {
    && Succeeds(states, moves, i, k)
    && CallAt(states, i, k).phase == VerifyLock(clerk)
    && a in states[i].db.attempts
    && var row := states[i].db.attempts[a];
    && row.status == Authorized && row.clerk == Some(clerk) && moves[i].choice.now < row.expiresAt
  }

  /** Call k commits the completion of attempt a. */
  ghost predicate CompletesAt(states: seq<State>, moves: seq<Move>, i: int, k: CallId, a: AttemptId, clerk: ClerkId)
    requires |states| == |moves| + 1
  {
    && Succeeds(states, moves, i, k)
    && CallAt(states, i, k).phase == VerifyCommit(clerk)
    && CallAt(states, i, k).job.Verify? && CallAt(states, i, k).job.attempt == a
  }

  // ---------------------------------------------------------------------------------------------
  // One step of the verifying call
  // ---------------------------------------------------------------------------------------------

  lemma JobStays(s: State, k: CallId, c: Choice)
    requires Enabled(s, k)
    ensures k in Next(s, k, c).calls && Next(s, k, c).calls[k].job == s.calls[k].job
    ensures forall d :: d in s.calls && d != k ==> d in Next(s, k, c).calls && Next(s, k, c).calls[d] == s.calls[d]
    ensures Next(s, k, c).calls.Keys == s.calls.Keys
  {
    hide Registered, LiveAttemptFor, Completable, ClerkRegistered, ClerkTaken, HeldByOther;
  }

  predicate Verified(p: Phase) { p.VerifyCheckRegistered? || p.VerifyWrite? || p.VerifyCommit? }

  /** A call gets to lock its attempt only from the provider's acceptance. */
  lemma ToLock(s: State, k: CallId, c: Choice)
    requires Enabled(s, k) && Next(s, k, c).calls[k].phase.VerifyLock?
    ensures !c.raises && !c.crashes && c.accepted && s.calls[k].job.Verify?
    ensures s.calls[k].phase == VerifyAskProvider(Next(s, k, c).calls[k].phase.clerk)
  {
    hide Registered, LiveAttemptFor, Completable, ClerkRegistered, ClerkTaken, HeldByOther;
  }

  /** And past the lock only from the lock, or from a statement that comes after it. */
  lemma PastLock(s: State, k: CallId, c: Choice)
    requires Enabled(s, k) && Verified(Next(s, k, c).calls[k].phase)
    ensures !c.raises && !c.crashes && s.calls[k].job.Verify?
    ensures var clerk := Next(s, k, c).calls[k].phase.clerk;
            var a := s.calls[k].job.attempt;
            || (Verified(s.calls[k].phase) && s.calls[k].phase.clerk == clerk)
            || (s.calls[k].phase == VerifyLock(clerk) && a in s.db.attempts && s.db.attempts[a].status == Authorized
                && s.db.attempts[a].clerk == Some(clerk) && c.now < s.db.attempts[a].expiresAt)
  {
    hide Registered, LiveAttemptFor, ClerkRegistered, ClerkTaken, HeldByOther;
  }

  // ---------------------------------------------------------------------------------------------
  // A completed attempt was verified
  // ---------------------------------------------------------------------------------------------

  ghost predicate Accepted(states: seq<State>, moves: seq<Move>, i: int, k: CallId, a: AttemptId, clerk: ClerkId)
    requires |states| == |moves| + 1
  {
    exists j :: 0 <= j < i && AcceptsAt(states, moves, j, k, a, clerk)
  }

  ghost predicate Locked(states: seq<State>, moves: seq<Move>, i: int, k: CallId, a: AttemptId, clerk: ClerkId)
    requires |states| == |moves| + 1
  {
    exists l :: 0 <= l < i && LocksAt(states, moves, l, k, a, clerk) && Accepted(states, moves, l, k, a, clerk)
  }

  /** What a verifying call must have gone through to be where it is. */
  ghost predicate Earned(states: seq<State>, moves: seq<Move>, i: int, k: CallId)
    requires |states| == |moves| + 1 && 0 <= i < |states| && k in states[i].calls
  {
    var x := states[i].calls[k];
    && (x.phase.VerifyLock? ==> x.job.Verify? && Accepted(states, moves, i, k, x.job.attempt, x.phase.clerk))
    && (Verified(x.phase) ==> x.job.Verify? && Locked(states, moves, i, k, x.job.attempt, x.phase.clerk))
  }

  lemma EarnedLater(states: seq<State>, moves: seq<Move>, i: int, k: CallId)
    requires |states| == |moves| + 1 && 0 <= i < |moves| && k in states[i].calls && k in states[i + 1].calls
    requires Earned(states, moves, i, k) && states[i + 1].calls[k] == states[i].calls[k]
    ensures Earned(states, moves, i + 1, k)
  {
    var x := states[i].calls[k];
    if x.phase.VerifyLock? {
      var j :| 0 <= j < i && AcceptsAt(states, moves, j, k, x.job.attempt, x.phase.clerk);
      assert j < i + 1;
    }
    if Verified(x.phase) {
      var l :| 0 <= l < i && LocksAt(states, moves, l, k, x.job.attempt, x.phase.clerk)
        && Accepted(states, moves, l, k, x.job.attempt, x.phase.clerk);
      assert l < i + 1;
    }
    hide AcceptsAt, LocksAt, Accepted;
  }

  lemma StepEarns(states: seq<State>, moves: seq<Move>, i: int)
    requires |states| == |moves| + 1 && 0 <= i < |moves| && moves[i].Steps?
    requires Leads(states[i], moves[i], states[i + 1]) && Earned(states, moves, i, moves[i].call)
    ensures moves[i].call in states[i + 1].calls && Earned(states, moves, i + 1, moves[i].call)
  {
    var k, c, s := moves[i].call, moves[i].choice, states[i];
    JobStays(s, k, c);
    var x, y := s.calls[k], states[i + 1].calls[k];
    hide Next, Enabled;
    if y.phase.VerifyLock? {
      ToLock(s, k, c);
      assert AcceptsAt(states, moves, i, k, x.job.attempt, y.phase.clerk);
    }
    if Verified(y.phase) {
      PastLock(s, k, c);
      if Verified(x.phase) {
        var l :| 0 <= l < i && LocksAt(states, moves, l, k, x.job.attempt, x.phase.clerk)
          && Accepted(states, moves, l, k, x.job.attempt, x.phase.clerk);
        assert l < i + 1;
      } else {
        assert LocksAt(states, moves, i, k, x.job.attempt, y.phase.clerk);
      }
    }
    hide AcceptsAt, LocksAt, Accepted;
  }

  lemma {:induction false} EverythingIsEarned(states: seq<State>, moves: seq<Move>, i: nat, k: CallId)
    requires Trace(states, moves) && i < |states| && k in states[i].calls
    ensures Earned(states, moves, i, k)
  {
    hide Inv, Earned, Enabled, Next;
    if i > 0 {
      assert Leads(states[i - 1], moves[i - 1], states[i]);
      if moves[i - 1].Begins? && moves[i - 1].call == k {
        BeginningEarns(states, moves, i, k);
      } else {
        if moves[i - 1].Steps? {
          JobStays(states[i - 1], moves[i - 1].call, moves[i - 1].choice);
        }
        EverythingIsEarned(states, moves, i - 1, k);
        if moves[i - 1].call == k {
          StepEarns(states, moves, i - 1);
        } else {
          EarnedLater(states, moves, i - 1, k);
        }
      }
    }
  }

  lemma BeginningEarns(states: seq<State>, moves: seq<Move>, i: nat, k: CallId)
    requires |states| == |moves| + 1 && 0 < i < |states| && k in states[i].calls
    requires exists job :: states[i].calls[k] == Begin(job)
    ensures Earned(states, moves, i, k)
  {}

  /** Only the commit of a verifying call completes an attempt, and it adds the attempt's user. */
  lemma CompletionIsACommit(s: State, k: CallId, c: Choice, a: AttemptId)
    requires Inv(s) && Enabled(s, k)
    requires !CompletedAttempt(s.db, a) && CompletedAttempt(Next(s, k, c).db, a)
    ensures !c.raises && !c.crashes
    ensures var x := s.calls[k];
            && x.job.Verify? && x.job.attempt == a && x.phase.VerifyCommit?
            && CreatedBy(Next(s, k, c).db, x.job.user, a)
            && Next(s, k, c).db.users[x.job.user].clerk == Some(x.phase.clerk)
  {
    assert CallOk(s.db, s.calls[k]);
    hide DbOk, Registered, LiveAttemptFor, ClerkRegistered, ClerkTaken, HeldByOther, LocksExclusive, Completable;
  }

  lemma CompletionAt(states: seq<State>, moves: seq<Move>, i: nat, a: AttemptId)
    requires Trace(states, moves) && i < |moves|
    requires !CompletedAttempt(states[i].db, a) && CompletedAttempt(states[i + 1].db, a)
    ensures moves[i].Steps? && moves[i].call in states[i].calls
    ensures var k := moves[i].call;
            && CallAt(states, i, k).phase.VerifyCommit?
            && CompletesAt(states, moves, i, k, a, CallAt(states, i, k).phase.clerk)
            && CreatedBy(states[i + 1].db, CallAt(states, i, k).job.user, a)
            && states[i + 1].db.users[CallAt(states, i, k).job.user].clerk == Some(CallAt(states, i, k).phase.clerk)
  {
    TraceIsRun(states, moves);
    EveryRunIsSafe(states, i);
    hide Inv, Next, Enabled, CompletedAttempt;
    assert Leads(states[i], moves[i], states[i + 1]);
    CompletionIsACommit(states[i], moves[i].call, moves[i].choice, a);
  }

  lemma EarnedCommit(states: seq<State>, moves: seq<Move>, i: int, k: CallId, a: AttemptId)
    requires |states| == |moves| + 1 && 0 <= i < |moves| && k in states[i].calls && Earned(states, moves, i, k)
    requires states[i].calls[k].phase.VerifyCommit?
             && CompletesAt(states, moves, i, k, a, states[i].calls[k].phase.clerk)
    ensures states[i].calls[k].job.Verify? && Locked(states, moves, i, k, a, states[i].calls[k].phase.clerk)
  {}

  /** Users stay as they are. */
  lemma {:induction false} UsersStay(states: seq<State>, i: nat, j: nat, u: UserId)
    requires Run(states) && Inv(states[0]) && i <= j < |states| && u in states[i].db.users
    ensures u in states[j].db.users && states[j].db.users[u] == states[i].db.users[u]
    decreases j
  {
    hide Inv, Moves;
    if i < j {
      UsersStay(states, i, j - 1, u);
      EveryRunIsSafe(states, j - 1);
      MoveKeepsInv(states[j - 1], states[j]);
    }
  }

  /** Call k completed attempt a for u: the provider had accepted its code and the lock found it live and unexpired. */
  ghost predicate WasVerified(
    states: seq<State>, moves: seq<Move>, i: int, k: CallId, a: AttemptId, u: UserId, clerk: ClerkId)
    requires |states| == |moves| + 1 && 0 <= i < |states|
  {
    && CreatedBy(states[i].db, u, a) && states[i].db.users[u].clerk == Some(clerk)
    && exists m :: 0 <= m < i && CompletesAt(states, moves, m, k, a, clerk) && Locked(states, moves, m, k, a, clerk)
  }

  /**
   A COMPLETED attempt was completed by one verifying call: the provider accepted its code for the Clerk id the
   user carries, then the call locked the attempt, live, unexpired and under that id, and then it committed.
   */
  lemma {:induction false} CompletedWasVerified(states: seq<State>, moves: seq<Move>, i: nat, a: AttemptId)
    requires Trace(states, moves) && i < |states|
    requires CompletedAttempt(states[i].db, a) && !CompletedAttempt(states[0].db, a)
    ensures exists k, u, clerk :: WasVerified(states, moves, i, k, a, u, clerk)
  {
    hide Inv, CompletedAttempt, Leads, CompletesAt, Locked, Earned;
    TraceIsRun(states, moves);
    if CompletedAttempt(states[i - 1].db, a) {
      CompletedWasVerified(states, moves, i - 1, a);
      var k, u, clerk :| WasVerified(states, moves, i - 1, k, a, u, clerk);
      UsersStay(states, i - 1, i, u);
      assert WasVerified(states, moves, i, k, a, u, clerk);
    } else {
      CompletionAt(states, moves, i - 1, a);
      var k := moves[i - 1].call;
      EverythingIsEarned(states, moves, i - 1, k);
      var x := CallAt(states, i - 1, k);
      EarnedCommit(states, moves, i - 1, k, a);
      assert WasVerified(states, moves, i, k, a, x.job.user, x.phase.clerk);
    }
  }

  // ---------------------------------------------------------------------------------------------
  // A refused call is over
  // ---------------------------------------------------------------------------------------------

  lemma DoneIsDone(s: State, m: Move, s': State, k: CallId)
    requires Leads(s, m, s') && k in s.calls && s.calls[k].phase.Done?
    ensures m.call != k && k in s'.calls && s'.calls[k] == s.calls[k]
  {
    if m.Steps? {
      JobStays(s, m.call, m.choice);
    }
    hide Next;
  }

  /** A code the provider refuses, or does not answer for, ends the call: it takes no step any more. */
  lemma {:induction false} RefusedCallIsOver(states: seq<State>, moves: seq<Move>, i: nat, j: nat, k: CallId)
    requires Trace(states, moves) && i < j < |states|
    requires moves[i].Steps? && moves[i].call == k && k in states[i].calls
    requires states[i].calls[k].phase.VerifyAskProvider?
    requires !moves[i].choice.accepted || moves[i].choice.raises || moves[i].choice.crashes
    ensures k in states[j].calls && states[j].calls[k].phase == Done(false)
    ensures j < |moves| ==> moves[j].call != k
    decreases j
  {
    if i + 1 < j {
      RefusedCallIsOver(states, moves, i, j - 1, k);
      assert Leads(states[j - 1], moves[j - 1], states[j]);
      hide Leads, Inv;
      DoneIsDone(states[j - 1], moves[j - 1], states[j], k);
    } else {
      assert Leads(states[i], moves[i], states[j]);
      RefusalEnds(states[i], k, moves[i].choice);
    }
    if j < |moves| {
      assert Leads(states[j], moves[j], states[j + 1]);
      hide Leads, Inv;
      DoneIsDone(states[j], moves[j], states[j + 1], k);
    }
  }

  lemma RefusalEnds(s: State, k: CallId, c: Choice)
    requires Enabled(s, k) && s.calls[k].phase.VerifyAskProvider? && (!c.accepted || c.raises || c.crashes)
    ensures Next(s, k, c).db == s.db && k in Next(s, k, c).calls && Next(s, k, c).calls[k].phase == Done(false)
  {
    hide Registered, LiveAttemptFor, Completable, ClerkRegistered, ClerkTaken, HeldByOther;
  }

  // ---------------------------------------------------------------------------------------------
  // An attempt was checked before it was stored
  // ---------------------------------------------------------------------------------------------

  /** Call k starts a signup for this e-mail and mobile, and the statement it executes at i is `phase`. */
  ghost predicate StartsAt(
    states: seq<State>, moves: seq<Move>, i: int, k: CallId, phase: Phase, email: Email, mobile: Mobile)
    requires |states| == |moves| + 1
  {
    && Succeeds(states, moves, i, k) && CallAt(states, i, k).phase == phase
    && CallAt(states, i, k).job.Start?
    && CallAt(states, i, k).job.email == email && CallAt(states, i, k).job.mobile == mobile
  }

  /** When call k looked, no user had the e-mail or the mobile. */
  ghost predicate FoundUnregistered(
    states: seq<State>, moves: seq<Move>, i: int, k: CallId, email: Email, mobile: Mobile)
    requires |states| == |moves| + 1
  {
    exists j :: 0 <= j < i && StartsAt(states, moves, j, k, StartCheckRegistered, email, mobile)
      && forall u :: u in states[j].db.users ==>
           states[j].db.users[u].email != Some(email) && states[j].db.users[u].mobile != Some(mobile)
  }

  /** And when it looked again, no live attempt had either. */
  ghost predicate FoundFree(states: seq<State>, moves: seq<Move>, i: int, k: CallId, email: Email, mobile: Mobile)
    requires |states| == |moves| + 1
  {
    exists j :: 0 <= j < i && StartsAt(states, moves, j, k, StartCheckLive, email, mobile)
      && FoundUnregistered(states, moves, j, k, email, mobile) && NobodyTries(states[j].db, email, mobile)
  }

  predicate NobodyTries(db: Db, email: Email, mobile: Mobile) {
    forall a :: a in db.attempts && db.attempts[a].status == Authorized ==>
      db.attempts[a].email != email && db.attempts[a].mobile != mobile
  }

  ghost predicate Checked(states: seq<State>, moves: seq<Move>, i: int, k: CallId)
    requires |states| == |moves| + 1 && 0 <= i < |states| && k in states[i].calls
  {
    var x := states[i].calls[k];
    && (x.phase.StartCheckLive? ==>
          x.job.Start? && FoundUnregistered(states, moves, i, k, x.job.email, x.job.mobile))
    && (x.phase.StartInsert? ==> x.job.Start? && FoundFree(states, moves, i, k, x.job.email, x.job.mobile))
  }

  lemma ToCheckLive(s: State, k: CallId, c: Choice)
    requires Enabled(s, k) && Next(s, k, c).calls[k].phase.StartCheckLive?
    ensures !c.raises && !c.crashes && s.calls[k].job.Start? && s.calls[k].phase == StartCheckRegistered
    ensures forall u :: u in s.db.users ==>
              s.db.users[u].email != Some(s.calls[k].job.email) && s.db.users[u].mobile != Some(s.calls[k].job.mobile)
  {
    hide LiveAttemptFor, Completable, ClerkRegistered, ClerkTaken, HeldByOther;
  }

  lemma ToInsert(s: State, k: CallId, c: Choice)
    requires Enabled(s, k) && Next(s, k, c).calls[k].phase.StartInsert?
    ensures !c.raises && !c.crashes && s.calls[k].job.Start? && s.calls[k].phase == StartCheckLive
    ensures NobodyTries(s.db, s.calls[k].job.email, s.calls[k].job.mobile)
  {
    hide Registered, Completable, ClerkRegistered, ClerkTaken, HeldByOther;
  }

  lemma StepChecks(states: seq<State>, moves: seq<Move>, i: int)
    requires |states| == |moves| + 1 && 0 <= i < |moves| && moves[i].Steps?
    requires Leads(states[i], moves[i], states[i + 1]) && Checked(states, moves, i, moves[i].call)
    ensures moves[i].call in states[i + 1].calls && Checked(states, moves, i + 1, moves[i].call)
  {
    var k, c, s := moves[i].call, moves[i].choice, states[i];
    JobStays(s, k, c);
    var x, y := s.calls[k], states[i + 1].calls[k];
    hide Next, Enabled;
    if y.phase.StartCheckLive? {
      ToCheckLive(s, k, c);
      assert StartsAt(states, moves, i, k, StartCheckRegistered, x.job.email, x.job.mobile);
    }
    if y.phase.StartInsert? {
      ToInsert(s, k, c);
      assert StartsAt(states, moves, i, k, StartCheckLive, x.job.email, x.job.mobile);
    }
    hide StartsAt, FoundUnregistered, NobodyTries;
  }

  lemma CheckedLater(states: seq<State>, moves: seq<Move>, i: int, k: CallId)
    requires |states| == |moves| + 1 && 0 <= i < |moves| && k in states[i].calls && k in states[i + 1].calls
    requires Checked(states, moves, i, k) && states[i + 1].calls[k] == states[i].calls[k]
    ensures Checked(states, moves, i + 1, k)
  {
    var x := states[i].calls[k];
    if x.phase.StartCheckLive? {
      UnregisteredLater(states, moves, i, k, x.job.email, x.job.mobile);
    }
    if x.phase.StartInsert? {
      FreeLater(states, moves, i, k, x.job.email, x.job.mobile);
    }
    hide FoundUnregistered, FoundFree;
  }

  lemma UnregisteredLater(states: seq<State>, moves: seq<Move>, i: int, k: CallId, email: Email, mobile: Mobile)
    requires |states| == |moves| + 1 && FoundUnregistered(states, moves, i, k, email, mobile)
    ensures FoundUnregistered(states, moves, i + 1, k, email, mobile)
  {
    hide StartsAt;
  }

  lemma FreeLater(states: seq<State>, moves: seq<Move>, i: int, k: CallId, email: Email, mobile: Mobile)
    requires |states| == |moves| + 1 && FoundFree(states, moves, i, k, email, mobile)
    ensures FoundFree(states, moves, i + 1, k, email, mobile)
  {
    hide StartsAt, FoundUnregistered, NobodyTries;
  }

  lemma {:induction false} EverythingIsChecked(states: seq<State>, moves: seq<Move>, i: nat, k: CallId)
    requires Trace(states, moves) && i < |states| && k in states[i].calls
    ensures Checked(states, moves, i, k)
  {
    hide Inv, Checked, Enabled, Next;
    if i > 0 {
      assert Leads(states[i - 1], moves[i - 1], states[i]);
      if moves[i - 1].Begins? && moves[i - 1].call == k {
        BeginningChecks(states, moves, i, k);
      } else {
        if moves[i - 1].Steps? {
          JobStays(states[i - 1], moves[i - 1].call, moves[i - 1].choice);
        }
        EverythingIsChecked(states, moves, i - 1, k);
        if moves[i - 1].call == k {
          StepChecks(states, moves, i - 1);
        } else {
          CheckedLater(states, moves, i - 1, k);
        }
      }
    }
  }

  lemma BeginningChecks(states: seq<State>, moves: seq<Move>, i: nat, k: CallId)
    requires |states| == |moves| + 1 && 0 < i < |states| && k in states[i].calls
    requires exists job :: states[i].calls[k] == Begin(job)
    ensures Checked(states, moves, i, k)
  {}

  /** Call k stores attempt a at i, live for half an hour and without a Clerk id, after having found it free. */
  ghost predicate InsertsAt(states: seq<State>, moves: seq<Move>, i: int, k: CallId, a: AttemptId)
    requires |states| == |moves| + 1
  {
    && Succeeds(states, moves, i, k)
    && CallAt(states, i, k).phase.StartInsert? && CallAt(states, i, k).job.Start?
    && CallAt(states, i, k).job.attempt == a
    && var job := CallAt(states, i, k).job;
    && FoundFree(states, moves, i, k, job.email, job.mobile)
    && a !in states[i].db.attempts && a in states[i + 1].db.attempts
    && states[i + 1].db.attempts[a] == Attempt(job.email, job.mobile, Authorized, job.now + 1_800_000_000, None)
  }

  lemma OnlyInsertsAdd(s: State, k: CallId, c: Choice, a: AttemptId)
    requires Inv(s) && Enabled(s, k) && a !in s.db.attempts && a in Next(s, k, c).db.attempts
    ensures !c.raises && !c.crashes
    ensures var x := s.calls[k];
            && x.job.Start? && x.job.attempt == a && x.phase.StartInsert?
            && Next(s, k, c).db.attempts[a]
               == Attempt(x.job.email, x.job.mobile, Authorized, x.job.now + 1_800_000_000, None)
  {
    assert CallOk(s.db, s.calls[k]);
    hide DbOk, Registered, LiveAttemptFor, ClerkRegistered, ClerkTaken, HeldByOther, LocksExclusive, Completable;
  }

  /**
   Every attempt comes from a start call that stored it, live for half an hour; before that the call had found
   no user with the e-mail or the mobile, and then no live attempt with either.
   */
  lemma {:induction false} AttemptWasChecked(states: seq<State>, moves: seq<Move>, i: nat, a: AttemptId)
    requires Trace(states, moves) && i < |states|
    requires a in states[i].db.attempts && a !in states[0].db.attempts
    ensures exists m, k :: 0 <= m < i && InsertsAt(states, moves, m, k, a)
  {
    hide Inv, Leads, FoundFree, Checked;
    TraceIsRun(states, moves);
    if a in states[i - 1].db.attempts {
      AttemptWasChecked(states, moves, i - 1, a);
    } else {
      EveryRunIsSafe(states, i - 1);
      assert Leads(states[i - 1], moves[i - 1], states[i]);
      StepOfLeads(states[i - 1], moves[i - 1], states[i], a);
      hide Next, Enabled;
      var k := moves[i - 1].call;
      OnlyInsertsAdd(states[i - 1], k, moves[i - 1].choice, a);
      EverythingIsChecked(states, moves, i - 1, k);
      CheckedInsert(states, moves, i - 1, k);
      assert InsertsAt(states, moves, i - 1, k, a);
    }
    hide InsertsAt;
  }

  lemma StepOfLeads(s: State, m: Move, s': State, a: AttemptId)
    requires Leads(s, m, s') && a !in s.db.attempts && a in s'.db.attempts
    ensures m.Steps? && Enabled(s, m.call) && s' == Next(s, m.call, m.choice)
  {}

  lemma CheckedInsert(states: seq<State>, moves: seq<Move>, i: int, k: CallId)
    requires |states| == |moves| + 1 && 0 <= i < |states| && k in states[i].calls && Checked(states, moves, i, k)
    requires states[i].calls[k].phase.StartInsert?
    ensures var job := states[i].calls[k].job; job.Start? && FoundFree(states, moves, i, k, job.email, job.mobile)
  {}

  // ---------------------------------------------------------------------------------------------
  // A Clerk id comes from the provider
  // ---------------------------------------------------------------------------------------------

  /** The provider creates an account for call k, which starts attempt a. */
  ghost predicate CreatesAccountAt(
    states: seq<State>, moves: seq<Move>, i: int, k: CallId, a: AttemptId, clerk: ClerkId)
    requires |states| == |moves| + 1
  {
    && Succeeds(states, moves, i, k) && moves[i].choice.reply == clerk
    && CallAt(states, i, k).phase.StartCreateAccount?
    && CallAt(states, i, k).job.Start? && CallAt(states, i, k).job.attempt == a
  }

  ghost predicate Created(states: seq<State>, moves: seq<Move>, i: int, k: CallId, a: AttemptId, clerk: ClerkId)
    requires |states| == |moves| + 1
  {
    exists j :: 0 <= j < i && CreatesAccountAt(states, moves, j, k, a, clerk)
  }

  predicate Saves(p: Phase) { p.StartSaveAccount? || p.StartSaveCommit? }

  /** A call that saves an account has it from the provider, and saves that one with its own attempt. */
  ghost predicate Supplied(states: seq<State>, moves: seq<Move>, i: int, k: CallId)
    requires |states| == |moves| + 1 && 0 <= i < |states| && k in states[i].calls
  {
    var x := states[i].calls[k];
    && (Saves(x.phase) ==> x.job.Start? && Created(states, moves, i, k, x.job.attempt, x.phase.clerk))
    && (x.phase.StartSaveCommit? ==>
          forall a :: a in x.writes ==> a == x.job.attempt && x.writes[a].clerk == Some(x.phase.clerk))
    && OthersEnd(x)
  }

  /** Every other pending write ends its attempt. */
  predicate OthersEnd(x: Call) {
    x.phase.StartSaveCommit? || forall a :: a in x.writes ==> x.writes[a].status != Authorized
  }

  lemma WritesEnd(s: State, k: CallId, c: Choice)
    requires Enabled(s, k) && CallOk(s.db, s.calls[k])
    ensures OthersEnd(Next(s, k, c).calls[k])
  {
    hide Registered, LiveAttemptFor, Completable, ClerkRegistered, ClerkTaken, HeldByOther;
  }

  lemma ToSave(s: State, k: CallId, c: Choice)
    requires Enabled(s, k) && Saves(Next(s, k, c).calls[k].phase)
    requires s.calls[k].phase.StartSaveAccount? ==> s.calls[k].writes == map[]
    ensures !c.raises && !c.crashes && s.calls[k].job.Start?
    ensures var x, y := s.calls[k], Next(s, k, c).calls[k];
            || (x.phase == StartCreateAccount && y.phase == StartSaveAccount(c.reply))
            || (Saves(x.phase) && y.phase == StartSaveCommit(x.phase.clerk)
                && forall a :: a in y.writes ==> a == x.job.attempt && y.writes[a].clerk == Some(x.phase.clerk))
  {
    hide Registered, LiveAttemptFor, Completable, ClerkRegistered, ClerkTaken, HeldByOther;
  }

  lemma StepSupplies(states: seq<State>, moves: seq<Move>, i: int)
    requires |states| == |moves| + 1 && 0 <= i < |moves| && moves[i].Steps?
    requires Leads(states[i], moves[i], states[i + 1]) && Supplied(states, moves, i, moves[i].call)
    requires CallOk(states[i].db, states[i].calls[moves[i].call])
    ensures moves[i].call in states[i + 1].calls && Supplied(states, moves, i + 1, moves[i].call)
  {
    var k, c, s := moves[i].call, moves[i].choice, states[i];
    JobStays(s, k, c);
    var x, y := s.calls[k], states[i + 1].calls[k];
    WritesEnd(s, k, c);
    hide Next, Enabled, WritesOk, OthersEnd;
    if Saves(y.phase) {
      ToSave(s, k, c);
      if Saves(x.phase) {
        CreatedLater(states, moves, i, k, x.job.attempt, x.phase.clerk);
      } else {
        assert CreatesAccountAt(states, moves, i, k, x.job.attempt, c.reply);
      }
    }
    hide CreatesAccountAt, CallOk;
  }

  lemma CreatedLater(states: seq<State>, moves: seq<Move>, i: int, k: CallId, a: AttemptId, clerk: ClerkId)
    requires |states| == |moves| + 1 && Created(states, moves, i, k, a, clerk)
    ensures Created(states, moves, i + 1, k, a, clerk)
  {
    hide CreatesAccountAt;
  }

  lemma SuppliedLater(states: seq<State>, moves: seq<Move>, i: int, k: CallId)
    requires |states| == |moves| + 1 && 0 <= i < |moves| && k in states[i].calls && k in states[i + 1].calls
    requires Supplied(states, moves, i, k) && states[i + 1].calls[k] == states[i].calls[k]
    ensures Supplied(states, moves, i + 1, k)
  {
    var x := states[i].calls[k];
    if Saves(x.phase) {
      CreatedLater(states, moves, i, k, x.job.attempt, x.phase.clerk);
    }
    hide Created;
  }

  lemma BeginningSupplies(states: seq<State>, moves: seq<Move>, i: nat, k: CallId)
    requires |states| == |moves| + 1 && 0 < i < |states| && k in states[i].calls
    requires exists job :: states[i].calls[k] == Begin(job)
    ensures Supplied(states, moves, i, k)
  {}

  lemma {:induction false} EverythingIsSupplied(states: seq<State>, moves: seq<Move>, i: nat, k: CallId)
    requires Trace(states, moves) && i < |states| && k in states[i].calls
    ensures Supplied(states, moves, i, k)
  {
    hide DbOk, LocksExclusive, CallOk, Supplied, Enabled, Next;
    if i > 0 {
      assert Leads(states[i - 1], moves[i - 1], states[i]);
      if moves[i - 1].Begins? && moves[i - 1].call == k {
        BeginningSupplies(states, moves, i, k);
      } else {
        if moves[i - 1].Steps? {
          JobStays(states[i - 1], moves[i - 1].call, moves[i - 1].choice);
        }
        EverythingIsSupplied(states, moves, i - 1, k);
        if moves[i - 1].call == k {
          TraceIsRun(states, moves);
          EveryRunIsSafe(states, i - 1);
          StepSupplies(states, moves, i - 1);
        } else {
          SuppliedLater(states, moves, i - 1, k);
        }
      }
    }
  }

  ghost predicate Bears(db: Db, a: AttemptId, clerk: ClerkId) {
    a in db.attempts && db.attempts[a].clerk == Some(clerk)
  }

  /** Only the commit that saves an account gives an attempt its Clerk id. */
  lemma OnlySavesGive(s: State, k: CallId, c: Choice, a: AttemptId, clerk: ClerkId)
    requires Inv(s) && Enabled(s, k) && OthersEnd(s.calls[k])
    requires !Bears(s.db, a, clerk) && Bears(Next(s, k, c).db, a, clerk)
    ensures var x := s.calls[k];
            x.phase.StartSaveCommit? && a in x.writes && x.writes[a].clerk == Some(clerk)
  {
    assert CallOk(s.db, s.calls[k]);
    hide DbOk, PhaseOk, Registered, LiveAttemptFor, ClerkRegistered, ClerkTaken, HeldByOther, LocksExclusive,
        Completable;
  }

  /** Every Clerk id an attempt bears was given by the provider to the start call of that attempt. */
  lemma {:induction false} ClerkIdIsTheProviders(
    states: seq<State>, moves: seq<Move>, i: nat, a: AttemptId, clerk: ClerkId)
    requires Trace(states, moves) && i < |states|
    requires Bears(states[i].db, a, clerk) && !Bears(states[0].db, a, clerk)
    ensures exists m, k :: 0 <= m < i && CreatesAccountAt(states, moves, m, k, a, clerk)
  {
    hide Inv, Leads, Bears, CreatesAccountAt;
    if Bears(states[i - 1].db, a, clerk) {
      ClerkIdIsTheProviders(states, moves, i - 1, a, clerk);
    } else {
      TraceIsRun(states, moves);
      EveryRunIsSafe(states, i - 1);
      assert Leads(states[i - 1], moves[i - 1], states[i]);
      GivingStep(states[i - 1], moves[i - 1], states[i], a, clerk);
      var k := moves[i - 1].call;
      EverythingIsSupplied(states, moves, i - 1, k);
      SuppliedClerk(states, moves, i - 1, k, a, clerk);
    }
  }

  lemma GivingStep(s: State, m: Move, s': State, a: AttemptId, clerk: ClerkId)
    requires Leads(s, m, s') && !Bears(s.db, a, clerk) && Bears(s'.db, a, clerk)
    ensures m.Steps? && Enabled(s, m.call) && s' == Next(s, m.call, m.choice)
  {}

  lemma SuppliedClerk(states: seq<State>, moves: seq<Move>, i: int, k: CallId, a: AttemptId, clerk: ClerkId)
    requires |states| == |moves| + 1 && 0 <= i < |moves| && Inv(states[i]) && Leads(states[i], moves[i], states[i + 1])
    requires moves[i].Steps? && moves[i].call == k && k in states[i].calls && Supplied(states, moves, i, k)
    requires !Bears(states[i].db, a, clerk) && Bears(states[i + 1].db, a, clerk)
    ensures exists m :: 0 <= m < i && CreatesAccountAt(states, moves, m, k, a, clerk)
  {
    hide Next, Enabled, Inv, CreatesAccountAt;
    OnlySavesGive(states[i], k, moves[i].choice, a, clerk);
  }

  // ---------------------------------------------------------------------------------------------
  // A failed start leaves no live attempt
  // ---------------------------------------------------------------------------------------------

  /** The step does not crash, and does not raise while it cancels. */
  predicate Careful(p: Phase, c: Choice) {
    !c.crashes && (c.raises ==> !p.StartCancel? && !p.StartCancelCommit?)
  }

  /** From its insert at m on, call k is spared crashes and failures of its own cancelling, until i. */
  ghost predicate Spared(states: seq<State>, moves: seq<Move>, m: int, i: int, k: CallId)
    requires |states| == |moves| + 1
  {
    forall j :: m < j < i && 0 <= j < |moves| && moves[j].Steps? && moves[j].call == k && k in states[j].calls ==>
      Careful(states[j].calls[k].phase, moves[j].choice)
  }

  predicate HasAccount(db: Db, a: AttemptId) { a in db.attempts && db.attempts[a].clerk.Some? }

  /** Where a start that has stored attempt a may be, and what it owes the attempt there. */
  predicate Owes(db: Db, x: Call, a: AttemptId) {
    && x.job.Start? && x.job.attempt == a && a in db.attempts
    && match x.phase
       case StartCreateAccount => true
       case StartSaveAccount(_) => true
       case StartSaveCommit(_) => !Live(db, a) || (a in x.writes && x.writes[a].clerk.Some?)
       case StartCancel(_) => true
       case StartCancelCommit(_) => !Live(db, a) || (a in x.writes && x.writes[a].status == Cancelled)
       case StartDeleteAccount => !Live(db, a)
       case Done(ok) => !Live(db, a) || (ok && HasAccount(db, a))
       case _ => false
  }

  lemma OwnStepPays(s: State, k: CallId, c: Choice, a: AttemptId)
    requires Enabled(s, k) && Owes(s.db, s.calls[k], a) && Careful(s.calls[k].phase, c)
    requires WritesOk(s.db, s.calls[k])
    ensures var s' := Next(s, k, c); Owes(s'.db, s'.calls[k], a)
  {
    hide Registered, LiveAttemptFor, Completable, ClerkRegistered, ClerkTaken, HeldByOther;
  }

  lemma WritesAreOk(s: State, k: CallId)
    requires Inv(s) && k in s.calls
    ensures WritesOk(s.db, s.calls[k])
  {
    assert CallOk(s.db, s.calls[k]);
  }

  /** No other call makes an ended attempt live, or takes its account away while it is live. */
  lemma OtherStepHarmsNothing(s: State, k: CallId, c: Choice, a: AttemptId)
    requires Inv(s) && Enabled(s, k) && OthersEnd(s.calls[k])
    requires s.calls[k].phase.StartSaveCommit? ==> forall b :: b in s.calls[k].writes ==>
               s.calls[k].writes[b].clerk.Some?
    requires a in s.db.attempts
    ensures a in Next(s, k, c).db.attempts
    ensures !Live(s.db, a) ==> !Live(Next(s, k, c).db, a)
    ensures HasAccount(s.db, a) && Live(Next(s, k, c).db, a) ==> HasAccount(Next(s, k, c).db, a)
  {
    assert CallOk(s.db, s.calls[k]);
    hide DbOk, PhaseOk, Registered, LiveAttemptFor, ClerkRegistered, ClerkTaken, HeldByOther, LocksExclusive,
        Completable;
  }

  lemma InsertOwes(s: State, k: CallId, c: Choice)
    requires Enabled(s, k) && s.calls[k].phase.StartInsert? && s.calls[k].job.Start? && !c.raises && !c.crashes
    requires s.calls[k].job.attempt !in s.db.attempts && s.calls[k].job.attempt in Next(s, k, c).db.attempts
    ensures Owes(Next(s, k, c).db, Next(s, k, c).calls[k], s.calls[k].job.attempt)
  {
    hide Registered, Completable, ClerkRegistered, ClerkTaken, HeldByOther;
  }

  lemma MoveKeepsOwing(states: seq<State>, moves: seq<Move>, i: nat, k: CallId, a: AttemptId)
    requires Trace(states, moves) && i < |moves| && k in states[i].calls && Owes(states[i].db, states[i].calls[k], a)
    requires moves[i].Steps? && moves[i].call == k ==> Careful(states[i].calls[k].phase, moves[i].choice)
    ensures k in states[i + 1].calls && Owes(states[i + 1].db, states[i + 1].calls[k], a)
  {
    TraceIsRun(states, moves);
    EveryRunIsSafe(states, i);
    assert Leads(states[i], moves[i], states[i + 1]);
    if moves[i].Steps? {
      var d := moves[i].call;
      JobStays(states[i], d, moves[i].choice);
      EverythingIsSupplied(states, moves, i, d);
      if d == k {
        WritesAreOk(states[i], k);
        OwnStepPays(states[i], k, moves[i].choice, a);
      } else {
        OtherStepHarmsNothing(states[i], d, moves[i].choice, a);
      }
    }
    hide Next, Enabled, Inv, Live, OthersEnd, Trace, Created;
  }

  lemma {:induction false} StartKeepsOwing(
    states: seq<State>, moves: seq<Move>, m: nat, i: nat, k: CallId, a: AttemptId)
    requires Trace(states, moves) && m < i < |states| && InsertsAt(states, moves, m, k, a)
    requires Spared(states, moves, m, i, k)
    ensures k in states[i].calls && Owes(states[i].db, states[i].calls[k], a)
    decreases i
  {
    hide Inv, Next, Enabled, Owes;
    if i == m + 1 {
      assert Leads(states[m], moves[m], states[i]);
      JobStays(states[m], k, moves[m].choice);
      InsertOwes(states[m], k, moves[m].choice);
    } else {
      StartKeepsOwing(states, moves, m, i - 1, k, a);
      MoveKeepsOwing(states, moves, i - 1, k, a);
    }
  }

  /**
   A start call that has stored its attempt and is over has either given it an account or ended it, whatever
   raised on the way, unless it crashed or its cancelling itself failed.
   */
  lemma FailedStartLeavesNothingLive(
    states: seq<State>, moves: seq<Move>, m: nat, i: nat, k: CallId, a: AttemptId)
    requires Trace(states, moves) && m < i < |states| && InsertsAt(states, moves, m, k, a)
    requires Spared(states, moves, m, i, k)
    requires k in states[i].calls && states[i].calls[k].phase.Done?
    ensures Live(states[i].db, a) ==> states[i].calls[k].phase == Done(true) && HasAccount(states[i].db, a)
  {
    StartKeepsOwing(states, moves, m, i, k, a);
  }

  // ---------------------------------------------------------------------------------------------
  // An account nobody uses is deleted
  // ---------------------------------------------------------------------------------------------

  /** The call has an account at the provider that it has not given up. */
  predicate HoldsAccount(p: Phase) {
    match p
    case StartSaveAccount(_) => true
    case StartSaveCommit(_) => true
    case StartCancel(account) => account.Some?
    case StartCancelCommit(account) => account.Some?
    case StartDeleteAccount => true
    case _ => false
  }

  /** From m on, and before i, call k asks the provider to delete its account. */
  ghost predicate AsksToDelete(states: seq<State>, moves: seq<Move>, m: int, i: int, k: CallId)
    requires |states| == |moves| + 1
  {
    exists d :: m < d < i && 0 <= d < |moves| && moves[d].Steps? && moves[d].call == k && k in states[d].calls
      && states[d].calls[k].phase == StartDeleteAccount
  }

  /** A start gives its account up only to its attempt or to the provider. */
  lemma AccountStep(s: State, k: CallId, c: Choice)
    requires Enabled(s, k) && s.calls[k].job.Start? && HoldsAccount(s.calls[k].phase) && Careful(s.calls[k].phase, c)
    ensures k in Next(s, k, c).calls
    ensures var p := Next(s, k, c).calls[k].phase;
            HoldsAccount(p) || p == Done(true) || (s.calls[k].phase.StartDeleteAccount? && p.Done?)
  {
    hide Registered, LiveAttemptFor, Completable, ClerkRegistered, ClerkTaken, HeldByOther;
  }

  lemma CreationHolds(s: State, k: CallId, c: Choice)
    requires Enabled(s, k) && s.calls[k].job.Start? && s.calls[k].phase.StartCreateAccount? && !c.raises && !c.crashes
    ensures k in Next(s, k, c).calls && HoldsAccount(Next(s, k, c).calls[k].phase)
  {
    hide Registered, LiveAttemptFor, Completable, ClerkRegistered, ClerkTaken, HeldByOther;
  }

  /**
   A start call the provider has created an account for ends with the account saved, or after having asked the
   provider to delete it, unless it crashed or its cancelling itself failed.
   */
  lemma {:induction false} OrphanAccountIsDeleted(
    states: seq<State>, moves: seq<Move>, m: nat, i: nat, k: CallId, a: AttemptId, clerk: ClerkId)
    requires Trace(states, moves) && m < i < |states| && CreatesAccountAt(states, moves, m, k, a, clerk)
    requires Spared(states, moves, m, i, k)
    ensures k in states[i].calls && states[i].calls[k].job.Start?
    ensures var p := states[i].calls[k].phase;
            HoldsAccount(p) || p == Done(true) || (p.Done? && AsksToDelete(states, moves, m, i, k))
    decreases i
  {
    hide Inv, Next, Enabled, HoldsAccount;
    assert Leads(states[i - 1], moves[i - 1], states[i]);
    if i == m + 1 {
      JobStays(states[m], k, moves[m].choice);
      CreationHolds(states[m], k, moves[m].choice);
    } else {
      OrphanAccountIsDeleted(states, moves, m, i - 1, k, a, clerk);
      if states[i - 1].calls[k].phase.Done? {
        DoneIsDone(states[i - 1], moves[i - 1], states[i], k);
      } else if moves[i - 1].Steps? {
        JobStays(states[i - 1], moves[i - 1].call, moves[i - 1].choice);
        if moves[i - 1].call == k {
          AccountStep(states[i - 1], k, moves[i - 1].choice);
        }
      }
    }
  }
}
