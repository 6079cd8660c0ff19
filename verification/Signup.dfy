/**
 Self-onboarding with a Clerk account: any number of `start` and `verify_email_code` calls,
 interleaved statement by statement, with arbitrary provider replies and failures.

 Transactions run under READ COMMITTED: a statement that updates or locks attempt rows waits until no
 other transaction holds them and then sees their newest committed version; writes become visible at
 commit, where a row that breaks a unique index turns into the IntegrityError the code catches.
 E-mail addresses, mobile numbers and Clerk ids stand for their normalised forms.
 */
module Signup {
  import opened Options

  type AttemptId = int
  type UserId = int
  type CallId = int
  type Email = int
  type Mobile = int
  type ClerkId = int
  type Time = int

  const ATTEMPT_TTL: int := 1_800_000_000

  // ---------------------------------------------------------------------------------------------
  // Tables
  // ---------------------------------------------------------------------------------------------

  datatype Status = Authorized | Completed | Expired | Cancelled
  datatype Attempt = Attempt(email: Email, mobile: Mobile, status: Status, expiresAt: Time, clerk: Option<ClerkId>)

  /** A user with its Clerk identity.  `attempt` records which signup, if any, created the row. */
  datatype User = User(email: Option<Email>, mobile: Option<Mobile>, clerk: Option<ClerkId>, attempt: Option<AttemptId>)

  datatype Db = Db(attempts: map<AttemptId, Attempt>, users: map<UserId, User>)

  predicate Live(db: Db, a: AttemptId) {
    a in db.attempts && db.attempts[a].status.Authorized?
  }

  predicate Registered(db: Db, email: Email, mobile: Mobile) {
    exists u :: u in db.users && (db.users[u].email == Some(email) || db.users[u].mobile == Some(mobile))
  }

  predicate ClerkRegistered(db: Db, clerk: ClerkId) {
    exists u :: u in db.users && db.users[u].clerk == Some(clerk)
  }

  predicate LiveAttemptFor(db: Db, email: Email, mobile: Mobile) {
    exists a :: a in db.attempts && Live(db, a) && (db.attempts[a].email == email || db.attempts[a].mobile == mobile)
  }

  /** Another attempt, of any status, already carries this Clerk id. */
  predicate ClerkTaken(db: Db, a: AttemptId, clerk: ClerkId) {
    exists b :: b in db.attempts && b != a && db.attempts[b].clerk == Some(clerk)
  }

  predicate StaleFor(x: Attempt, email: Email, mobile: Mobile, now: Time) {
    x.status.Authorized? && x.expiresAt <= now && (x.email == email || x.mobile == mobile)
  }

  function StaleRows(db: Db, email: Email, mobile: Mobile, now: Time): set<AttemptId> {
    set a | a in db.attempts && StaleFor(db.attempts[a], email, mobile, now)
  }

  // ---------------------------------------------------------------------------------------------
  // Calls
  // ---------------------------------------------------------------------------------------------

  /** `attempt` of a start and `user` of a verify are uuid4() values; `now` of a start is read once. */
  datatype Job =
    | Start(email: Email, mobile: Mobile, attempt: AttemptId, now: Time)
    | Verify(attempt: AttemptId, user: UserId)

  /** The statement or provider call that comes next. */
  datatype Phase =
    | StartSelectStale
    | StartExpireStale
    | StartExpireCommit
    | StartForgetAccounts
    | StartCheckRegistered
    | StartCheckLive
    | StartInsert
    | StartCreateAccount
    | StartSaveAccount(clerk: ClerkId)
    | StartSaveCommit(clerk: ClerkId)
    | StartCancel(account: Option<ClerkId>)
    | StartCancelCommit(account: Option<ClerkId>)
    | StartDeleteAccount
    | VerifyLoad
    | VerifyExpire
    | VerifyExpireCommit
    | VerifyAskProvider(clerk: ClerkId)
    | VerifyLock(clerk: ClerkId)
    | VerifyLockedExpire
    | VerifyCheckRegistered(clerk: ClerkId)
    | VerifyWrite(clerk: ClerkId)
    | VerifyCommit(clerk: ClerkId)
    | Done(ok: bool)

  predicate AtProvider(p: Phase) {
    p.StartForgetAccounts? || p.StartCreateAccount? || p.StartDeleteAccount? || p.VerifyAskProvider?
  }

  datatype Call = Call(job: Job, phase: Phase, locks: set<AttemptId>, writes: map<AttemptId, Attempt>,
      newUser: Option<User>)

  datatype State = State(db: Db, calls: map<CallId, Call>)

  /** What the clock, the provider and the network decide at one step. */
  datatype Choice = Choice(now: Time, reply: ClerkId, accepted: bool, raises: bool, crashes: bool)

  function Begin(job: Job): Call {
    Call(job, if job.Start? then StartSelectStale else VerifyLoad, {}, map[], None)
  }

  /** Commit and rollback release every lock; only commit also installs the writes. */
  function Release(x: Call, phase: Phase): Call {
    x.(phase := phase, locks := {}, writes := map[], newUser := None)
  }

  // ---------------------------------------------------------------------------------------------
  // Steps
  // ---------------------------------------------------------------------------------------------

  /** The attempt rows the next statement locks. */
  function Needs(db: Db, x: Call): set<AttemptId> {
    match x.phase
    case StartExpireStale => if x.job.Start? then StaleRows(db, x.job.email, x.job.mobile, x.job.now) else {}
    case StartSaveAccount(_) => {x.job.attempt}
    case StartCancel(_) => {x.job.attempt}
    case VerifyExpire => {x.job.attempt}
    case VerifyLock(_) => {x.job.attempt}
    case _ => {}
  }

  ghost predicate HeldByOther(s: State, c: CallId, a: AttemptId) {
    exists d :: d in s.calls && d != c && a in s.calls[d].locks
  }

  ghost predicate Enabled(s: State, c: CallId) {
    c in s.calls && !s.calls[c].phase.Done?
    && forall a :: a in Needs(s.db, s.calls[c]) ==> !HeldByOther(s, c, a)
  }

  function Changed(x: Call, a: AttemptId, row: Attempt, phase: Phase): Call {
    x.(phase := phase, locks := x.locks + {a}, writes := x.writes[a := row])
  }

  function Lock(x: Call, a: AttemptId, phase: Phase): Call {
    x.(phase := phase, locks := x.locks + {a})
  }

  /** Where an exception raised at this statement leads: the handler of start's account step cancels the attempt. */
  function Handler(x: Call): Phase {
    match x.phase
    case StartCreateAccount => StartCancel(None)
    case StartSaveAccount(clerk) => StartCancel(Some(clerk))
    case StartSaveCommit(clerk) => StartCancel(Some(clerk))
    case _ => Done(false)
  }

  /** One statement or provider call of a start that neither commits nor raises. */
  function StartStep(db: Db, x: Call, c: Choice): Call
    requires x.job.Start?
  {
    var Start(email, mobile, attempt, now) := x.job;
    match x.phase
    case StartSelectStale => x.(phase := if StaleRows(db, email, mobile, now) == {}
        then StartCheckRegistered else StartExpireStale)
    case StartExpireStale =>
      var rows := StaleRows(db, email, mobile, now);
      x.(phase := StartExpireCommit, locks := x.locks + rows,
         writes := map a | a in rows :: db.attempts[a].(status := Expired))
    case StartForgetAccounts => x.(phase := StartCheckRegistered)
    case StartCheckRegistered => if Registered(db, email, mobile)
      then Release(x, Done(false)) else x.(phase := StartCheckLive)
    case StartCheckLive => if LiveAttemptFor(db, email, mobile)
      then Release(x, Done(false)) else x.(phase := StartInsert)
    case StartCreateAccount => x.(phase := StartSaveAccount(c.reply))
    case StartSaveAccount(clerk) =>
      if Live(db, attempt) then Changed(x, attempt, db.attempts[attempt].(clerk := Some(clerk)), StartSaveCommit(clerk))
      else x.(phase := StartSaveCommit(clerk))
    case StartCancel(account) =>
      if Live(db, attempt) then Changed(x, attempt, db.attempts[attempt].(status := Cancelled),
          StartCancelCommit(account))
      else x.(phase := StartCancelCommit(account))
    case _ => Release(x, Done(false))
  }

  /** The attempt's Clerk id, when the call may still complete it at this instant. */
  function Completable(db: Db, a: AttemptId, now: Time): Option<ClerkId> {
    if Live(db, a) && now < db.attempts[a].expiresAt then db.attempts[a].clerk else None
  }

  function VerifyStep(db: Db, x: Call, c: Choice): Call
    requires x.job.Verify?
  {
    var Verify(attempt, user) := x.job;
    match x.phase
    case VerifyLoad =>
      if Completable(db, attempt, c.now).Some?
        then x.(phase := VerifyAskProvider(Completable(db, attempt, c.now).value))
      else if Live(db, attempt) && db.attempts[attempt].expiresAt <= c.now then x.(phase := VerifyExpire)
      else Release(x, Done(false))
    case VerifyExpire =>
      if Live(db, attempt) then Changed(x, attempt, db.attempts[attempt].(status := Expired), VerifyExpireCommit)
      else x.(phase := VerifyExpireCommit)
    case VerifyAskProvider(clerk) => if c.accepted then x.(phase := VerifyLock(clerk)) else Release(x, Done(false))
    case VerifyLock(clerk) =>
      if Completable(db, attempt, c.now) == Some(clerk) then Lock(x, attempt, VerifyCheckRegistered(clerk))
      else if Live(db, attempt) && db.attempts[attempt].expiresAt <= c.now then Lock(x, attempt, VerifyLockedExpire)
      else Release(x, Done(false))
    case VerifyLockedExpire =>
      if Live(db, attempt) then Changed(x, attempt, db.attempts[attempt].(status := Expired), VerifyExpireCommit)
      else x.(phase := VerifyExpireCommit)
    case VerifyCheckRegistered(clerk) =>
      if attempt !in db.attempts || Registered(db, db.attempts[attempt].email, db.attempts[attempt].mobile)
        || ClerkRegistered(db, clerk)
      then Release(x, Done(false))
      else x.(phase := VerifyWrite(clerk))
    case VerifyWrite(clerk) =>
      // the update of the attempt has no condition on its status: only the row lock protects it
      if attempt !in db.attempts then Release(x, Done(false))
      else
        var row := db.attempts[attempt];
        Changed(x, attempt, row.(status := Completed), VerifyCommit(clerk))
          .(newUser := Some(User(Some(row.email), Some(row.mobile), Some(clerk), Some(attempt))))
    case _ => Release(x, Done(false))
  }

  predicate Commits(p: Phase) {
    p.StartExpireCommit? || p.StartInsert? || p.StartSaveCommit? || p.StartCancelCommit? || p.VerifyExpireCommit?
      || p.VerifyCommit?
  }

  function Install(db: Db, writes: map<AttemptId, Attempt>): Db {
    db.(attempts := db.attempts + writes)
  }

  /** The commit of x: new tables and the phase that follows, or None for an IntegrityError. */
  function Commit(db: Db, x: Call): Option<(Db, Phase)> {
    match x.phase
    case StartExpireCommit => Some((Install(db, x.writes), StartForgetAccounts))
    case StartInsert =>
      if !x.job.Start? || x.job.attempt in db.attempts || LiveAttemptFor(db, x.job.email, x.job.mobile) then None
      else
        var row := Attempt(x.job.email, x.job.mobile, Authorized, x.job.now + ATTEMPT_TTL, None);
        Some((db.(attempts := db.attempts[x.job.attempt := row]), StartCreateAccount))
    case StartSaveCommit(clerk) =>
      if x.writes != map[] && ClerkTaken(db, x.job.attempt, clerk) then None
      else Some((Install(db, x.writes), Done(true)))
    case StartCancelCommit(account) =>
      Some((Install(db, x.writes), if account.Some? then StartDeleteAccount else Done(false)))
    case VerifyExpireCommit => Some((Install(db, x.writes), Done(false)))
    case VerifyCommit(clerk) =>
      if !x.job.Verify? || x.newUser.None? || x.job.user in db.users
         || x.newUser.value.email.None? || x.newUser.value.mobile.None?
         || Registered(db, x.newUser.value.email.value, x.newUser.value.mobile.value) || ClerkRegistered(db, clerk)
      then None
      else Some((Install(db, x.writes).(users := db.users[x.job.user := x.newUser.value]), Done(true)))
    case _ => None
  }

  ghost function Next(s: State, k: CallId, c: Choice): State
    requires Enabled(s, k)
  {
    var x := s.calls[k];
    if c.crashes then s.(calls := s.calls[k := Release(x, Done(false))])
    else if c.raises then s.(calls := s.calls[k := Release(x, Handler(x))])
    else if Commits(x.phase) then
      match Commit(s.db, x)
      case None => s.(calls := s.calls[k := Release(x, Handler(x))])
      case Some(done) => State(done.0, s.calls[k := Release(x, done.1)])
    else s.(calls := s.calls[k := if x.job.Start? then StartStep(s.db, x, c) else VerifyStep(s.db, x, c)])
  }
}
