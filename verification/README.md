# Verigence Security: verified model

Verigence Security authenticates users and machines and hands out short-lived access. Its logic is a set
of transactions over relational tables. This project models the transactions that carry its promises and
proves those promises for every input, every run and, where calls overlap, every interleaving.

`dafny verify dfyconfig.toml` checks everything. All names below are members of the modules in the files
of the same name.

## What is modelled

**USER sessions and devices, interleaved** (`RowLocks`, `RowLocksSafety`, `RowLocksProgress`,
`RowLocksOutcomes`). Create or reuse, refresh, revoke, device approval and the bulk revoke of a status change
are programs of single SQL statements. They run under READ COMMITTED: private writes until commit, `FOR UPDATE`
and `UPDATE` waiting for row locks and then seeing the newest committed row. An error can roll a transaction
back at any statement at which it is not waiting for a lock, so no proof relies on a deadlock being broken.

**USER sessions, one call at a time** (`Schedule`, `Geo`, `SessionLedger`, `SessionRuns`, `SessionGate`,
`SessionStore`). This part carries the whole list of checks in the order of the code, the expiry as the least of
four bounds, the evidence of a failed refresh, an exception planted at any statement, and the user lifecycle
with the identity provider failing before or after the database commit.

**Tenant RBAC** (`Rbac`, `RbacStore`, `RbacEffects`, `RbacVersions`, `GrantSources`, `RbacRaces`, `BumpLocks`,
`RetirementGuard`, `MakerChecker`, `OnboardingGrants`). The tables, the runtime permission query, the separately
written affected-user and retirement-guard queries, all mutating calls of the gate and the privileged-access
service, one at a time and overlapping, with every statement seeing its own committed tables, the row locks of
their version bumps, and the parts of onboarding that hand out access. The set of privileged role keys is a
field of the tables that no call changes; `PrivilegedRoleKeys` ties it to the deployed set.

**Tokens** (`Text`, `Tokens`, `TokenGate`, `Base64Url`). Claim sets as JSON values, issue, verify, token
exchange with every check of the code, scopes, canonical permissions and Base64urlUInt.

**Module catalogue** (`Catalog`, `CatalogGate`, `CatalogMerge`, `CatalogStore`). Validation, the merging
transaction with its ownership and retirement guards, and templates whose permissions are replaced.

**Onboarding** (`Signup`, `SignupSafety`, `SignupTraces`, `SecurityControls`, `OnboardingAccess`, `Invitations`,
`InvitationRuns`, `InvitationEffects`, `InvitationStore`). The signup protocol interleaved statement by
statement around calls to the identity provider, and the invitation service over runs of single calls with
foreign keys, the checks of proposed access, the control registry with its chain of parents, and the secrets
modelled.

Where the code updates rows in place, a class does the same (`RbacStore.Store`, `SessionStore.Store`,
`CatalogStore.Store`, `InvitationStore.Store`, `Tokens.MachineAccess`). Each of its methods is proved against a
specification, functions on table values in most cases and a declarative description of the merged tables for
the catalogue. The lemmas are about those specifications. The modules named `...Gate`, `...Effects`,
`...Outcomes` and `...Traces` say on the columns exactly when a call succeeds, what it then leaves behind, and
what must have happened before.

## Conventions

- Time is an integer number of microseconds. Each call reads its clock once, and no clock is assumed monotone
  unless a lemma says so.
- Ids produced by `uuid4()` are arguments. Where a key collision is possible it is the IntegrityError of the
  database. In the interleaved session model the fresh session ids of concurrent calls are assumed distinct.
- The current database answer, the provider reply, the clock and the fault of a step are arguments, so every
  theorem holds for all of them.

## What the proofs turned up

- A reused session can be handed a token that has already expired. `create_or_reuse` never compares the new
  expiry with the clock, so lowering a tenant's maximum session duration under a running session lets the next
  reuse succeed with a past expiry (`SessionRuns.LoweredPolicyIssuesExpiredToken`); it happens exactly when the
  session's maximum end is no longer ahead (`SessionRuns.ReusedTokenIsAhead`). With fixed policies it never does.
- A session revoked between the lookup and the update of `create_or_reuse` goes unnoticed: the update of a reused
  session does not count its rows (`src/verigence_security/repositories/security_repository.py:581-612`), so the call
  commits and hands out a token for a REVOKED session. A reuse leaves its session ACTIVE exactly when it still was
  when the update looked (`RowLocksOutcomes.ReuseLeavesActiveExactlyWhen`, with an input in
  `RowLocksOutcomes.RevokedUnderReuse`). A refresh counts its rows and is safe.
- Suspending a user leaves a session ACTIVE exactly when it was committed after the bulk revoke had looked
  (`RowLocksOutcomes.SurvivesRevocationExactlyWhen`, with an input in `RowLocksOutcomes.CreatedUnderSuspension`): no
  lock orders a status change and a session created at the same time.
- Approving a privileged request assigns nothing when an ACTIVE assignment is there already, even one outside its
  validity. The subject then holds the role exactly if it was held before (`RbacEffects.ApprovedRoleIsHeldExactlyWhen`,
  with an input in `RbacEffects.ApprovalOverLapsedRow`).
- A stored template can name a permission that is not ACTIVE, exactly when that permission's own submission was
  dropped over such a row (`CatalogMerge.TemplatesNameActivePermissions`, with an input in
  `CatalogMerge.TemplateNamesInactivePermission`).
- The retirement guard does not look at platform roles. A guarded retirement leaves every tenant grant alone, and
  takes a grant away exactly from those whose platform role carried the ACTIVE permission
  (`RetirementGuard.GuardedRetirementAndPlatformRoles`, with an input in
  `RetirementGuard.GuardedRetirementTakesPlatformGrant`); over a whole PUT this is
  `CatalogMerge.RetirementTakesOnlyPlatformGrants`.
- A catalogue PUT can succeed without storing a submitted permission, exactly when a row with another resource or
  action is stored under that key (`CatalogMerge.SubmittedPermissionIsStored`). The columns of such a row can still
  spell the key, cut at another dot (`CatalogMerge.SubmissionSilentlyDropped`), and `configure_permission`
  (`src/verigence_security/services/tenant_authorization_configuration.py:106-121`) stores any. PUTs neither write
  nor repair such rows: over a run a submission is lost exactly when the run started with one under its key, so from
  a catalogue without them every accepted submission is stored (`CatalogMerge.SubmissionsOfRunsAreStored`).
- Base64urlUInt of zero is the empty text and not one zero octet (`Base64Url.UIntRoundTrip`). RSA parameters are
  positive, and for these the encoding is the one section 2 of RFC 7518 asks for.
- `exp` is cut to whole seconds, so a token dies up to a second before the expiry its issuer stored
  (`Tokens.IssuedTokenVerifies`).
- A token exchange by a client with an empty id would drop the actor claim (`Tokens.ExchangeAttenuates`, with an
  input in `Tokens.NamelessClientDropsActor`). The OAuth route refuses empty client ids before it gets there.
- Onboarding hands out roles and groups without raising an authorization version. An ACTIVE user's grants then
  change under an old version exactly when the access is inserted at all and some role it hands out brings a pair
  the user does not have (`OnboardingGrants.VersionMissesExactlyWhen`, with an input in
  `OnboardingGrants.ApprovalUnderOldVersion`).
- Overlapping administrative calls can change an ACTIVE user's grants without a bump. A user is missed exactly when
  the query would list the user at the commit, the call did not bump the user (not listed when it asked, or the
  update read the status it writes), and what it changes brings the user a pair or was the only source of one
  (`RbacRaces.MissesExactlyWhen`). A new member and a new or removed group role that overlap are inputs
  (`RbacRaces.NewMemberMissesNewRole`, `RbacRaces.NewMemberMissesRemoval`). Calls about one user never miss
  (`RbacRaces.UserCallsNeverMiss`).
- Renaming a group or role writes back the status it has read. When the status is changed in between, the rename
  undoes the change and bumps nobody (`RbacRaces.RenameRevivesGroup`); whose grants change then is decided by
  `RbacRaces.GroupUpdateMissesExactlyWhen` and `RbacRaces.RoleUpdateMissesExactlyWhen`.
- A security control whose parents lead round to one already visited makes `_effective_control` recurse without end
  (`SecurityControls.EndlessExactlyWhen`, with an input in `SecurityControls.SelfParentIsEndless`). No call writes
  control definitions, so only a migration can store such a row; the foreign key on the parent does not exclude it.
- The first segment of a permission key is its module key exactly when the module key contains no dot
  (`CatalogMerge.FirstSegmentIsModule`).

`docs/PHASE_4_DEVICE_SESSION_LIFECYCLE.md` (lines 51-76) says that a refresh requires a tenant membership, locks the
session before it looks at the device and writes no evidence for a denied location. The code asks for no membership,
locks the device first and writes evidence for denials below 500; the model follows the code. The document's promise
that a revoked session blocks refresh and new tokens (line 24) is `SessionRuns.EndedSessionsIssueNothing` for calls
one at a time; for a reuse that overlaps the revoke it fails as said above.

## Model

| member | source | states |
|---|---|---|
| RowLocksSafety.StepKeepsInv | src/verigence_security/services/session_refresh_service.py:183-302 | every statement and every commit of any of the five programs keeps one ACTIVE session per device, the device limit, lock exclusion and what each transaction assumes about its locked rows |
| RowLocksSafety.EveryRunIsSafe | src/verigence_security/services/access_service.py:57-152 | at every moment of every interleaving at most one USER session per (tenant, user, device) is ACTIVE, by the device-row lock alone, and no owner has more ACTIVE devices than the limit |
| RowLocksSafety.FinalSessionsStay | src/verigence_security/repositories/security_repository.py:488-612 | a REVOKED or EXPIRED session never changes again in any interleaving |
| RowLocksSafety.RefreshCommitsAnActiveSession | src/verigence_security/services/session_refresh_service.py:200-302 | a refresh that commits does so while its session is ACTIVE and owned by the caller, and leaves it ACTIVE |
| RowLocksSafety.ApprovalIsAtomic | src/verigence_security/services/device_lifecycle.py:31-74 | device PENDING to ACTIVE and request PENDING to APPROVED happen in one commit, and no other step of any call touches a device or a request |
| RowLocksSafety.CommitKeepsLimit | src/verigence_security/repositories/device_session_repository.py:96-235 | a commit keeps every owner within the limit because the membership lock has kept the count still since it was taken |
| RowLocksSafety.CommitKeepsOneActive | src/verigence_security/repositories/security_repository.py:534-612 | a commit never leaves two ACTIVE sessions on one device |
| RowLocksProgress.WaitingDescends | src/verigence_security/services/session_refresh_service.py:183-208 | along every edge of the wait-for graph a height falls, so the graph is acyclic |
| RowLocksProgress.NoDeadlock | src/verigence_security/services/device_lifecycle.py:32-65 | in every reachable state, while some call is unfinished, some call can execute its next statement without raising an error |
| RowLocksProgress.EveryStepAdvances | src/verigence_security/services/session_lifecycle.py:22-52 | each step moves its own transaction strictly forward and no other, so no call runs for ever |
| RowLocksOutcomes.SessionsCommitOnActiveDevices | src/verigence_security/repositories/security_repository.py:328-345 | in every interleaving a create, reuse or refresh commits while its device is ACTIVE and the owner's, a refresh besides for the owner's own session that had not expired |
| RowLocksOutcomes.RevokeCommitsItsSession | src/verigence_security/services/session_lifecycle.py:22-52 | a revoke that commits has ended the caller's own ACTIVE session for good and touched nothing else |
| RowLocksOutcomes.ReuseLeavesActiveExactlyWhen | src/verigence_security/services/access_service.py:101-139 | a reuse that commits leaves its session ACTIVE exactly when it still was when the update looked |
| RowLocksOutcomes.InsertLeavesActive | src/verigence_security/services/access_service.py:140-152 | an insert that commits leaves its fresh session ACTIVE for the owner and device |
| RowLocksOutcomes.RevokedUnderReuse | src/verigence_security/repositories/security_repository.py:581-612 | a concrete interleaving in which a revoked session is answered for by a reuse that commits |
| RowLocksOutcomes.SurvivesRevocationExactlyWhen | src/verigence_security/services/global_user_onboarding.py:468-490 | a status change that commits leaves a session of its user ACTIVE exactly when it is ACTIVE then and was not when the bulk revoke looked |
| RowLocksOutcomes.CreatedUnderSuspension | src/verigence_security/services/global_user_onboarding.py:468-490 | a concrete interleaving in which a session created under a suspension stays ACTIVE |
| Schedule.EvaluateSchedule | src/verigence_security/services/schedule.py:31-54 | the nested search over two days with early return computes the specification, first window of today before first of yesterday |
| Schedule.TwoDaySearchIsComplete | src/verigence_security/services/schedule.py:24-54 | without an active override access is granted exactly when some day of the unbounded weekly calendar has an open window, midnight-crossing windows longer than a day included |
| Schedule.OpenByTimeOfDay | src/verigence_security/services/schedule.py:42-50 | the calendar by weekday and time of day: opened today, or the day before and past midnight |
| Schedule.OverrideGrants | src/verigence_security/services/schedule.py:31-37 | an active override grants until its own end whatever the windows, an inactive one plays no part |
| Schedule.GrantEndsAnOpenWindow | src/verigence_security/services/schedule.py:42-54 | the authorized end is the end of the first window that is open now, today's before yesterday's |
| Schedule.GrantIsStable | src/verigence_security/services/schedule.py:38-53 | in a fixed-offset zone a grant ends strictly after now, and every instant before its end is granted by the same windows and override |
| Schedule.CalendarIsWeekly | src/verigence_security/services/schedule.py:42-50 | shifting by whole weeks changes nothing |
| Geo.FindLocation | src/verigence_security/services/geo.py:66-85 | collecting the locations within reach and taking the minimum returns the specified location |
| Geo.MatchLocation | src/verigence_security/services/geo.py:66-85 | the result is the first of the nearest locations within reach, and each error means none assigned or none in reach |
| SessionStore.Store.TryRefresh | src/verigence_security/services/session_refresh_service.py:164-301 | the refresh statements raise the first failure of the specified order and otherwise produce the specified tables and token |
| SessionStore.Store.Refresh | src/verigence_security/services/session_refresh_service.py:154-335 | the call with rollback and evidence equals the specification for every failure point |
| SessionStore.Store.PersistDenial | src/verigence_security/services/session_refresh_service.py:118-152 | one DENY row exactly for catalogue errors below 500 whose evidence could be stored, and a failing evidence write is swallowed |
| SessionStore.Store.CreateOrReuse | src/verigence_security/services/access_service.py:30-203 | the call with rollback equals the specification for every failure point and every row the lookup may return |
| SessionStore.Store.WriteCreate | src/verigence_security/services/access_service.py:101-199 | expire stale, look up, reuse or insert, record, sign and commit equal the specification |
| SessionStore.Store.Revoke | src/verigence_security/services/session_lifecycle.py:22-52 | only an ACTIVE session of that tenant and user becomes REVOKED, and an exception changes nothing |
| SessionStore.Store.SetUserStatus | src/verigence_security/services/global_user_onboarding.py:417-520 | the status change with both provider calls equals the specification for every failure pattern |
| SessionRuns.RefreshIsAllOrNothing | src/verigence_security/services/session_refresh_service.py:118-335 | a refresh ends with session row, one ALLOW row and a token that agree, or with the sessions untouched and one DENY row with the caller's code exactly for errors below 500 with storable evidence |
| SessionRuns.EvidenceNamesOwnActiveSession | src/verigence_security/services/session_refresh_service.py:65-116 | a DENY row that names a session or a location was written for an ACTIVE session of the caller |
| SessionRuns.CreateIsAllOrNothing | src/verigence_security/services/access_service.py:42-203 | a failed create or reuse changes nothing; a successful one answers for the identity's user, extends an unexpired session of that device at the matched location or inserts one, touches only stale sessions of the device besides, and writes one ALLOW row |
| SessionRuns.EndedSessionsIssueNothing | src/verigence_security/repositories/security_repository.py:488-612 | over any run a REVOKED or EXPIRED session keeps its row and no later call hands out a token for it |
| SessionRuns.EveryRunIsWell | src/verigence_security/services/access_service.py:103-152 | over any run with fixed positive policies every issued expiry is strictly after its clock, within the token, location, session and schedule bounds, and equal to that of an ACTIVE row |
| SessionRuns.FinishIssuesWell | src/verigence_security/services/access_service.py:110-152 | create and reuse issue an expiry ahead of the clock though the code never tests it |
| SessionRuns.RefreshIssuesWell | src/verigence_security/services/session_refresh_service.py:237-276 | the same for a refresh, whose expiry also stays within the schedule |
| SessionRuns.ReusedTokenIsAhead | src/verigence_security/services/access_service.py:110-128 | whatever the ledger, a reused token is ahead of the clock exactly when the session's maximum end still is |
| SessionRuns.LoweredPolicyIssuesExpiredToken | src/verigence_security/services/access_service.py:110-138 | a concrete ledger in which a lowered policy makes a reuse issue an expired token |
| SessionRuns.LifecycleOverRuns | src/verigence_security/services/global_user_onboarding.py:427-520 | over any run EXITED is final, nobody returns to PENDING or INVITED, and whoever becomes ACTIVE has an ACTIVE Clerk identity |
| SessionRuns.EventIsLifecycleStep | src/verigence_security/services/global_user_onboarding.py:456-500 | only a status change whose unban succeeded activates a user, and only an activation approves a pending onboarding request |
| SessionRuns.SetStatusKeepsInv | src/verigence_security/services/global_user_onboarding.py:468-490 | after a status change a user who is not ACTIVE has no ACTIVE session in any tenant |
| SessionRuns.FailedBanStillLocksOut | src/verigence_security/services/global_user_onboarding.py:514-520 | a deactivation whose ban fails has taken effect and left no ACTIVE session |
| SessionRuns.FailedActivationChangesNothing | src/verigence_security/services/global_user_onboarding.py:456-512 | an activation whose unban or commit fails leaves user, sessions and onboarding request as they were |
| SessionGate.CreateIssuesExactlyWhen | src/verigence_security/services/access_service.py:42-203 | with at most one unexpired session per device, a token is issued exactly when tenant, user, principal and device are ACTIVE, the sample is trusted, accurate and fresh, the nearest location in reach is open by its ACTIVE schedule or an override, network and permissions allow it, the session found is at that location or a fresh one can be stored, the row ends after its start, and no statement of the call fails |
| SessionGate.CreateCanIssueExactlyWhen | src/verigence_security/services/access_service.py:42-203 | whatever the ledger, the call can issue a token exactly when some session its lookup may return fits these conditions |
| SessionGate.RefreshIssuesExactlyWhen | src/verigence_security/services/session_refresh_service.py:154-301 | a refresh issues a token exactly when these conditions hold for the caller's own ACTIVE unexpired session and all four ends lie after the clock and the start |
| SessionGate.ExpiryIsLatest | src/verigence_security/services/access_service.py:122-127 | the expiry is the latest instant within the token's, the sample's, the session's and the schedule's end |
| SessionGate.RefreshRefusalExplains | src/verigence_security/services/session_refresh_service.py:164-258 | without a planned exception every code a refused refresh raises names a condition that is there |
| SessionGate.CreateRefusalExplains | src/verigence_security/services/access_service.py:42-100 | the same for create or reuse before it looks for a session |
| SessionGate.ConflictExactlyWhen | src/verigence_security/services/access_service.py:101-108 | the context conflict is raised exactly when the session found is at another location than the matched one |
| SessionGate.EvidenceNamesWhatWasKnown | src/verigence_security/services/session_refresh_service.py:65-116 | a DENY row names the session exactly when it had been found and the location exactly when one had been matched |
| SessionGate.EvidenceIsLeftExactlyWhen | src/verigence_security/services/session_refresh_service.py:118-152 | a failed refresh leaves evidence exactly for catalogue errors that are not the service's own and whose row could be stored |
| SessionGate.RevokeEndsExactlyOne | src/verigence_security/services/session_lifecycle.py:22-52 | a revoke answers true exactly for the caller's ACTIVE session, which is then REVOKED, and changes no other row |
| SessionGate.ActivationTakesEffectExactlyWhen | src/verigence_security/services/global_user_onboarding.py:450-512 | an activation succeeds exactly for a user with a Clerk account who is PENDING, INVITED, SUSPENDED or DISABLED when nothing fails, and then makes the user ACTIVE and approves a pending onboarding |
| SessionGate.DeactivationTakesEffectExactlyWhen | src/verigence_security/services/global_user_onboarding.py:462-520 | a deactivation takes effect exactly unless the user has exited, has that status or the database fails; every ACTIVE session of the user is REVOKED and a failing ban is reported |
| Rbac.CreateRole | src/verigence_security/services/tenant_rbac_admin.py:369-433 | only roles and their permissions change, an error changes nothing, foreign keys stay intact |
| Rbac.ApproveRequest | src/verigence_security/services/privileged_access.py:159-235 | only assignments, versions and requests change, an error changes nothing, foreign keys stay intact |
| RbacStore.Store.BumpVersions | src/verigence_security/services/tenant_rbac_gate.py:194-209 | the loop of upserts raises each affected user once, a missing row counting as 1, and nobody else |
| RbacStore.Store.UpdateGroup | src/verigence_security/services/tenant_rbac_admin.py:91-140 | name, description and status are rewritten in place, absent arguments keep what was read, and a change of status bumps the members found before it |
| RbacStore.Store.AddGroupMember | src/verigence_security/services/tenant_rbac_admin.py:142-199 | in-place insert with its four refusals and the bump |
| RbacStore.Store.AssignGroupRole | src/verigence_security/services/tenant_rbac_admin.py:239-299 | in-place insert and bump of the group's members |
| RbacStore.Store.CreateRole | src/verigence_security/services/tenant_rbac_admin.py:369-433 | reserved keys and inactive permissions are refused before the role and its permissions are inserted |
| RbacStore.Store.UpdateRole | src/verigence_security/services/tenant_rbac_admin.py:435-482 | name, description and status are rewritten in place, absent arguments keep what was read, and a change of status bumps the users the role reaches |
| RbacStore.Store.AssignUserRole | src/verigence_security/services/tenant_rbac_gate.py:67-173 | ordinary roles are assigned, privileged ones become a PENDING request |
| RbacStore.Store.ApproveRequest | src/verigence_security/services/privileged_access.py:159-235 | assignment by the requester, bump and APPROVED request, for an independent approver only |
| RbacEffects.ApprovalTakesEffectExactlyWhen | src/verigence_security/services/privileged_access.py:159-235 | an approval answers true exactly for a waiting request, an independent approver, an ACTIVE subject and role, and a fresh id where a row is needed; the subject then holds the role, through exactly one new row of the requester's from now on and a version raised by one where none stood |
| RbacEffects.ApprovedRoleIsHeldExactlyWhen | src/verigence_security/services/privileged_access.py:174-207 | after an approval the runtime query finds the role exactly when a row was added or it was held already |
| RbacEffects.ApprovalOverLapsedRow | src/verigence_security/services/privileged_access.py:174-186 | a concrete approval that grants nothing because a lapsed assignment is still ACTIVE |
| RbacEffects.RejectionTakesEffectExactlyWhen | src/verigence_security/services/privileged_access.py:237-276 | a rejection answers true exactly for a waiting request and an independent approver, and changes only that request |
| RbacEffects.AssignmentTakesEffectExactlyWhen | src/verigence_security/services/tenant_rbac_gate.py:67-173 | the gate answers true exactly for an ACTIVE user and role not assigned yet, nor awaited if privileged; an ordinary role is held from now on, a privileged one only awaits its decision |
| RbacEffects.RequestingIsAssigning | src/verigence_security/services/privileged_access.py:31-131 | request_or_assign_user_role has the gate's effects and answers |
| RbacEffects.UnassignmentTakesEffectExactlyWhen | src/verigence_security/services/tenant_rbac_admin.py:633-669 | a removal answers true exactly when the role is assigned; afterwards no row gives it to the user at any instant and nobody else's row moved |
| RbacEffects.GroupCreationTakesEffectExactlyWhen | src/verigence_security/services/tenant_rbac_admin.py:44-89 | a group is created exactly under a free id and a key free in the tenant |
| RbacEffects.GroupUpdateTakesEffectExactlyWhen | src/verigence_security/services/tenant_rbac_admin.py:91-140 | given columns are written, absent ones kept, and exactly a change of status raises exactly the members' versions |
| RbacEffects.JoiningTakesEffectExactlyWhen | src/verigence_security/services/tenant_rbac_admin.py:142-199 | a member is added exactly to an ACTIVE group, for an ACTIVE user not in it, and is in it from now on |
| RbacEffects.LeavingTakesEffectExactlyWhen | src/verigence_security/services/tenant_rbac_admin.py:201-237 | a member is removed exactly when listed, and is then in the group at no instant |
| RbacEffects.GroupGrantTakesEffectExactlyWhen | src/verigence_security/services/tenant_rbac_admin.py:239-299 | a group gets a role exactly when both are ACTIVE and it has it not yet, and exactly its members' versions rise |
| RbacEffects.GroupRevocationTakesEffectExactlyWhen | src/verigence_security/services/tenant_rbac_admin.py:301-338 | a group loses a role exactly when it has it, confers it no more, and exactly its members' versions rise |
| RbacEffects.RoleCreationTakesEffectExactlyWhen | src/verigence_security/services/tenant_rbac_admin.py:369-433 | a role is created exactly under an unreserved free key with distinct ACTIVE permissions, and carries just these |
| RbacEffects.RoleUpdateTakesEffectExactlyWhen | src/verigence_security/services/tenant_rbac_admin.py:435-482 | given columns are written, absent ones and the key kept, and exactly a change of status raises exactly the versions it reaches |
| RbacEffects.PermissionGrantTakesEffectExactlyWhen | src/verigence_security/services/tenant_rbac_admin.py:484-535 | a role gets a permission exactly when both are ACTIVE and it has it not yet |
| RbacEffects.PermissionRevocationTakesEffectExactlyWhen | src/verigence_security/services/tenant_rbac_admin.py:537-573 | a role loses a permission exactly when it has it |
| RbacEffects.LeavingUndoesJoining | src/verigence_security/services/tenant_rbac_admin.py:142-237 | adding and removing a member leaves everybody's grants at every instant as they were |
| RbacEffects.UnassigningUndoesAssigning | src/verigence_security/services/tenant_rbac_admin.py:575-669 | the same for assigning and removing an ordinary role |
| RbacEffects.GroupRevocationUndoesGroupGrant | src/verigence_security/services/tenant_rbac_admin.py:239-338 | the same for a group's role |
| RbacEffects.PermissionRevocationUndoesGrant | src/verigence_security/services/tenant_rbac_admin.py:484-573 | the same for a role's permission |
| RbacVersions.RoleUsersComplete | src/verigence_security/services/tenant_rbac_gate.py:235-276 | the affected-users query of a role lists every ACTIVE user the runtime query lets it reach |
| RbacVersions.EveryCallIsStamped | src/verigence_security/services/tenant_rbac_admin.py:91-669 | after any call, an ACTIVE user whose grants differ has the version raised by exactly one, versions rise by at most one and only for the affected list |
| RbacVersions.VersionsNeverFall | src/verigence_security/services/tenant_rbac_gate.py:194-209 | over any run of calls no version falls |
| RbacVersions.StillVersionMeansSameGrants | src/verigence_security/services/permissions.py:25-92 | while an ACTIVE user's version stands still over a run no call of it changed the user's grants, role keys or permissions |
| GrantSources.GrantsGrowExactlyWhen | src/verigence_security/services/permissions.py:25-92 | coming to hold more roles changes the effective grants exactly when one of them carries an ACTIVE permission the user lacks under its key |
| GrantSources.GrantsShrinkExactlyWhen | src/verigence_security/services/permissions.py:25-92 | leaving out a role, a group or one role of a group changes the grants exactly when it was the only source of some pair, direct roles, other groups and platform roles considered |
| RbacRaces.MissesExactlyWhen | src/verigence_security/services/tenant_rbac_gate.py:194-276 | whatever was committed between the statements of a call, its commit leaves an ACTIVE user with changed grants under an old version exactly when the user is within reach at the commit, was not bumped (not listed when the call asked, or the update read the status it writes), and the change brings the user a pair or removes the only source of one |
| RbacRaces.GroupUpdateMissesExactlyWhen | src/verigence_security/services/tenant_rbac_admin.py:91-140 | the same for update_group: the status written differs from the committed one, the member was not bumped, and a role of the group brings a pair or the group is the only source of one |
| RbacRaces.RoleUpdateMissesExactlyWhen | src/verigence_security/services/tenant_rbac_admin.py:435-482 | the same for update_role |
| RbacRaces.GroupRoleAssignMissesExactlyWhen | src/verigence_security/services/tenant_rbac_admin.py:239-299 | assign_group_role misses an ACTIVE user exactly when the membership came after it asked whom to bump, group and role are ACTIVE at its commit and the role brings a new pair |
| RbacRaces.GroupRoleRemoveMissesExactlyWhen | src/verigence_security/services/tenant_rbac_admin.py:301-338 | remove_group_role misses an ACTIVE user exactly when the membership came after it asked, it ends every assignment of the role to the group, and that was the only source of some pair |
| RbacRaces.PermissionAddMissesExactlyWhen | src/verigence_security/services/tenant_rbac_admin.py:484-535 | add_role_permission misses an ACTIVE user exactly when the role reached the user after it asked, the user holds it at the commit and lacked the ACTIVE permission under its key |
| RbacRaces.PermissionRemoveMissesExactlyWhen | src/verigence_security/services/tenant_rbac_admin.py:537-573 | remove_role_permission misses an ACTIVE user exactly when the role reached the user after it asked and neither a platform role nor another role still grants the pair |
| RbacRaces.UserCallsNeverMiss | src/verigence_security/services/tenant_rbac_admin.py:142-237 | calls about one user miss nobody, whatever they overlap |
| RbacRaces.NoOverlapNoMiss | src/verigence_security/services/tenant_rbac_admin.py:91-669 | a commit that nothing overlaps equals the serial call and misses nobody |
| RbacRaces.NewMemberMissesNewRole | src/verigence_security/services/tenant_rbac_admin.py:142-299 | a concrete overlap of a new member and a new group role after which the member has new grants under the old version |
| RbacRaces.NewMemberMissesRemoval | src/verigence_security/services/tenant_rbac_admin.py:142-338 | a concrete overlap of a new member and a removed group role after which the member has lost the grants of the join without a bump |
| RbacRaces.RenameRevivesGroup | src/verigence_security/services/tenant_rbac_admin.py:91-140 | a concrete overlap in which a rename switches a disabled group on again and bumps nobody |
| BumpLocks.NoBumpDeadlock | src/verigence_security/services/tenant_rbac_gate.py:194-209 | however many calls overlap and however far each has come, some unfinished one is not waiting for a row lock, because every call locks its own row first and then version rows in sorted order |
| BumpLocks.EveryStepIsOneLess | src/verigence_security/services/tenant_rbac_gate.py:194-209 | each lock or commit takes one of finitely many steps, so all calls end |
| BumpLocks.UnsortedDeadlocks | src/verigence_security/services/tenant_rbac_gate.py:194-195 | without the sorting two calls that bump the same two users can wait for each other |
| RetirementGuard.GuardAgreesWithRuntime | src/verigence_security/repositories/module_catalog_repository.py:154-199 | the guard query is empty exactly when no user of any tenant would obtain the permission through a direct or group role |
| RetirementGuard.RetirementChangesNothingIffGuardEmpty | src/verigence_security/repositories/module_catalog_repository.py:154-199 | for an ACTIVE permission the guard is empty exactly when retiring it changes no user's tenant grants |
| RetirementGuard.GuardedRetirementKeepsTenantGrants | src/verigence_security/services/permissions.py:34-73 | a guarded retirement leaves every user's tenant roles and permissions as they were |
| RetirementGuard.GuardedRetirementAndPlatformRoles | src/verigence_security/services/permissions.py:74-89 | with platform roles included the effective set changes exactly when such a role carried the ACTIVE permission |
| RetirementGuard.GuardedRetirementTakesPlatformGrant | src/verigence_security/repositories/module_catalog_repository.py:154-199 | a concrete guarded retirement that takes a grant away through a platform role |
| MakerChecker.MakerCheckerHolds | src/verigence_security/services/privileged_access.py:159-331 | over runs of gate, privileged-access and onboarding moves every ACTIVE privileged assignment has an APPROVED request for the same tenant, user and role, made by its assigner and decided by a third person |
| MakerChecker.DecisionsAreFinal | src/verigence_security/services/privileged_access.py:278-331 | a decided request never changes |
| MakerChecker.MoveAccounted | src/verigence_security/services/onboarding.py:303-361 | no move creates or renames a role into a privileged key, and each ACTIVE assignment it adds is ordinary or vouched for |
| MakerChecker.OnboardingRaisesNoVersion | src/verigence_security/services/onboarding.py:1029-1110 | access handed out by onboarding leaves every authorization version alone |
| OnboardingGrants.InsertedRoles | src/verigence_security/services/onboarding.py:1029-1110 | after the two insert loops a user holds exactly the ACTIVE roles held before and, for the member, those listed or conferred by a listed group where no ACTIVE row stood in the way |
| OnboardingGrants.InsertedRowsSay | src/verigence_security/services/onboarding.py:1029-1110 | every access row the loops insert is the member's, for something listed, ACTIVE from now on, and names the inviter or approver |
| OnboardingGrants.GrantsChangeExactlyWhen | src/verigence_security/services/onboarding.py:303-361 | accepting or approving changes a user's grants exactly for the member, when the access is valid and unprivileged and a role it hands out brings a (role key, permission) pair the member lacks |
| OnboardingGrants.VersionMissesExactlyWhen | src/verigence_security/services/onboarding.py:559-644 | the version promise of the administrative calls fails for an ACTIVE user exactly in that case |
| OnboardingGrants.ApprovalUnderOldVersion | src/verigence_security/services/onboarding.py:559-644 | a concrete approval that gives an ACTIVE user a first grant while the version stands still |
| PrivilegedRoleKeys.DeployedKeysAreReserved | src/verigence_security/services/privileged_access.py:13-25 | every deployed privileged key has the prefix create_role refuses |
| Text.SortedSet | src/verigence_security/services/permissions.py:18-22 | strictly ascending and with exactly the given members |
| Text.AscendingIsUnique | src/verigence_security/services/permissions.py:18-22 | a strictly ascending list is determined by its members |
| Text.CanonicalPermissionIsWord | src/verigence_security/services/permissions.py:11-15 | a canonical permission has no blank and no colon, so the extra colon test is redundant |
| Text.WordsOfJoin | src/verigence_security/api/routes/access.py:257-301 | splitting a blank-joined list of words gives the list back |
| Text.ScopeRoundTrip | src/verigence_security/api/routes/access.py:257-301 | the printed scope of a validated list splits and validates back to the same ascending list (section 3.3 of RFC 6749) |
| Tokens.IssuedTokenVerifies | src/verigence_security/services/token_service.py:39-156 | with matching keys an issued token is accepted unchanged before its whole-second expiry and reported expired from then on |
| Tokens.ExchangeAttenuates | src/verigence_security/services/access_service.py:301-378 | one exchange narrows permissions to the subject's and the client's, changes nothing else but the actor, and prints as scope what it signed |
| Tokens.NamelessClientDropsActor | src/verigence_security/services/access_service.py:301-378 | a concrete exchange by a client with an empty id after which the actor claim is gone |
| Tokens.ChainAttenuates | src/verigence_security/services/access_service.py:301-378 | along any chain permissions stay within every earlier token's and every client's, expiry and subject data never change, and act names the latest client (section 4.1 of RFC 8693) |
| Tokens.ChainExpiresWithItsRoot | src/verigence_security/services/access_service.py:342-365 | no token of a chain verifies once the first one has expired |
| Tokens.MachineTokenIsNotExchangeable | src/verigence_security/services/access_service.py:313-315 | a token issued to a machine is never accepted as subject token |
| Tokens.ExchangeNeverTripsIssue | src/verigence_security/services/token_service.py:39-67 | what the exchange has checked is enough for issue: it fails only for a missing signing key |
| Tokens.MachineAccess.ExchangeUserToken | src/verigence_security/services/access_service.py:301-378 | the call equals the specification, and any failure, the commit included, leaves the credential row alone |
| TokenGate.ExchangesExactlyWhen | src/verigence_security/services/access_service.py:301-393 | an exchange succeeds exactly when an ACTIVE machine presents the secret its verifier is the hash of, under a credential in force, with an accepted USER token of an ACTIVE tenant in its scope, asking for canonical permissions that are ACTIVE, granted to it and in the token, while a signing key is there |
| TokenGate.ExchangedTokenSays | src/verigence_security/services/access_service.py:342-378 | the new token carries exactly the permissions asked for, is issued now under its own id, and is accepted exactly until the subject token's expiry |
| TokenGate.VerifiesExactlyWhen | src/verigence_security/services/token_service.py:100-156 | verify accepts exactly tokens signed with our key, for our issuer and audience, in their time, with the required claims, the shape of their actor type and canonical permissions |
| TokenGate.IssuesExactlyWhen | src/verigence_security/services/token_service.py:39-99 | issue succeeds exactly with a key, claims that fit the actor type and canonical permissions |
| TokenGate.IssuedTokenReadsBack | src/verigence_security/services/token_service.py:60-99 | every claim put into a token can be read back from it |
| Base64Url.RawFits | src/verigence_security/services/token_service.py:19-21 | the octet count derived from bit_length never overflows and is the least possible |
| Base64Url.UIntRoundTrip | src/verigence_security/services/token_service.py:19-21 | decoding returns the number, with no leading zero octet exactly for positive numbers |
| Base64Url.EncodeOfDecode | src/verigence_security/services/token_service.py:19-21 | a strict decoder accepts only what the encoder writes |
| Base64Url.EncodingIsInjective | src/verigence_security/services/token_service.py:158-179 | different key parameters never share an encoding |
| CatalogStore.Store.ValidateCatalog | src/verigence_security/services/module_catalog.py:139-204 | the validation loops accept exactly the valid submissions, and each error explains a fault that is there |
| CatalogStore.Store.MergePermissions | src/verigence_security/services/module_catalog.py:82-103 | the loop succeeds exactly when every permission is owned and its retirement guarded, and then has merged all of them |
| CatalogStore.Store.UpsertPermission | src/verigence_security/repositories/module_catalog_repository.py:78-121 | the guarded upsert, including the silent no-op on a different split |
| CatalogStore.Store.UpsertTemplate | src/verigence_security/repositories/module_catalog_repository.py:201-283 | a stored template keeps its id and its permission rows are replaced |
| CatalogStore.Store.PutCatalog | src/verigence_security/services/module_catalog.py:63-137 | accepted exactly when the whole submission is acceptable and the database holds, then merged as a whole, otherwise nothing changes |
| CatalogGate.PutIsAcceptedExactlyWhen | src/verigence_security/services/module_catalog.py:63-204 | a PUT is accepted exactly when header, keys, names and statuses are in order, every key is the module's own and free of other owners, nobody would lose a retired permission through a tenant role, every template names distinct permissions that are or become ACTIVE, and new template ids are fresh |
| CatalogMerge.SubmittedPermissionIsStored | src/verigence_security/repositories/module_catalog_repository.py:78-121 | a submitted permission is stored as submitted exactly unless a row with another split was there, which is kept |
| CatalogMerge.SubmissionSilentlyDropped | src/verigence_security/repositories/module_catalog_repository.py:78-121 | a concrete accepted PUT that does not store its only permission, over a row whose columns spell the key |
| CatalogMerge.UnsubmittedPermissionIsKept | src/verigence_security/services/module_catalog.py:82-103 | permissions not submitted are untouched |
| CatalogMerge.TemplatesAreReplacedExactly | src/verigence_security/repositories/module_catalog_repository.py:201-283 | a submitted template ends with the submitted name, description, status and version, exactly its submitted permissions and a stable id, every other template with what it had |
| CatalogMerge.TemplatesNameActivePermissions | src/verigence_security/services/module_catalog.py:168-192 | what a stored template names is stored for the module, and is ACTIVE exactly unless its own submission was dropped over an inactive row of another split |
| CatalogMerge.TemplateNamesInactivePermission | src/verigence_security/services/module_catalog.py:168-192 | a concrete accepted PUT after which a template names a DEPRECATED permission |
| CatalogMerge.StripTakesOnlySpace | src/verigence_security/services/module_catalog.py:139-192 | names and versions lose white space at both ends and nothing else |
| CatalogMerge.SecondPutIsAccepted | src/verigence_security/services/module_catalog.py:63-204 | an identical PUT is accepted again |
| CatalogMerge.SecondPutChangesNothing | src/verigence_security/services/module_catalog.py:63-137 | an identical PUT changes nothing but its audit record |
| CatalogMerge.OwnersNeverChange | src/verigence_security/services/module_catalog.py:82-88 | over any run a stored permission never disappears and never changes module, resource or action |
| CatalogMerge.SpellingOverRuns | src/verigence_security/services/module_catalog.py:93-98 | over any run first segment, resource and action rejoin to the key of every stored permission |
| CatalogMerge.SubmissionsOfRunsAreStored | src/verigence_security/repositories/module_catalog_repository.py:78-121 | over any run of PUTs an accepted submission is stored exactly unless the run started with a row of another split under its key, and always from a catalogue without such rows |
| CatalogMerge.SplitIsSettled | src/verigence_security/repositories/module_catalog_repository.py:78-121 | over any run of PUTs the rows with another split than the service computes are those the run started with |
| CatalogMerge.SplitSpells | src/verigence_security/services/module_catalog.py:93-98 | rows split as the service splits canonical keys spell their keys |
| CatalogMerge.FirstSegmentIsModule | src/verigence_security/services/module_catalog.py:194-200 | the first segment is the module key exactly when that has no dot |
| CatalogMerge.RetirementTakesNothing | src/verigence_security/services/module_catalog.py:89-92 | no accepted PUT takes a tenant grant of a permission it retires, or one it does not mention, from any user of any tenant |
| CatalogMerge.RetirementTakesOnlyPlatformGrants | src/verigence_security/services/module_catalog.py:82-103 | of all grants, platform roles included, whose permission an accepted PUT retires or does not mention, a user loses exactly those whose permission it retires for good, and each of them came from a platform role only |
| SignupSafety.StepKeepsInv | src/verigence_security/services/phase1_self_onboarding.py:32-304 | every statement of any start or verify call keeps the signup invariants, for all provider replies, failures and crashes |
| SignupSafety.CompleteKeepsDb | src/verigence_security/services/phase1_self_onboarding.py:194-296 | the commit that completes an attempt adds its one user and breaks no unique index |
| SignupSafety.EveryRunIsSafe | src/verigence_security/services/phase1_self_onboarding.py:349-394 | in every interleaving live attempts share no e-mail or mobile and users share no e-mail, mobile or Clerk id |
| SignupSafety.TerminalIsFinal | src/verigence_security/services/phase1_self_onboarding.py:325-347 | an attempt leaves AUTHORIZED_FOR_CLERK at most once and its terminal row never changes |
| SignupSafety.OneUserPerCompletedAttempt | src/verigence_security/services/phase1_self_onboarding.py:161-304 | racing verifies create one user, and an attempt has one exactly when it is COMPLETED |
| SignupSafety.NoLockAcrossProviderCalls | src/verigence_security/services/phase1_self_onboarding.py:179-190 | no row lock and no unsaved write is held while the provider is being called |
| SignupTraces.EveryRunIsATrace | src/verigence_security/services/phase1_self_onboarding.py:32-304 | every run can be told with the choices of its steps, which is what the results below are about |
| SignupTraces.CompletedWasVerified | src/verigence_security/services/phase1_self_onboarding.py:161-304 | a COMPLETED attempt was completed by one verify call whose code the provider had accepted, for the Clerk id the user carries, and which then locked the attempt live, unexpired and under that id |
| SignupTraces.RefusedCallIsOver | src/verigence_security/services/phase1_self_onboarding.py:179-191 | a verify call whose code is refused, or gets no answer, takes no further step |
| SignupTraces.AttemptWasChecked | src/verigence_security/services/phase1_self_onboarding.py:32-92 | every attempt was stored by a start call, live for half an hour, after it had found no user and then no live attempt with its e-mail or mobile |
| SignupTraces.ClerkIdIsTheProviders | src/verigence_security/services/phase1_self_onboarding.py:94-136 | every Clerk id an attempt bears was created by the provider for the start call of that attempt |
| SignupTraces.FailedStartLeavesNothingLive | src/verigence_security/services/phase1_self_onboarding.py:94-136 | a start that stored its attempt ends with an account saved or the attempt ended, whatever raised, unless it crashed or its cancelling failed |
| SignupTraces.OrphanAccountIsDeleted | src/verigence_security/services/phase1_self_onboarding.py:94-136 | under the same proviso an account created at the provider is saved or its deletion has been asked for |
| InvitationStore.Store.AcceptInvitation | src/verigence_security/services/onboarding.py:239-387 | the call with token check, binding, validated access, conclusion and rollback equals the specification |
| InvitationStore.Store.BindIdentity | src/verigence_security/services/onboarding.py:777-880 | binding or merging in place equals the specification, errors included |
| InvitationStore.Store.SubmitSelfRegistration | src/verigence_security/services/onboarding.py:389-520 | the call with tenant lookup, control walk, secret check, early commits and rollbacks equals the specification |
| InvitationStore.Store.ValidatedAccess | src/verigence_security/services/onboarding.py:960-1027 | the loops refuse exactly a proposal with an inactive or foreign role, group, location or schedule, and otherwise keep its distinct entries and name its privileged roles |
| OnboardingAccess.StoredProposalIsJudgedAlike | src/verigence_security/services/onboarding.py:62-70 | validating the stored, deduplicated proposal again keeps it and gives the verdict of the original |
| OnboardingAccess.ClashStopsTheLoop | src/verigence_security/services/onboarding.py:324-353 | inserting the privileged requests fails exactly when some privileged role of the proposal already awaits approval or a fresh id collides |
| OnboardingAccess.GateOpensExactlyWhen | src/verigence_security/services/onboarding.py:400-432 | a registration code opens its tenant exactly when the control and all its ancestors are on for the tenant, the setting is ACTIVE and the secret verifies |
| InvitationEffects.VerdictExactlyWhen | src/verigence_security/services/onboarding.py:960-1027 | access is refused exactly when something proposed is foreign or inactive, and needs approval exactly when a role has a privileged key |
| SecurityControls.InForceExactlyWhen | src/verigence_security/services/onboarding.py:1112-1141 | a control is in force exactly when it has a chain of parents to a root on which every control is ACTIVE and on by itself |
| SecurityControls.OnByItselfExactlyWhen | src/verigence_security/services/onboarding.py:1112-1141 | a fixed control is on, the tenant's override has the last word, then the platform setting, then the default |
| SecurityControls.DisabledAncestorWins | src/verigence_security/services/onboarding.py:1112-1141 | below a root the walk ends, and one control of the chain that is off switches off all below it, forced ones included |
| SecurityControls.EndlessExactlyWhen | src/verigence_security/services/onboarding.py:1112-1141 | the recursion does not end exactly when controls that are on lead round to one already passed |
| SecurityControls.SelfParentIsEndless | src/verigence_security/services/onboarding.py:1112-1141 | a control that is on and its own parent makes the recursion endless |
| InvitationRuns.EveryRunIsSafe | src/verigence_security/services/onboarding.py:777-880 | over runs of the service the placeholder of a PENDING invitation has no identity and is named by nothing else, and no user, principal, identity or invitation reference dangles |
| InvitationRuns.AcceptConservesMemberships | src/verigence_security/services/onboarding.py:777-880 | an acceptance, merging included, leaves every tenant's number of memberships and every other membership row as they were |
| InvitationRuns.AcceptMovesMembership | src/verigence_security/services/onboarding.py:829-868 | the invitation's membership moves to the bound user with its employee code and becomes ACTIVE only with granted access |
| InvitationRuns.AcceptResolvesIdentity | src/verigence_security/services/onboarding.py:788-880 | afterwards identity and invitation name the same user, an existing identity keeps its user, and a merged placeholder is gone |
| InvitationRuns.AcceptNeverTripsForeignKeys | src/verigence_security/services/onboarding.py:869-880 | the deletes of a merge never meet a reference to the placeholder |
| InvitationRuns.AcceptSucceedsExactlyWhen | src/verigence_security/services/onboarding.py:239-387 | in every reachable state accepting succeeds exactly for a PENDING unexpired invitation, its own token, an identity that may take it over, access still valid and no privileged role already awaiting approval |
| InvitationRuns.AcceptTakesTheAccessBranch | src/verigence_security/services/onboarding.py:303-361 | the access rows of a successful acceptance are those of `MakerChecker`, and its membership is ACTIVE exactly when no privileged request was made |
| InvitationEffects.AcceptedUserIsActive | src/verigence_security/services/onboarding.py:303-387 | after a successful acceptance its user is ACTIVE, and no other user, invitation or request has changed but for the merged placeholder |
| InvitationEffects.RefusedAcceptanceExpiresExactlyWhen | src/verigence_security/services/onboarding.py:239-300 | a refused acceptance changes nothing, except that an invitation found past its expiry becomes EXPIRED |
| InvitationEffects.InvitingTakesEffectExactlyWhen | src/verigence_security/services/onboarding.py:38-130 | an invitation is created exactly for a contact, a future expiry, a known tenant, valid access and fresh ids, with its INVITED user and PENDING membership |
| InvitationEffects.CancellingTakesEffectExactlyWhen | src/verigence_security/services/onboarding.py:174-237 | cancelling succeeds exactly for a PENDING invitation of the tenant and ends its PENDING membership |
| InvitationEffects.RegisteringTakesEffectExactlyWhen | src/verigence_security/services/onboarding.py:389-520 | a registration succeeds exactly behind an open gate for a usable or new identity whose membership has not ended and whose request can be stored, and leaves user, identity, PENDING membership and request |
| InvitationEffects.ApprovingTakesEffectExactlyWhen | src/verigence_security/services/onboarding.py:559-644 | approving a registration succeeds exactly for a waiting request with a PENDING membership and valid unprivileged access, and makes the membership ACTIVE |
| InvitationEffects.RejectingTakesEffectExactlyWhen | src/verigence_security/services/onboarding.py:646-705 | rejecting a registration succeeds exactly for a waiting request and changes only that request |
| InvitationRuns.RegistrationStaysBehindTheGate | src/verigence_security/services/onboarding.py:389-520 | a registration adds rows only for the tenant its code opened, changes no membership that was there, and without an open gate does nothing |
| InvitationRuns.DecisionsAndIdentitiesAreFinal | src/verigence_security/services/onboarding.py:174-237 | over any run an identity keeps its user and decided invitations and requests never change |

## Left out

- HTTP routing, request schemas, settings, engine set-up and the Clerk HTTP protocol are plumbing around these transactions.
- Signatures, SHA-256, Argon2 and haversine distance are uninterpreted or inputs; a signature is the key that made it.
- JSON Web Token library details: wrongly typed registered claims, `nbf`, fractional NumericDates and malformed key files.
- Percent-decoding of OAuth forms, which sits between a printed scope and the text that is split again.
- Schedule.GrantIsStable: is stated for zones with a fixed offset, because Python compares wall-clock times across daylight-saving changes; the two-day completeness is about wall-clock time and needs no such limit.
- SessionRuns.EveryRunIsWell: holds a tenant's policy fixed over the run, because LoweredPolicyIssuesExpiredToken shows it false otherwise.
- User status in the interleaved session model: a status change is there the lock and the bulk revoke it performs; its checks and the user's status are part of the model of single calls.
- SessionLedger models USER sessions only; machine sessions, network addresses and idle timeouts carry no further rule.
- The second read of the session inside a refresh is part of the interleaved model; one call at a time it sees the same row.
- Shared locks taken by foreign keys, and waiting on unique indexes, which here fail at commit instead.
- Signup statements that update several rows take all their row locks at once.
- RbacVersions.EveryCallIsStamped: covers the calls of the gate and privileged-access services one at a time; overlaps are RbacRaces and onboarding is OnboardingGrants, while catalogue writes, template upgrades and the passing of time are not meant to raise a version.
- RbacRaces covers one call against whatever was committed between its statements, with the answers of its checks left open; approvals of privileged requests, which lock their request row, are not part of it.
- The trigger of `migrations/0005_super_admin_full_authority.sql` that gives the platform super-administrator every ACTIVE permission: platform grants are rows here, and a retired permission grants nothing with or without it.
- The template-upgrade route, which raises a membership counter and relies on a database trigger for the runtime one.
- Base-class calls of the RBAC service outside the gate, tenant authorization configuration and direct user administration, which bypass maker-checker.
- Privileged roles reached through groups.
- Audit contents; role ids are unique per tenant here and per database there.
- The order of bumps within one call, which changes no result and matters for locks only (BumpLocks); foreign-key locks of those upserts are left out there as well.
- The rows onboarding only reads (tenants, controls, settings, locations, schedules, roles) are a fresh argument of each call, so its runs hold however they change in between; location assignments are validated but their rows not written.
- Display names, correlation ids and the stored JSON shape of an invitation, which is a typed proposal here.
- Signup name, e-mail and mobile normalisation, the onboarding key and resending a code.
- Column widths and timestamps of the catalogue; `lower()` of a module key is an input.
- Platform administration, legacy password login, the DEV identity bridge, device enrolment and all list and get calls add only easy members.
