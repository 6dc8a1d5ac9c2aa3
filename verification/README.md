# Verification of the connector server's stateful cores

A Dafny model of the parts of the repository that keep state: refresh-token rotation, the BUSY
lease coordinator with its two writers and its lock, the command planner and worker, the output
pipeline from child process to page, host admission, the rotating log writer, the snapshot
serialiser with its pager, and the PowerShell code mask. `dafny verify dfyconfig.toml` checks the
whole project with Dafny 4.11.

## What is modelled

Each core keeps the form of its source. Objects whose methods update fields are classes
(`LocalOAuthProvider`, `BoundedCapture`, `OutputPager`, `OutputWorker`, `SlotHolder`,
`RotatingFile`, `BoundedJsonlWriter`, `Coordinator`, `BusyStore`, `SnapshotPager`), index loops
are methods with loops, and every such method is proved against a specification function or a
stated property. What has to hold over whole runs is proved about transition systems built from
those functions: one clock reading per operation, except where a second one matters and is a parameter
of its own, random tokens that are new, digests that never collide, and steps of different
processes in any order.

- **Refresh tokens** (`RefreshTokens`, `RefreshRuns`, `RefreshTheorems`, `RefreshRetries`,
  `RefreshAccess`, `OAuthProvider`).
  Authorisation, redemption, rotation, retry, replay, revocation, expiry and restart for public
  and confidential clients, by any number of server processes over one store file. The rules are
  those of section 6 of RFC 6749 and section 4.14.2 of RFC 9700. A replay removes the family's
  last token exactly when no generation in between was cut out; a concrete run shows that
  revoking a middle token really lets the last one survive. A lost answer is repeated, over any
  run in between, exactly under conditions that can be read off the store and the run.
- **BUSY** (`BusyScopes`, `BusyRecords`, `BusyBoard`, `BusyHistory`, `BusyOperations`,
  `BusyTheorems`, `BusyWriters`, `BusyOutcomes`, `BusyFiles`, `BusyCoordinator`, `BusyServerStore`,
  `BusyDesk`, `BusyFileRuns`, `BusyNaming`, `PosixPaths`, `BusyRules`). Loading an arbitrary store file,
  normalising, expiring, claiming, heartbeats, releases, compare-and-swap recovery and remembered
  operation ids in Python, and the TypeScript writer of the same file, each on the raw file and
  each with its own naming of scopes. Three things that one would expect are false of the code,
  and the model says exactly when they hold. A stored answer can outlive the claim it reports. A
  lease granted with a late second clock reading is stored past the cap, until the next reading.
  And the two writers do not name paths alike: Node's `normalize` keeps a separator at the end,
  Python's `normpath` drops it, keeps two at the beginning, and leaves a blank that the next load
  trims off. One path can so be granted to two actors, after which the coordinator cannot read
  the store. Grants can be trusted in every run exactly when both writers take every name that
  either brings in as it is; then ownership passes and grants are separated as promised.
- **The store lock** (`StoreLock`, `BusySharedStore`, `OAuthSharedStore`). Acquire, load, store,
  release, crash and reclaim, for any number of calls. The TypeScript writers reclaim from dead
  holders only, the Python writer by age alone. The lock does its work in a run exactly when no
  reclaim by age takes it from a call that is still inside; a run from the start shows the lost
  update otherwise. The protocol is instantiated with the operations of the BUSY store and with
  those of the OAuth store, whose calls reclaim from dead holders only.
- **Commands** (`Text`, `CommandWords`, `WordPositions`, `CommandSequence`, `CommandPipeline`,
  `SplitPositions`, `AndOrLists`, `CommandWorker`). The argv printer and the word parser, the splitter that compiles `;`, `&&`,
  `||` and line ends into guarded steps, the splitter at pipes, and the worker loop. The reference
  meaning is a separate grammar and evaluator of the AND-OR lists of section 2.9.3 of
  POSIX.1-2017. A dangling `&&` or `||` is dropped by the
  code although the grammar refuses it; the model says so exactly. The two splitters read a text
  alike exactly when the pipe splitter never meets a backslash before a double quote inside double
  quotes, and then never both accept it. A concrete text shows that they can both accept one where
  it does; that they always do is not claimed, for what follows may be refused anyway.
- **Output** (`OutputCapture`, `OutputPaging`, `OutputSessions`, `WorkerOutput`,
  `OutputPipeline`). Spooling and batching in the worker, the bounded tail in the parent, cursor
  paging for any number of callers, and the unpaged answer. Two corner cases come out exactly: a
  page exceeds its limit only through a longer suppression marker, and an uncut answer is flagged
  as cut only when one message filled a capture by itself.
- **Host admission** (`HostAdmission`, `AdmissionRuns`). Slot files shared by several managers.
- **The log writer** (`RotatingLog`, `LogScheduler`, `BoundedJsonl`). Batching, rotation by size
  and age, and the interplay of queue, timer, drain, flush and close.
- **Snapshots** (`SnapshotJson`, `SnapshotReading`, `SnapshotPayload`, `SnapshotPaging`). `JSON.stringify` with an
  indent of two after section 25.5.2 of ECMA-262, the field-by-field serialiser, and the pager
  that keeps protected fields whole.
- **The code mask** (`CodeMask`, `CodeParts`).

Text is a sequence of characters, each standing for one UTF-16 unit that is not a lone surrogate.
Integers are unbounded; every size in these cores is far below the point where a JavaScript number
loses precision. Scope names are ASCII without the four separator control characters, which only
Python's `strip` takes for blanks. Where code and documentation differ the code is followed.

## Model

| member | source | states |
|---|---|---|
| RefreshTheorems.FamilyIsOneChain | src/lib/local-oauth-provider.ts:297-342 | over every run a refresh family is one chain: superseded exactly when it has a successor, no shared successors, at most one rotatable member, scopes shrink and expiry grows along it |
| RefreshTheorems.StoredGenerationsAreContiguous | src/lib/local-oauth-provider.ts:466-498 | in every run that never revokes a superseded token, what is stored of a family is a contiguous run of its generations |
| RefreshTheorems.ReplayRemovesTipIff | src/lib/local-oauth-provider.ts:297-305 | in any run, a replay outside the grace window removes the rotatable token exactly when no generation between the two is missing |
| RefreshTheorems.ReplayKillsFamily | src/lib/local-oauth-provider.ts:297-305 | without middle revocations, such a replay is refused and leaves no rotatable token in the family |
| RefreshTheorems.DeadFamilyStaysDead | src/lib/local-oauth-provider.ts:268-342 | a family without a rotatable token is never answered with tokens again, whatever happens later |
| RefreshTheorems.CutFamilySurvivesReplay | src/lib/local-oauth-provider.ts:373-379 | a concrete run in which revoking the middle token lets the last one survive a replay |
| RefreshTheorems.RetryReturnsSuccessor | src/lib/local-oauth-provider.ts:306-324 | over every run a superseded token is only answered with its own stored successor, and no refresh record is added |
| RefreshRetries.LostAnswerIsRepeatedIff | src/lib/local-oauth-provider.ts:306-324 | after any run of any processes, a rotated token presented again is answered exactly when the process that rotated it is asked, has not restarted and is within the grace window, both tokens are still stored and the new one is unused, and client, resource and scopes agree; the answer is the same refresh token and no refresh record changes |
| RefreshRetries.LostAnswerIsRepeated | src/lib/local-oauth-provider.ts:310-320 | within the grace window the same process, not restarted, repeats the lost answer's refresh token, whatever any process does with the tokens of other families in between |
| RefreshRetries.LostAnswerAfterRestart | src/lib/local-oauth-provider.ts:321-324 | after any run, another process, or the same one restarted, refuses the same request, and within the grace window revokes nothing for it |
| RefreshTheorems.IssuedScopesStayWithinGrant | src/lib/local-oauth-provider.ts:277-279 | over every run what a refresh answers is within the scopes the owner granted, and to the same client |
| RefreshTheorems.CodeIsRedeemedOnce | src/lib/local-oauth-provider.ts:258-266 | an exchanged code is refused in every continuation of the run |
| RefreshTheorems.TrailIsUnbroken | src/lib/local-oauth-provider.ts:466-477 | family revocation reaches exactly the later members with no missing generation before them |
| RefreshAccess.AnswerAddsAccess | src/lib/local-oauth-provider.ts:268-342 | whenever a refresh is answered, by rotation, renewal or retry, the access table gains exactly the answered access token, for the client, resource and subject of the presented token and the answered scopes, for an hour; a refused one adds none |
| RefreshAccess.AnswerRotates | src/lib/local-oauth-provider.ts:268-342 | a new refresh token gets a record of its own and supersedes the presented one; the presented one answered again is renewed; any other answer leaves the refresh table |
| RefreshAccess.RedeemAddsBoth | src/lib/local-oauth-provider.ts:258-266 | an exchange is answered exactly for the code's own client before its end with its redirect and resource; then the code is gone and both answered tokens are stored for the code's scopes and resource |
| RefreshAccess.AccessAfterStep | src/lib/local-oauth-provider.ts:154-197 | after any operation of any process the access table holds what had not expired and was not revoked, and the token that was answered |
| RefreshAccess.AccessTokenLivesIff | src/lib/local-oauth-provider.ts:337-341 | after any run of any processes an answered access token is stored and unexpired exactly when its hour is not over and nobody has revoked it, and its record is the one it was issued with |
| RefreshAccess.PrunedIff | src/lib/local-oauth-provider.ts:488-498 | pruning drops exactly what has expired, and cached answers whose grace is over or whose token is gone |
| RefreshTokens.NextScopes | src/lib/local-oauth-provider.ts:278-279 | a refresh gets the scopes it asks for, if all are supported and within those the record holds, else it is refused; what the record holds if it asks for none |
| RefreshTokens.ValidateScopes | src/lib/local-oauth-provider.ts:393-398 | granted scopes are the non-blank requested ones without repeats, `mcp` if there are none; refused exactly when one is not supported |
| OAuthProvider.LocalOAuthProvider.RevokeRefreshFamily | src/lib/local-oauth-provider.ts:466-477 | the loop deletes exactly the trail of successors, with its cache entries, and terminates on any table |
| OAuthProvider.LocalOAuthProvider.ExchangeRefreshToken | src/lib/local-oauth-provider.ts:268-345 | answer, memory and store file after a refresh, for every branch, are those of the specified refresh on the loaded and pruned tables |
| OAuthProvider.LocalOAuthProvider.ExchangeAuthorizationCode | src/lib/local-oauth-provider.ts:258-266 | the same for the exchange of a code |
| OAuthProvider.LocalOAuthProvider.GrantCode | src/lib/local-oauth-provider.ts:230-245 | the same for the granting of a code |
| OAuthProvider.LocalOAuthProvider.RevokeOne | src/lib/local-oauth-provider.ts:373-379 | the same for revocation of a single token |
| OAuthProvider.LocalOAuthProvider.MakeClientRoom | src/lib/local-oauth-provider.ts:451-464 | removes only unreferenced disposable registrations, no more than needed, and stops only when there is room or nothing more may go |
| BusyScopes.CanonicalScopeIsStableIff | stack/busy/python/busy.py:66-82 | a canonical name is its own canonical name exactly when it is no path whose normal form keeps a blank at its end |
| BusyScopes.RepoSpellingsCollide | src/lib/busy-store.ts:59-79 | every spelling of a known repository, in any letter case, names one scope |
| BusyScopes.RepoAliasIff | stack/busy/python/busy.py:58-63 | a repository is known by its short name and by that name behind its owner's, and by nothing else |
| BusyScopes.LogicalScopesCollideIff | stack/busy/python/busy.py:66-82 | two scopes that are no paths are one exactly when they are the same text but for blanks around it, or spell the same repository with the same suffix |
| BusyScopes.ValidateClaimActor | stack/busy/python/busy.py:99-106 | an actor is accepted exactly when some known harness, a separator and a non-blank suffix make it up |
| BusyScopes.ActorIsAcceptedIff | stack/busy/python/busy.py:99-106 | an actor is accepted exactly when, trimmed, it is a known harness, a separator and a suffix that is not blank, one after the other |
| BusyScopes.AmbiguousIff | stack/busy/python/busy.py:85-93 | a scope is ambiguous exactly when, trimmed, it is no absolute path and has a separator but no colon |
| PosixPaths.NodeKeepsPyNormalIff | src/lib/busy-store.ts:69-71 | Node's normal form leaves Python's as it is exactly when the path does not begin with just two separators |
| PosixPaths.PyKeepsNodeNormalIff | stack/busy/python/busy.py:72-73 | Python's leaves Node's as it is exactly when the path does not end in a separator, the root excepted |
| PosixPaths.PathGoesPartByPart | stack/busy/python/busy.py:72-73 | a path leads where it leads without its last part and from there down into a name, up at two dots but not beyond the root, or nowhere else |
| PosixPaths.TwoSeparatorsStayIff | stack/busy/python/busy.py:72-73 | Python's normal form begins with two separators exactly when the path begins with just two |
| BusyRules.PosixPythonNameIsSettledIff | stack/busy/python/busy.py:66-82 | on a POSIX host both writers keep a name the coordinator gives exactly when it is no path, or one that does not begin with just two separators and whose normal form has no blank at its end |
| BusyRules.PosixTypeScriptNameIsSettledIff | src/lib/busy-store.ts:66-79 | and one the server gives exactly when it is no path, or one that does not end in a separator, the root excepted, and whose normal form has no blank at its end |
| BusyRules.TrailingSeparatorOverlaps | src/lib/busy-store.ts:101-113 | while anybody holds a path in a sound file, the server grants it to somebody else when a separator is put behind it, and the coordinator can no longer read the file |
| BusyRules.BlankEndOverlaps | stack/busy/python/busy.py:66-73 | while anybody holds a path, the coordinator grants it to somebody else when a blank and a separator are put behind it, and can no longer read the file itself |
| BusyRules.TwoActorsHoldOnePath | src/lib/busy-store.ts:101-113 | from no file at all, two operations a millisecond apart grant one path to two actors |
| BusyRecords.LoadIffConsistent | stack/busy/python/busy.py:146-173 | a claim list loads exactly when every scope has a name and one actor, and then to each scope's newest claim |
| BusyRecords.LoadErrorIsFirst | stack/busy/python/busy.py:146-173 | a list that does not load is refused for its first claim without a name, or with a scope that another actor claims before it |
| BusyRecords.Load | stack/busy/python/busy.py:155-172 | the load loop computes that list's claims, or the first error |
| BusyBoard.NormalJobsMatch | stack/busy/python/busy.py:230-263 | whatever was stored, normalised jobs are exactly those of the claims, with owner, time and capped lease |
| BusyBoard.LastJobCounts | stack/busy/python/busy.py:230-245 | of several stored jobs for a scope the last one counts |
| BusyBoard.NormalJobKeeps | stack/busy/python/busy.py:246-262 | a normalised job keeps the stored checkpoint and any lease within the cap, and has the whole cap without one |
| BusyBoard.NormalizeIsIdempotent | stack/busy/python/busy.py:230-263 | normalising matched jobs that were stored, in any order, cuts leases past the cap and changes nothing else |
| BusyBoard.StoredClaimsReload | stack/busy/python/busy.py:146-173 | claims written out in any order are loaded back as they were |
| BusyFiles.WrittenIsRead | stack/busy/python/busy.py:146-263 | reading a written state back gives that state with leases cut to the cap |
| BusyCoordinator.Coordinator.NormalizeJobs | stack/busy/python/busy.py:230-263 | the in-place loops compute the normalised jobs |
| BusyCoordinator.Coordinator.SweepExpired | stack/busy/python/busy.py:427-450 | the loop removes exactly the ended leases and the claims they stand for |
| BusyCoordinator.Coordinator.Operate | stack/busy/python/busy.py:453-598 | for any store file: a failed operation leaves it as it was; a successful one gives the specified answer and writes out the specified state, or leaves a file that already says it |
| BusyCoordinator.EveryStoreIsPutInOrder | stack/busy/python/busy.py:453-598 | after a successful operation on any readable file the job table has exactly the claimed scopes, with matching owner and time, and leases within 240 s unless the state before grants this request with the clock read too late for its lease, which the next reading cuts |
| BusyWriters.GrantIsGivenIff | stack/busy/python/busy.py:534-581 | a claim or heartbeat that is no repetition is answered with a grant exactly when, before it, nobody else's lease runs on the scope and an ambiguous spelling only renews, or, for a heartbeat, the actor's own lease runs |
| BusyWriters.StoredLeaseWithinCapIff | stack/busy/python/busy.py:545-548 | a stored lease ends past the cap exactly when the state before grants the request and the time between the two clock readings and the lease add up to more than 240 s |
| BusyWriters.LeaseCanPassCap | stack/busy/python/busy.py:545-548 | a concrete claim on an empty store whose lease is stored past the cap, one millisecond lying between the two readings |
| BusyOperations.OperationKeepsGood | stack/busy/python/busy.py:453-598 | every operation keeps jobs matched to claims and no operation id recorded twice, and what is read next has leases within the cap |
| BusyTheorems.RepeatIsAnsweredFromRecord | stack/busy/python/busy.py:317-326 | while a record is kept, its id returns the stored answer, or a refusal for another signature, and only expiry changes the state |
| BusyWriters.RunKeepsNewestRecords | stack/busy/python/busy.py:308-337 | with a clock that does not go back, over every run of both writers the table holds the newest of all records there have been |
| BusyWriters.RecordSurvivesIff | stack/busy/python/busy.py:308-337 | over every run a record is kept exactly as long as it and the newer ones are at most 512, also when its id is used again later |
| BusyWriters.OperationTakesEffectOnce | stack/busy/python/busy.py:317-337 | an operation with a new id, repeated after any run of both writers that adds fewer than 512 records, gives its first answer and changes nothing but what expiry changes |
| BusyTheorems.NewIdIsRemembered | stack/busy/python/busy.py:308-337 | with a clock that does not go back the newest record survives every pruning |
| BusyTheorems.RecordsAreNeverRewritten | stack/busy/python/busy.py:308-337 | an operation adds at most its own record, alters none, and leaves at most 512 when it adds one |
| BusyHistory.PruneOperations | stack/busy/python/busy.py:308-314 | popping the first of the stably sorted records leaves exactly the newest 512 in their order |
| BusyHistory.PruningKeepsNewest | stack/busy/python/busy.py:308-314 | nothing dropped is newer than anything kept |
| BusyHistory.ByAgeIsSorted | stack/busy/python/busy.py:312 | the order of pruning is sorted by time and loses no record |
| BusyServerStore.BusyStore.Claim | src/lib/busy-store.ts:101-113 | for any store file: load or its error, prune, conflict check, claim and compatibility job, with the answer and the file as specified |
| BusyServerStore.BusyStore.Release | src/lib/busy-store.ts:124-136 | the same for a release |
| BusyServerStore.BusyStore.List | src/lib/busy-store.ts:115-122 | the same for a listing, which gives the claims that have not aged |
| BusyServerStore.BusyStore.Prune | src/lib/busy-store.ts:318-331 | drops exactly the claims that reached 240 s, with every job whose key names one of them, stores that if there were any, and fails on a blank key |
| BusyServerStore.BusyStore.RemoveCoordinatorJob | src/lib/busy-store.ts:279-286 | the loop drops exactly the jobs whose keys name the scope, and fails on a blank key |
| BusyServerStore.BusyStore.UpsertCompatibilityJob | src/lib/busy-store.ts:259-277 | the first job whose key names the scope gives way to the claim's and leaves it its checkpoint |
| BusyDesk.DroppingSplits | src/lib/busy-store.ts:279-286 | on any store file jobs are dropped one by one, the others staying in order |
| BusyDesk.UpsertRenames | src/lib/busy-store.ts:259-277 | the first job whose key names the claimed scope otherwise than the scope itself gives way to one under the scope, with its checkpoint |
| BusyDesk.UpsertReplaces | src/lib/busy-store.ts:259-277 | a job under the scope itself is replaced where it stands |
| BusyDesk.UpsertFailsIff | src/lib/busy-store.ts:259-277 | a claim fails on a blank key exactly when none before it names the scope |
| BusyDesk.ReleaseFailsIff | src/lib/busy-store.ts:124-136 | a release fails on a blank key exactly when it has something to drop, and on a blank scope whenever pruning has not failed before |
| BusyDesk.RefusalStoresOnlyPruning | src/lib/busy-store.ts:101-136 | an operation that fails or is refused stores at most what pruning leaves |
| BusyFileRuns.FileStepFollows | src/lib/busy-store.ts:202-242 | on a file sound for both writers an operation of either does what the specified step does, and leaves a sound file |
| BusyFileRuns.FilesFollowRun | src/lib/busy-store.ts:101-136 | over every run of both writers on one file with names that both keep, every file is readable by both and says what the run of whole operations says, and so does every answer |
| BusyFileRuns.HoldingPassesOnlyAfterEnd | stack/busy/python/busy.py:427-598 | over every such run both writers find an actor holding its scope until an event that releases it, recovers it by naming its claim, or comes after its lease |
| BusyFileRuns.FileGrantsDoNotOverlap | src/lib/busy-store.ts:101-113 | over every such run two grants of one scope to different actors are separated by such an end of the first holding |
| BusyNaming.GrantIsSeenByBothIff | stack/busy/python/busy.py:158-172 | a grant on a sound file is true for both writers exactly when both keep its name as it is |
| BusyNaming.UnkeptNameOverlaps | stack/busy/python/busy.py:158-168 | a name that a writer replaces by a held scope's is granted to somebody else, and after that the writer cannot read the file |
| BusyNaming.TrustworthyIff | src/lib/busy-store.ts:66-79 | in every run from no file on each grant is true for both writers, exactly when both keep every name that either brings in |
| BusyWriters.AgedClaimsHaveNoLease | src/lib/busy-store.ts:318-331 | a claim pruned at 240 s has no unexpired Python lease |
| BusyWriters.OwnershipPassesOnlyAfterEnd | stack/busy/python/busy.py:427-598 | over any interleaving of whole operations of both writers an owner loses a scope only at its release, a matching recovery, or an operation after the end of its lease |
| BusyWriters.GrantsDoNotOverlap | src/lib/busy-store.ts:101-113 | in such an interleaving two grants of one scope to different actors are separated by the end of the first holding |
| BusyWriters.ClaimIsGrantedIff | stack/busy/python/busy.py:534-560 | a claim by a well-formed actor that is no repetition is granted exactly when nobody else's lease runs on the scope and an ambiguous spelling only renews a running lease |
| BusyWriters.TypeScriptGrantsIff | src/lib/busy-store.ts:101-113 | the TypeScript writer grants a claim exactly when nobody else holds the scope with a claim younger than 240 s |
| BusyWriters.OtherScopesOnlyExpire | stack/busy/python/busy.py:453-598 | an operation of either writer leaves every scope but its own alone, except that ended leases go |
| BusyWriters.CheckpointIsKept | stack/busy/python/busy.py:534-581 | while a holding lasts its checkpoint changes only to one an operation on the scope brings along |
| BusyOutcomes.PythonOutcome | stack/busy/python/busy.py:484-598 | the answer to every command that no record answers, and what becomes of every claim and job, in terms of the leases that run before it |
| BusyOutcomes.TypeScriptOutcome | src/lib/busy-store.ts:101-136 | the same for claim and release of the TypeScript writer, in terms of the claims younger than 240 s |
| BusyOutcomes.FreeingFrees | stack/busy/python/busy.py:582-590 | by either writer, a release by the actor whose lease runs, or a recovery that names the present claim, is answered with exactly that claim and leaves neither claim nor job |
| BusyOutcomes.FreedScopeIsGranted | stack/busy/python/busy.py:534-560 | whoever asks next for such a scope, of either writer and at any time, is granted it |
| BusyOutcomes.OtherEndingsEndNothing | stack/busy/python/busy.py:484-517 | any other release or recovery, a repeated one included, leaves every scope as it is but for what has expired |
| BusyOutcomes.OperationFailsIff | stack/busy/python/busy.py:469-519 | a request fails exactly when it lacks something, with the error for the first thing it lacks |
| BusyOutcomes.ReadingOnlyExpires | stack/busy/python/busy.py:453-467 | a request that only reads changes nothing but what has expired |
| BusyOutcomes.SameOperationIff | stack/busy/python/busy.py:477-525 | two requests count as one operation exactly when they agree in command, scope, actor, checkpoint and, where it matters, lease or claim time |
| BusyWriters.ClaimAnswerIsTrueIff | stack/busy/python/busy.py:526-560 | an answered claim is true of the stored state exactly when it is no stored answer or the actor's own lease on the scope still runs |
| BusyWriters.StoredAnswerCanOutliveClaim | stack/busy/python/busy.py:526-530 | a concrete run in which a repeated id is answered with a claim that no longer exists |
| StoreLock.AtMostOneInside | src/lib/busy-store.ts:149-190 | however calls step, crash and reclaim, at most one is inside as long as no reclaim by age takes the lock from a call inside |
| StoreLock.StoreIsItsLog | src/lib/local-oauth-provider.ts:154-197 | in the same runs the store is the stored updates applied one after the other in lock order: none is lost |
| StoreLock.StoresAreLogged | src/lib/local-oauth-provider.ts:154-197 | over every run each store is in that log once, and nothing else is |
| StoreLock.UndisturbedCall | src/lib/busy-store.ts:149-190 | a call that nothing disturbs applies its update once and leaves the lock free |
| StoreLock.DeadHolderLetsIn | src/lib/busy-store.ts:163-177 | when a holder crashes, any other call of a live process can take its lock and go in |
| StoreLock.AgeReclaimIsSafeIff | stack/busy/python/busy.py:121-125 | from any sound state a reclaim by age is safe, whatever follows, exactly when the holder is no longer inside |
| StoreLock.SafeIffNoHolderIsHit | stack/busy/python/busy.py:114-131 | over every run the lock is safe all along exactly when no reclaim by age takes it from a call inside |
| StoreLock.HitForgetsUpdate | stack/busy/python/busy.py:114-131 | wherever such a reclaim hits a call that has loaded, another call's stored update can be forgotten by the robbed one's |
| StoreLock.AgeReclaimLosesUpdate | stack/busy/python/busy.py:114-131 | a run from the start in which two updates are stored after a reclaim by age and one is lost |
| BusySharedStore.ConcurrentWritersSerialise | src/lib/busy-store.ts:149-190 | any number of concurrent writers of both kinds amount to one run of whole operations, as long as no reclaim by age takes the lock from a writer inside |
| BusySharedStore.SharedStoreIsSafeIff | stack/busy/python/busy.py:114-131 | and exactly under that condition the lock is safe all along |
| OAuthSharedStore.ConcurrentServersSerialise | src/lib/local-oauth-provider.ts:154-197 | any number of concurrent server processes on the OAuth store amount to one run of whole operations |
| CommandWords.ParseWords | src/lib/command-execution-plan.ts:47-112 | the index loop computes the specified words and flags, or refuses an unclosed quote |
| WordPositions.ParsedByPosition | src/lib/command-execution-plan.ts:47-112 | for every text: it parses exactly when no quotes are open at its end, its words are those its positions spell, shell syntax is flagged exactly for an operator or line end outside quotes, and expansion exactly for a dollar sign or backtick outside quotes or a dollar sign inside double ones |
| CommandWords.PrintedArgvIsReadBack | src/lib/process-manager.ts:111-120 | for every executable and argument list the printed command parses back to exactly that argv with both flags false |
| CommandWords.DisplayIsInjective | src/lib/process-manager.ts:116-120 | different argument lists are never displayed alike |
| CommandWords.ShownBareIff | src/lib/process-manager.ts:111-114 | an argument is shown without quotes exactly when it is not empty and made of letters, digits and `_./:@%+=,\-` only |
| CommandWords.CallOperatorIff | src/lib/process-manager.ts:116-120 | the printed command begins with the call operator exactly when the executable has a blank |
| CommandWords.CallOperatorIsDropped | src/lib/command-execution-plan.ts:316-318 | a leading `&` is taken off together with every blank around it when a blank follows it |
| CommandWords.DoubleQuotedIsReadBackIff | src/lib/command-execution-plan.ts:64-72 | a double-quoted word with escaped quotes reads back exactly when it does not end in a backslash |
| CommandSequence.SplitTopLevelSequence | src/lib/command-execution-plan.ts:201-262 | the index loop computes the guarded steps of the text's token list, or refuses it |
| CommandSequence.ReadHead | src/lib/command-execution-plan.ts:218-257 | the branches on one character classify it as specified |
| SplitPositions.TokensByPosition | src/lib/command-execution-plan.ts:201-262 | for every text: it is refused exactly when its end stands in quotes or behind an escape or a lone `&` or pipe stands outside them, and otherwise its tokens are the operators outside quotes and escapes with the texts between them |
| CommandPipeline.SplitTopLevelPipeline | src/lib/command-execution-plan.ts:163-199 | the index loop computes the stages of the text, or refuses it |
| CommandPipeline.PipedIsRead | src/lib/command-execution-plan.ts:163-199 | any two or more stages written out with pipes between them are split into just these stages |
| SplitPositions.StagesByPosition | src/lib/command-execution-plan.ts:163-199 | for every text: it is split exactly when its end stands outside quotes and escapes, no other operator and no double pipe does, and no stage is blank; the stages are the trimmed texts between the pipes |
| CommandPipeline.ReadAlikeIff | src/lib/command-execution-plan.ts:173 | the two splitters classify every character alike, up to the first pipe or refusal, exactly when the pipe splitter never meets a backslash before a double quote inside double quotes |
| CommandPipeline.SplittersAreDisjoint | src/lib/command-execution-plan.ts:163-262 | a text where it never does is not split by both splitters |
| CommandPipeline.BothCanAccept | src/lib/command-execution-plan.ts:173 | a concrete text that both splitters accept, each with other commands |
| Text.TrimSplits | src/lib/command-execution-plan.ts:210 | trimming takes off a blank beginning and a blank end, and leaves nothing exactly when all was blank |
| AndOrLists.SplitAcceptsIff | src/lib/command-execution-plan.ts:201-262 | a text is split exactly when it is an AND-OR list of at least two commands, a dangling operator dropped |
| AndOrLists.StrictIffNotDangling | src/lib/command-execution-plan.ts:258-261 | the standard grammar reads the same lists but refuses exactly those with a dangling operator |
| AndOrLists.CompilationPreservesMeaning | src/lib/command-execution-plan.ts:201-262 | the guarded steps run the same commands in the same order with the same status as the AND-OR list |
| AndOrLists.SpelledIsRead | src/lib/command-execution-plan.ts:218-257 | every list spelled out as text is read back token by token |
| AndOrLists.SpelledListRuns | src/lib/command-execution-plan.ts:201-262 | spelled out as text, any AND-OR list is split into steps that run what the list means |
| AndOrLists.DanglingIsAccepted | src/lib/command-execution-plan.ts:258-261 | a concrete text with a dangling operator that the splitter accepts and the grammar refuses |
| CommandWorker.ExecuteSteps | src/lib/process-launch-session-worker.ts:311-326 | the step loop runs the specified steps and returns the last status, cut short by signal or kill |
| CommandWorker.InterruptionOnlyCutsShort | src/lib/process-launch-session-worker.ts:311-323 | under signals and kills whatever ran is an initial part of the full run |
| CommandWorker.InterruptionStops | src/lib/process-launch-session-worker.ts:311-323 | nothing runs behind a signal or a noticed kill |
| CommandWorker.StatusTellsEnd | src/lib/process-launch-session-worker.ts:311-330 | the status is the whole run's, or that of the command a signal ended, or failure after a kill |
| CommandWorker.WorkerMeansAndOrList | src/lib/process-launch-session-worker.ts:171-175 | undisturbed, the worker runs an accepted text as the AND-OR list it is |
| OutputCapture.BoundedCapture.Append | src/lib/process-manager.ts:264-289 | the chunks are the last 256000 characters ever appended, and the flag tells whether any were lost or a single append filled the buffer |
| OutputCapture.BoundedCapture.Tail | src/lib/process-manager.ts:294-309 | the tail is the end of what is kept, with the exact number of characters cut |
| OutputCapture.BoundedCapture.Full | src/lib/process-manager.ts:311-313 | everything kept, in order |
| OutputPaging.PageIsNext | src/lib/process-manager.ts:2746-2773 | an unmarked page is exactly the next part of each stream and not empty while anything is unread |
| OutputPaging.PageSize | src/lib/process-manager.ts:2750-2773 | a page is as long as its limit allows, so it ends the output exactly when the limit covers what is unread |
| OutputPaging.MarkedPage | src/lib/process-manager.ts:2757-2773 | a suppression marker stands for the whole rest of standard output, and standard error gets what room it leaves |
| OutputPaging.AnswerEndsIff | src/lib/process-manager.ts:3771-3835 | without a marker a read tells its caller to stop exactly when the process is over and the limit covers what is unread, and answers whole only when no page went before |
| OutputPaging.PageFitsIff | src/lib/process-manager.ts:2757-2773 | a page exceeds its limit exactly when a suppression marker longer than the limit replaces unread output |
| OutputPaging.OutputPager.PageSpoolOutput | src/lib/process-manager.ts:2734-2801 | page, cursor table and suppression table after a read are the specified ones |
| OutputPaging.OutputPager.Read | src/lib/process-manager.ts:3771-3835 | pages while running, mid-session or too long, with the marker where the stream is hidden; otherwise answers whole, and exactly the spool |
| OutputSessions.EveryReadIsLossless | src/lib/process-manager.ts:2734-2801 | over every run of prints, exit and reads by any callers, what a session has said is a prefix of each stream, and all of it once told to stop |
| OutputSessions.SpoolIsAllPrinted | src/lib/process-manager.ts:2734-2801 | over every run the spools are all that was printed, in order |
| OutputSessions.ReadLeavesOthers | src/lib/process-manager.ts:2789-2801 | a read touches no session but its caller's, and a caller that was told to stop begins afresh |
| OutputSessions.SessionEndsIff | src/lib/process-manager.ts:2750-2799 | after exit a caller's session ends exactly when its limits add up to what was unread, whatever others read |
| WorkerOutput.OutputWorker.QueueOutput | src/lib/process-launch-session-worker.ts:77-118 | spools the chunk, or fails and kills the process if there is no spool or the append fails, and keeps, for every request and stream, posted plus held equal to spooled, with batches of at most 256000 and a timer on everything held |
| WorkerOutput.OutputWorker.FlushAll | src/lib/process-launch-session-worker.ts:68-75 | after a flush exactly the spool has been posted |
| OutputPipeline.ReceiveOutput | src/lib/process-manager.ts:2495-2511 | the parent's captures receive exactly what was posted for the process |
| OutputPipeline.ReadFinished | src/lib/process-manager.ts:3828-3834 | the unpaged answer for an exited process equals its spool, and is flagged as cut exactly when one message filled a capture |
| HostAdmission.SlotHolder.ClaimSlot | src/lib/process-manager.ts:2105-2134 | takes the lowest free or stale slot and touches no other; refuses exactly when there is none |
| HostAdmission.SlotHolder.UpdateChildPid | src/lib/process-manager.ts:2136-2146 | records the child in a slot that is still this process's, and changes no other |
| HostAdmission.SlotHolder.ReleaseSlot | src/lib/process-manager.ts:2148-2155 | afterwards the slot is gone exactly if it was still this process's, and every other is as it was |
| HostAdmission.AdmissionDirectory.TryReclaimStale | src/lib/process-manager.ts:1985-1997 | removes a slot exactly when it is readable and its manager and child are dead |
| AdmissionRuns.AdmittedNeverExceedLimit | src/lib/process-manager.ts:2105-2155 | over any interleaving of claims, updates, releases, crashes and reclaims no slot is held twice and admitted processes never exceed the total |
| AdmissionRuns.LiveManagerKeepsSlot | src/lib/process-manager.ts:1985-1997 | a live manager keeps every slot it claimed until it releases it |
| AdmissionRuns.OrphanKeepsSlot | src/lib/process-manager.ts:1985-1997 | after a crash the slot of a child that runs on is not reclaimed by anyone |
| AdmissionRuns.LiveSlotStays | src/lib/process-manager.ts:1985-1997 | no step but the owner's release removes a slot whose manager or child is alive |
| AdmissionRuns.ReleaseFreesSlot | src/lib/process-manager.ts:2148-2155 | in every reachable state a release removes exactly the released slot and table entry |
| AdmissionRuns.ReleasedSlotAdmits | src/lib/process-manager.ts:2105-2155 | right after it an undisturbed claim by any live manager is admitted, at that slot or a lower one |
| AdmissionRuns.DeadSlotAdmits | src/lib/process-manager.ts:2105-2134 | while a slot's manager and child are both dead an undisturbed claim by any live manager is admitted, there or lower |
| AdmissionRuns.RecordedChildKeepsSlot | src/lib/process-manager.ts:2136-2146 | once its live child is recorded a slot stays claimed, whatever becomes of its manager, until the child dies, the owner releases it or records another |
| AdmissionRuns.LiveIff | src/lib/process-manager.ts:1985-1997 | over every run the processes taken for alive are those that started and did not die |
| AdmissionRuns.ClaimIsRunOfSteps | src/lib/process-manager.ts:2105-2134 | an undisturbed claim is a run of the single file operations and ends in the lowest claimable slot |
| RotatingLog.RotatingFile.EnsureOpen | src/lib/bounded-jsonl.ts:134-150 | opening leaves an open file's size and age as they are, and counts the age of a file that holds something from its last modification |
| RotatingLog.RotatingFile.WriteBatch | src/lib/bounded-jsonl.ts:152-176 | archives followed by the live file grow by exactly the batch, in order, no line split between files, every file within the limit or a single oversized piece |
| RotatingLog.RotatingFile.AddLine | src/lib/bounded-jsonl.ts:166-174 | one line, with one rotation exactly when it does not fit or the file has reached its age by both clock readings, which dates the new file, and none otherwise; what waits to be written is within the batch size or this line alone |
| RotatingLog.RotatingFile.Rotate | src/lib/bounded-jsonl.ts:196-209 | the live file becomes the newest archive and an empty one takes its place |
| RotatingLog.RotatingFile.RotationRequired | src/lib/bounded-jsonl.ts:178-185 | exactly when the file is not empty and the next bytes do not fit or it has reached its age |
| LogScheduler.NoLineIsStranded | src/lib/bounded-jsonl.ts:59-132 | in every reachable state a non-empty queue has a drain scheduled, or, if not closed, a timer armed |
| LogScheduler.NothingIsLost | src/lib/bounded-jsonl.ts:59-132 | over every run, batches handed over, batch in flight and queue are the accepted lines in order |
| LogScheduler.InternalRunsEnd | src/lib/bounded-jsonl.ts:96-132 | left alone the writer comes to rest after at most seventeen events |
| LogScheduler.AtRestNothingWaits | src/lib/bounded-jsonl.ts:111-132 | a writer at rest has handed every accepted line to the file |
| LogScheduler.RunRemembers | src/lib/bounded-jsonl.ts:59-132 | over every run the writer is closed exactly when a close was asked, and each batch is on record as its write ended |
| LogScheduler.DrainScheduledIff | src/lib/bounded-jsonl.ts:59-132 | a drain is scheduled exactly by a full queue, a zero delay, a flush, the timer, a close, or behind a close by the drain before it |
| BoundedJsonl.BoundedJsonlWriter.WriteLine | src/lib/bounded-jsonl.ts:59-69 | the handler takes exactly the scheduler's step, accepts the line unless closed, and keeps what joins the scheduler to the disk |
| BoundedJsonl.BoundedJsonlWriter.BeginFlush | src/lib/bounded-jsonl.ts:71-74 | the part of a flush before it waits takes exactly the scheduler's step |
| BoundedJsonl.BoundedJsonlWriter.ResumeFlush | src/lib/bounded-jsonl.ts:75-78 | and so does the part after it |
| BoundedJsonl.BoundedJsonlWriter.BeginClose | src/lib/bounded-jsonl.ts:81-88 | a close stops the timer, takes no more lines and schedules what is left |
| BoundedJsonl.BoundedJsonlWriter.FinishClose | src/lib/bounded-jsonl.ts:88-92 | after the pending drain the handle is closed, and files, queue and history stay as they are |
| BoundedJsonl.BoundedJsonlWriter.OnFlushTimer | src/lib/bounded-jsonl.ts:98-101 | the timer's handler takes exactly the scheduler's step |
| BoundedJsonl.BoundedJsonlWriter.WriteTakenBatch | src/lib/bounded-jsonl.ts:126-132 | a written batch is on disk behind everything before it |
| BoundedJsonl.BoundedJsonlWriter.SettleDrain | src/lib/bounded-jsonl.ts:116-123 | what follows a drain takes exactly the scheduler's step |
| BoundedJsonl.BoundedJsonlWriter.FailTakenBatch | src/lib/bounded-jsonl.ts:126-132 | of a batch whose write fails an initial part is on disk, and the drain ends |
| BoundedJsonl.BoundedJsonlWriter.DrainQueued | src/lib/bounded-jsonl.ts:126-132 | an uninterrupted drain puts the whole queue on disk behind what was there |
| BoundedJsonl.BoundedJsonlWriter.AtRestAllIsOnDisk | src/lib/bounded-jsonl.ts:59-132 | whatever handlers have run, at rest and with no failed batch the files hold the starting content and every accepted line in order |
| BoundedJsonl.BoundedJsonlWriter.DiskIsStoredParts | src/lib/bounded-jsonl.ts:59-176 | at any moment the files hold the starting content and of every batch an initial part, all of it unless its write failed |
| SnapshotJson.ReindentIsDeeper | src/lib/bootstrap-snapshot.ts:191-192 | reindenting the printed text of any value equals printing it one level deeper |
| SnapshotReading.PrintIsReadBack | src/lib/bootstrap-snapshot.ts:191-195 | the printed text of any value is read, by a reader of JSON text, as exactly that value |
| SnapshotReading.PrintIsInjective | src/lib/bootstrap-snapshot.ts:191-195 | different values are never printed alike |
| SnapshotPayload.FieldsAreTheObject | src/lib/bootstrap-snapshot.ts:182-202 | the fields in a row are the whole object as JSON.stringify prints it, exactly when the payload has fields |
| SnapshotPayload.SerializeSnapshotPayload | src/lib/bootstrap-snapshot.ts:182-202 | the loop returns that text and the extents of the protected fields, each cutting out exactly its field |
| SnapshotPayload.ProtectedRangesAreOrdered | src/lib/bootstrap-snapshot.ts:193-198 | protected extents are sorted, disjoint and inside the text |
| SnapshotPayload.ProtectedRangesAreFields | src/lib/bootstrap-snapshot.ts:193-198 | they are the extents of the protected fields, all and no others |
| SnapshotPayload.MarkedWordIff | src/lib/bootstrap-snapshot.ts:170-180 | splitting a key at underscores finds a marked word exactly when the pattern matches |
| SnapshotPayload.ProtectedIff | src/lib/bootstrap-snapshot.ts:170-180 | a field is protected exactly for a listed name, or for a marked word between underscores or ends in any letter case |
| SnapshotPaging.StructuralPageEnd | src/lib/bootstrap-snapshot.ts:204-223 | the loop over the ranges finds the specified page end |
| SnapshotPaging.PageAdvances | src/lib/bootstrap-snapshot.ts:204-223 | every page is within its limit and not empty while text remains |
| SnapshotPaging.PageEndsExactly | src/lib/bootstrap-snapshot.ts:204-223 | a page ends with the text if the limit reaches it, else at the end of a protected field that it begins in and that fits, else before one that a full page would split, else it is full |
| SnapshotPaging.PagesTellAll | src/lib/bootstrap-snapshot.ts:225-257 | for any limits the pages in a row are the text up to the offset, and enough requests tell all of it |
| SnapshotPaging.ProtectedFieldStaysWhole | src/lib/bootstrap-snapshot.ts:204-223 | a protected field no longer than any limit used is never split |
| SnapshotPaging.SnapshotFieldsStayWhole | src/lib/bootstrap-snapshot.ts:182-223 | the same from the payload on, for every protected field of a snapshot |
| SnapshotPaging.SnapshotPager.PageSnapshot | src/lib/bootstrap-snapshot.ts:225-257 | the page, and the session kept exactly while text remains |
| SnapshotPaging.SnapshotPager.Prune | src/lib/bootstrap-snapshot.ts:67-78 | afterwards 127 sessions are kept, or all unexpired ones if fewer, and none kept was used before one dropped for room |
| CodeMask.PowershellCodeMask | src/lib/process-manager.ts:407-462 | the loops terminate and compute the specified mask |
| CodeParts.PartsAreMasked | src/lib/process-manager.ts:407-462 | any text put together from code, block and line comments, single-quoted, double-quoted and here-strings and escaped characters is masked part by part: code stays, the rest becomes blanks and line ends |
| CodeParts.PartMasked | src/lib/process-manager.ts:407-462 | the same for one part before any rest, which is masked as if it stood alone |
| CodeParts.OpenIsMasked | src/lib/process-manager.ts:413-453 | a comment, string or here-string that is not closed is blanked to the end of the text |
| CodeMask.MaskKeepsPlaces | src/lib/process-manager.ts:407-462 | line ends stay in place and every other character is itself or a blank |
| CodeMask.MaskIsIdempotent | src/lib/process-manager.ts:407-462 | masking twice is masking once |
| CodeMask.MaskLength | src/lib/process-manager.ts:442-453 | the mask is as long as the text, and one blank longer exactly when the text ends inside a double-quoted string on an unpaired backtick |

## Left out

- The regex policy checks and command repairs of `src/lib/process-manager.ts`: their meaning is the text of the patterns.
- `planCommandExecution` and `planSingleCommand`: which executables run natively is a matter of lists and patterns.
- Process spawning, signals, worker threads, file watchers and the control mailbox; the model takes their exit codes, messages and pids as given.
- The async twins of the process-manager methods, which wait between check and update; the synchronous ones are modelled.
- The base64 heuristic of paging: its verdict and its marker are parameters, and the session results are about unsuppressed output.
- Failing file operations, the rename fallback on Windows, and replacement of the log file by someone else: a store or a rotation happens whole; of a failing log batch an initial part of the lines is on disk, and a failing append to an output spool stores nothing.
- BoundedJsonl.BoundedJsonlWriter.FailTakenBatch: a write that fails inside a line, and a failure inside a rotation, are not modelled.
- BoundedJsonl.BoundedJsonlWriter.FinishClose: a handle closed while a later drain, scheduled after a failed one, is in the middle of a batch is not modelled.
- Creating a lock or slot file and writing the pid into it is one step, and so is checking for a dead holder and unlinking; a pid is never used twice.
- Admission without a limit, or with a limit but no shared directory, where the processes are simply counted.
- Lock timeouts, retry delays and the age a lock must have before it is reclaimed: they only postpone steps, and whether an old lock's holder is still inside is left open.
- SHA-256, random tokens, URL parsing, redirect checks, PKCE and client metadata: digests are injective, tokens new, the rest parameters.
- RefreshTheorems.ReplayKillsFamily: excludes runs that revoke a superseded refresh token, because the property is false there; `ReplayRemovesTipIff` covers them.
- A client's authentication method is fixed per client id, and `verifyAccessToken` and the legacy client recovery are not modelled.
- BUSY timestamps are milliseconds and well formed; unparsable ones, extra job fields kept across normalising, the temporary-file sweep and the listing formats are not modelled; a record's time is the claim's.
- The path functions of Windows: the two writers' path libraries are parameters, and only those of a POSIX host are given, for absolute paths.
- BusyFileRuns.FilesFollowRun: its runs start from a file that both writers read alike, such as none at all; what an operation makes of any other file is specified, but not followed over runs.
- Of two stored jobs that name one scope the Python writer takes the last by key; the model takes the last in the list, sorting the keys is not modelled.
- `BoundedCapture.reset` and the spool resets for a repaired command.
- `stack/busy/python/lease_guard.py`, the HTTP servers, `src/front-door.ts`, telemetry, and all scripts and deployment files.
