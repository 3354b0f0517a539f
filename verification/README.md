# Orbit: verified protocols

Orbit is a project-management API with a web client. Its transactional protocols are small, but
whether they are right depends on every interleaving and every run. This project models them in
Dafny 4.11 and proves what the code, its tests and its documentation rely on. Check it with
`dafny verify dfyconfig.toml`.

| files | what they model |
|---|---|
| `Outbox`, `OutboxRuns`, `OutboxWorker` | the transactional e-mail outbox: any number of workers, leases, crashes, lost responses, late writes |
| `Auth`, `AuthInvariant`, `AuthRuns`, `AuthMeaning`, `AuthService`, `AuthSolo` | sessions and rotating refresh tokens, statement by statement |
| `SingleFlight` | the web client's shared refresh, composed with the session machine |
| `TimeTracking`, `TimeService` | time entries and the total each task keeps of them |
| `Positions`, `Checklists`, `Tasks`, `Placement` | lists kept as integer positions, and where tasks may be |
| `Burndown` | the analytics trend query against a direct count |
| `Organizations`, `OrganizationService` | ownership, invitations and seats |
| `EventWindow`, `Presence`, `PresenceMeaning`, `PresenceService` | realtime presence and its rate limit |
| `Mentions`, `Highlights`, `HighlightLimits` | typing, recognising and highlighting mentions |

## How it is modelled

A row is a datatype, a table is a map, and a SQL statement or a transaction is a function on
tables. Repositories, services, the worker, the API client and the socket handlers, which change
state, are classes whose methods are proved against these functions; run-level results are about
state machines built from the same functions.
What an operation does is also stated on the fields themselves, with the code's constants, in the
contracts and in the lemmas whose names end in `Means`.

- Outbox, sessions and time tracking: one statement or transaction is one step and all steps
  interleave. A batch of the worker and a refresh request are proved as programs too.
- Organizations, checklists, tasks, placement and presence: one service call or handler is one
  step, because these check first and write later without a transaction around both. Where this
  matters, lemmas say exactly when a late write or a stale reading does harm (`LateWriteExactlyWhen`,
  `LateClaimExactlyWhen`, `LateClaimKeepsOwnerExactlyWhen`, `StaleReadExactlyWhen`,
  `StaleAckExactlyWhen`, `StaleOfflineExactlyWhen`). Ownership transfers and invitation claims are
  transactions and are proved under interleaving.

Facts taken from the schema and its migrations: a token has at most one successor
(`apps/api/prisma/schema.prisma:94`), outbox rows start PENDING with no attempts
(`apps/api/prisma/schema.prisma:806-828`), deleting a column sets the column of its tasks to NULL
(`apps/api/prisma/schema.prisma:482`), and a user has one running timer whose rows satisfy two
CHECK constraints (`apps/api/prisma/migrations/20260823214000_time_tracking_hardening/migration.sql:10-20`).
`maxAttempts` is at least 1 (`apps/api/src/config/env.ts:56`).

Other decisions:

- Ids stand for UUIDs, hashes and secrets. A nullable time stamp of which only the presence is
  read is a boolean.
- A statement reads the clock once. Clocks are arbitrary in the outbox and nondecreasing in the
  session machine, in the burndown runs and in the event window's bound.
- `findRefreshTokenByHash` includes the session; it is two reads here, which only adds
  interleavings. A refresh refused by the unique index answers before its two revocations have run
  (`apps/api/src/modules/auth/auth.service.ts:138`); here the request counts as finished after them.
- The trend and the summary of the analytics are two statements, each with a snapshot of its own
  (`apps/api/src/modules/analytics/analytics.repository.ts:54-130`); here both read the same table.
- A worker process that dies of an exception is a crash step.
- Emails are compared as the code normalises them, in lower case.
- Exactly one role has the key OWNER: it is seeded and no call creates roles.
- A socket carries events and acknowledgements to its client in order, and the client handles them
  at any later time.

## What turned out differently

- A replayed refresh token does not always cost its session: if the session expires between the
  check and the issuing, the request ends without revoking it. `ReplayLateExactlyWhen` gives the
  condition and `LateReplayExists` a run.
- A client may present a refresh token again after it was refused with it (`PresentedAtMostOnce`).
- `docs/architecture.md:79` says that logout-all revokes other sessions. The code revokes all of
  the user's sessions, and so does the model.
- Moving an archived task renumbers its siblings around a row the bucket does not show.
  `DenseExactlyWhen` says for which moves the bucket has no gap afterwards.
- `completedAt` comes from the API's clock and `createdAt` from the database's. `ShareExactlyWhen`
  says for which rows the burndown and the direct count agree.
- If a transfer commits between the check and the write of the new owner's removal, the
  organization is left with an inactive owner (`RemovalRacesTransfer`). Every transfer by that owner
  fails until they have accepted an invitation again (`OwnershipStuck`, `RejoiningRepairs`).
- Highlighting is not idempotent for every name. A `$` that starts a substitution is one cause
  (`DollarNotIdempotent`); the other is that the stars around one name complete the mention of another
  or the same. That needs an `@` and a `*`, in one name (`IdempotentExactlyWhen`,
  `MixedNamesNotIdempotent`) or in two different ones (`SplitNamesNotIdempotent`).

## Model

| member | source | states |
|---|---|---|
| Outbox.StepKeepsInv | apps/api/src/shared/outbox/outbox.repository.ts:30-103 | no claim, mail call, closing update, exception or crash of any worker breaks the lease, attempt and delivery invariant |
| Outbox.ReachableInv | apps/api/src/shared/outbox/outbox.worker.ts:23-58 | the invariant holds in every interleaving of workers, lapsed leases and crashes |
| OutboxRuns.LeaseMatchesSnapshot | apps/api/src/shared/outbox/outbox.repository.ts:86-103 | a live lease holder works on exactly the attempt the row counts, so the terminal test on its own copy is right |
| OutboxRuns.LostLeaseNeverWrites | apps/api/src/shared/outbox/outbox.repository.ts:72-103 | after somebody else leased a row, no later write of the former holder ever changes it |
| OutboxRuns.LeaseIsExclusive | apps/api/src/shared/outbox/outbox.repository.ts:48-69 | while no claim counts a lease as stale, only its holder changes the row |
| OutboxRuns.LeaseCountsFromClaim | apps/api/src/shared/outbox/outbox.repository.ts:48-69 | a lease counts from its own claim: over any run of claims whose cutoff is not after it, without a closing update of the holder, the row stays as that claim left it |
| OutboxRuns.LeaseLapsesExactlyWhen | apps/api/src/shared/outbox/outbox.repository.ts:54-62 | a row just claimed can be taken by another claim if and only if that one's cutoff lies after the time of the claim and an attempt is left |
| OutboxRuns.ClaimsDisjoint | apps/api/src/shared/outbox/outbox.repository.ts:48-69 | a claim takes nothing that an earlier claim took since its own cutoff, and leaves those rows with the first worker |
| OutboxRuns.MailCallsBounded | apps/api/src/shared/outbox/outbox.worker.ts:30-36 | over any run all workers together send an event at most maxAttempts times |
| OutboxRuns.TerminalMeaning | docs/architecture.md:56 | at least once: a completed event was accepted by the provider, a failed one used every attempt |
| OutboxRuns.BoundedWork | apps/api/src/shared/outbox/outbox.repository.ts:36-103 | a row changes at most 2 * maxAttempts times in any run, and never again once it is terminal |
| OutboxRuns.TerminalForever | apps/api/src/shared/outbox/outbox.repository.ts:36-103 | COMPLETED and FAILED rows stay exactly as they are |
| OutboxRuns.NotStranded | apps/api/src/shared/outbox/outbox.repository.ts:37-59 | a late enough claim can act on a row if and only if the row is not terminal |
| OutboxRuns.CanAlwaysSettle | apps/api/src/shared/outbox/outbox.repository.ts:30-84 | from every reachable state some schedule settles the event, by completing it whenever an attempt is left |
| OutboxRuns.RetryDelay | apps/api/src/shared/outbox/outbox.worker.ts:38 | the delay doubles with each attempt and is an hour exactly from the tenth on |
| OutboxWorkers.BatchExists | apps/api/src/shared/outbox/outbox.repository.ts:48-59 | every table has a first batch in queue order, of any size |
| OutboxWorkers.OutboxRepository.Enqueue | apps/api/src/shared/outbox/outbox.repository.ts:6-28 | nobody holds the new event, every claim from then on may take it exactly when it has an attempt to make, and no other row changes |
| OutboxWorkers.OutboxRepository.ClaimBatch | apps/api/src/shared/outbox/outbox.repository.ts:30-70 | exhausted rows fail, the first due rows in queue order up to the batch size are leased to this worker from now on with the attempt counted, all others stay, and the leased rows are returned |
| OutboxWorkers.OutboxRepository.MarkCompleted | apps/api/src/shared/outbox/outbox.repository.ts:72-84 | writes only for the holder of the lease, and says whether it did |
| OutboxWorkers.OutboxRepository.MarkDeliveryFailed | apps/api/src/shared/outbox/outbox.repository.ts:86-103 | writes only for the holder; fails the row on its last attempt and reschedules it otherwise |
| OutboxWorkers.OutboxWorker.Send | apps/api/src/shared/outbox/outbox.worker.ts:31-34 | decoding and sending is one step of the machine, after which the delivery is sent or in its catch block |
| OutboxWorkers.OutboxWorker.Finish | apps/api/src/shared/outbox/outbox.worker.ts:35-36 | the completion is one step of the machine; when it throws, applied or not, the delivery goes to its catch block |
| OutboxWorkers.OutboxWorker.Fail | apps/api/src/shared/outbox/outbox.worker.ts:37-43 | the catch block is one step of the machine and settles the row as the outcome demands, unless the row is completed already |
| OutboxWorkers.OutboxWorker.Advance | apps/api/src/shared/outbox/outbox.worker.ts:31-43 | a statement of one delivery moves it on and leaves every other delivery of the batch where it is |
| OutboxWorkers.OutboxWorker.DeliverAll | apps/api/src/shared/outbox/outbox.worker.ts:30-55 | however the deliveries of a batch interleave, together they are a run of the machine in which each decodable event is mailed exactly once; afterwards every event is settled, none is held, and no other row has changed |
| OutboxWorkers.OutboxWorker.RunOnce | apps/api/src/shared/outbox/outbox.worker.ts:23-58 | claiming and delivering side by side is a run of the machine: the batch is what was due, each of its decodable events is mailed exactly once and all are settled, and no other row changes unless its lapsed lease was its last |
| AuthInvariant.StepKeepsInv | apps/api/src/modules/auth/auth.service.ts:87-164 | no statement of an interleaved login, refresh, logout, reset or abort breaks the session invariant; what the statements let pass is the subject of AuthMeaning |
| AuthRuns.TokensFormOnePath | apps/api/src/modules/auth/auth.repository.ts:200-216 | in every reachable state a session's tokens are one acyclic path from its login token, of one user, none outliving the session |
| AuthRuns.OneSuccessPerToken | apps/api/src/modules/auth/auth.service.ts:129-145 | however handlers race for a token, at most one of them issues a successor |
| AuthRuns.ReplayNeverIssues | apps/api/src/modules/auth/auth.service.ts:98-145 | presenting a token that has a successor never issues tokens; a request that ran to its end left the session revoked, unless the account was inactive or the session had expired by the time of issuing |
| AuthRuns.ReplayLateExactlyWhen | apps/api/src/modules/auth/auth.service.ts:247-261 | a replay by an active user that passed the checks ends without revoking if and only if the session has expired when it comes to issue; otherwise the unique index refuses it and the session ends revoked |
| AuthRuns.LateReplayExists | apps/api/src/modules/auth/auth.service.ts:110-133 | a run in which a replay ends that way, with the session not revoked |
| AuthRuns.LogoutRevokes | apps/api/src/modules/auth/auth.service.ts:152-164 | in every interleaving a logout that ran to its end has revoked the session of its token |
| AuthRuns.RevokedForever | apps/api/src/modules/auth/auth.repository.ts:81-93 | a revoked session is never active again, in any run |
| AuthRuns.NoRefreshAfterRevocation | apps/api/src/modules/auth/auth.service.ts:101-122 | a refresh that starts after a revocation never issues a token of that session, not even from one created in flight |
| AuthRuns.RevokedRefused | apps/api/src/modules/auth/auth.service.ts:101-122 | a refresh that presents a token of a revoked session issues nothing and ends in a rejection, in every interleaving |
| AuthRuns.BulkRevocationIsFinal | apps/api/src/modules/auth/auth.repository.ts:180-185 | after logout-all or a password reset, over any run, no session the user had is active again and every refresh with a token of one is rejected |
| AuthRuns.RotationNeverExtends | apps/api/src/modules/auth/auth.service.ts:252-261 | however often it is rotated, a session ends where its login put it, and none of its tokens later |
| AuthRuns.ResetOnce | apps/api/src/modules/auth/auth.repository.ts:320-352 | a reset link works at most once in any run |
| AuthMeaning.IssuedMeans | apps/api/src/modules/auth/auth.service.ts:98-145 | in every interleaving a refresh that issued a token had earned it: the token was neither expired, revoked nor marked when read, the session live, the account active and the session not over at the issuing, and nobody had rotated the token before |
| AuthMeaning.InactiveRefused | apps/api/src/modules/auth/auth.service.ts:124-127 | a refresh that finds its account missing or inactive ends with that refusal over any run, and writes nothing |
| AuthMeaning.LoginBegins | apps/api/src/modules/auth/auth.service.ts:263-284 | a login begins with an unrevoked session of its own for its user, ending when asked |
| AuthMeaning.LoginMeans | apps/api/src/modules/auth/auth.service.ts:263-284 | a login that completes yields a token that is good for a refresh exactly while its session lasts, is not revoked and the account is active |
| AuthMeaning.AccountSwitches | apps/api/src/modules/auth/auth.repository.ts:81-93 | no session of an inactive account is active; an active account's are exactly when neither revoked nor over, and only for their own user |
| AuthMeaning.BulkSparesOthers | apps/api/src/modules/auth/auth.repository.ts:180-185 | logout-all and a password reset change no session of another user, no token and no request under way |
| AuthMeaning.DeadResetDoesNothing | apps/api/src/modules/auth/auth.repository.ts:320-352 | a used or expired reset link changes nothing |
| AuthSolo.SoloRefresh | apps/api/src/modules/auth/auth.service.ts:87-150 | the machine's refresh, uninterrupted, meets the contract of the endpoint: it issues exactly for the newest token of a live session of an active account, with exactly that effect on the tables |
| AuthServices.AuthRepository.CreateRefreshToken | apps/api/src/modules/auth/auth.repository.ts:200-216 | a login token is always created; a second successor of a token is refused and changes nothing |
| AuthServices.RevokedTokenBarred | apps/api/src/modules/auth/auth.repository.ts:218-223 | revoking a token bars exactly it from refreshes, for good, and ends no session |
| AuthServices.EndedSessionBarred | apps/api/src/modules/auth/auth.service.ts:303-307 | ending a session leaves it active for nobody and none of its tokens good for a refresh; all other sessions and tokens go on |
| AuthServices.ReusedTokenBarred | apps/api/src/modules/auth/auth.repository.ts:232-237 | the mark of reuse bars exactly this token, whatever else its row says, and ends no session by itself |
| AuthServices.AuthRepository.ConsumePasswordResetToken | apps/api/src/modules/auth/auth.repository.ts:320-352 | yields the user exactly for an unused link that has not expired, which is then used up with exactly the sessions of the user revoked |
| AuthServices.AuthService.Refresh | apps/api/src/modules/auth/auth.service.ts:87-150 | alone, a refresh succeeds exactly for the newest token of a session that is live and does not end before the issuing; a rotated one costs its session unless that ends first; no other session changes |
| AuthServices.RotationContinues | apps/api/src/modules/auth/auth.service.ts:245-261 | the token a refresh issued is itself good for a refresh exactly until it or the session ends |
| AuthServices.AuthService.IssueSession | apps/api/src/modules/auth/auth.service.ts:245-284 | a login gets a session of its own, a rotation a token in its session and no longer; refused exactly when that has expired or the predecessor has a successor |
| AuthServices.AuthService.Logout | apps/api/src/modules/auth/auth.service.ts:152-164 | a known token ends its session with all tokens; an unknown one changes nothing |
| SingleFlight.ApiClient.RefreshSession | apps/web/src/lib/api.ts:254-261 | callers during a flight join it; only an idle client starts a request |
| SingleFlight.ApiClient.OnSettled | apps/web/src/lib/api.ts:263-277 | the cookie is replaced exactly when tokens were issued, and the next call may start a request |
| SingleFlight.LoginOpensTab | apps/api/src/modules/auth/auth.service.ts:263-284 | any login yields a tab to which the composition results apply |
| SingleFlight.SingleFlightNeverPunished | apps/web/src/lib/api.ts:216-277 | a single-flight tab never reaches the reuse or the concurrent-refresh branch, whatever else interleaves |
| SingleFlight.RefusedOnlyForCause | apps/api/src/modules/auth/auth.service.ts:98-145 | the tab's refresh is refused only for an inactive account, an ended session, or an expired or logged-out token |
| SingleFlight.PresentedAtMostOnce | apps/web/src/lib/api.ts:216-277 | the tab presents a token at most once more than it is refused with it, so without a refusal at most once |
| SingleFlight.CookieIsNewest | apps/web/src/lib/api.ts:254-277 | between two refreshes the cookie is the one token of the session without successor |
| SingleFlight.RefreshingNeverRevokes | apps/api/src/modules/auth/auth.service.ts:110-143 | no statement of the tab's refresh revokes a session that has not expired |
| TimeTracking.TrackedIsSum | apps/api/src/modules/tasks/task-time.repository.ts:70-165 | in every interleaving each task's trackedSeconds is the sum of its ended entries; running ones hold 0, ended ones last at least a second and agree with their length to within one; one timer per user |
| TimeTracking.StepKeepsValid | apps/api/src/modules/tasks/task-time.repository.ts:70-175 | each transaction alone keeps sums, durations and the one-timer rule |
| TimeTracking.StoppedDurationOk | apps/api/src/modules/tasks/task-time.repository.ts:100-120 | a stopped timer books at least a second and is within one second of the time that passed |
| TimeTracking.DeleteUndoesLog | apps/api/src/modules/tasks/task-time.repository.ts:151-165 | deleting a logged entry restores rows and totals exactly |
| TimeTracking.DeleteForgetsEdits | apps/api/src/modules/tasks/task-time.repository.ts:100-165 | after any run of stops and edits of an entry, deleting it leaves what deleting it at once would |
| TimeServices.TaskTimeRepository.FindActiveByUser | apps/api/src/modules/tasks/task-time.service.ts:64-89 | finds the user's running entry if and only if there is one |
| TimeServices.TaskTimeRepository.InsertManual | apps/api/src/modules/tasks/task-time.repository.ts:70-86 | entry and total change together, or neither does |
| TimeServices.TaskTimeRepository.InsertRunning | apps/api/src/modules/tasks/task-time.repository.ts:88-98 | a second running timer of a user is refused |
| TimeServices.TaskTimeRepository.StopEntry | apps/api/src/modules/tasks/task-time.repository.ts:100-120 | only a running entry is stopped, once: its start stays, its end is the time asked for, its whole seconds, at least one, are added to the total, and nothing else changes |
| TimeServices.TaskTimeRepository.UpdateEntry | apps/api/src/modules/tasks/task-time.repository.ts:122-149 | the start of an ended entry stays, the end moves to start plus duration, the total moves by the difference of the durations, and nothing else changes |
| TimeServices.TaskTimeRepository.DeleteEntry | apps/api/src/modules/tasks/task-time.repository.ts:151-165 | takes back exactly what the entry had booked |
| TimeServices.TaskTimeService.Log | apps/api/src/modules/tasks/task-time.service.ts:36-62 | accepted exactly for a known task and an end not more than five minutes ahead; then one entry of the actor from that start to that end is added, and exactly those minutes are booked |
| TimeServices.TaskTimeService.StartTimer | apps/api/src/modules/tasks/task-time.service.ts:64-89 | a conflict exactly when the user has a running timer; totals stay |
| TimeServices.TaskTimeService.StopTimer | apps/api/src/modules/tasks/task-time.service.ts:91-107 | stops exactly the actor's own running timer on this task: its start stays, it ends now, and its length is booked |
| TimeServices.TaskTimeService.Update | apps/api/src/modules/tasks/task-time.service.ts:109-132 | only an ended entry of this task can be edited: its start stays, its end becomes start plus the minutes, the total follows, and every other entry stays |
| TimeServices.TaskTimeService.Remove | apps/api/src/modules/tasks/task-time.service.ts:134-145 | removes exactly an entry of this task and its time |
| Positions.OrderedQuery | apps/api/src/modules/tasks/tasks.repository.ts:297-310 | selecting rows by position and creation time lists exactly them, in order |
| Positions.ListingUnique | apps/api/src/modules/tasks/task-resources.repository.ts:72-123 | rows with different positions have one listing only |
| Positions.DenseListing | apps/api/src/modules/tasks/task-resources.repository.ts:103-123 | every listing of rows numbered without gaps is the list itself |
| Positions.MoveBack | apps/api/src/modules/tasks/task-resources.repository.ts:103-123 | moving an element there and back restores the order |
| Checklists.ChecklistStore.CreateItem | apps/api/src/modules/tasks/task-resources.repository.ts:72-77 | is the create transaction of the refinement below |
| Checklists.ChecklistStore.DeleteItem | apps/api/src/modules/tasks/task-resources.repository.ts:86-101 | is the delete transaction of the refinement below, loop included |
| Checklists.ChecklistStore.MoveItem | apps/api/src/modules/tasks/task-resources.repository.ts:103-123 | is the move transaction of the refinement below, loop included; without a gap the item lands at the clamped index among the others in their order |
| Checklists.ChecklistStore.RewritePositions | apps/api/src/modules/tasks/task-resources.repository.ts:95-120 | the rewriting loop gives every listed row its index and leaves all other rows |
| Checklists.TransactionRefines | apps/api/src/modules/tasks/task-resources.repository.ts:72-123 | on the list shown, create appends, delete removes, and move removes and inserts at the clamped index |
| Checklists.RunRefinesSequence | apps/api/src/modules/tasks/task-resources.repository.ts:72-123 | after any run, mixing any checklists, the positions of each are 0 to n - 1 and show what a plain sequence would |
| Checklists.ShowsOne | apps/api/src/modules/tasks/task-resources.repository.ts:72-123 | a checklist shows one order only |
| Checklists.MoveAndBack | apps/api/src/modules/tasks/task-resources.repository.ts:103-123 | moving an item away and back to its former index restores the list |
| Checklists.OthersUntouched | apps/api/src/modules/tasks/task-resources.repository.ts:72-123 | no transaction changes an item of another checklist |
| Tasks.TasksRepository.MoveTask | apps/api/src/modules/tasks/tasks.repository.ts:285-329 | the queries, the splice, the rewriting loop and the final update are one move as the lemmas below understand it; an unknown task changes nothing |
| Tasks.MovedMeans | apps/api/src/modules/tasks/tasks.repository.ts:285-329 | board, column and status become what was asked for or stay; the task takes the clamped index, or the end without one, among the live siblings by position and age; these make room, and no other task changes |
| Tasks.MoveResult | apps/api/src/modules/tasks/tasks.repository.ts:285-329 | the target bucket is numbered without gaps and its only listing is the siblings with the task at the clamped index |
| Tasks.BucketAfter | apps/api/src/modules/tasks/tasks.repository.ts:285-329 | the target bucket gains the task if it is listed at all, and nothing else |
| Tasks.SiblingsOrder | apps/api/src/modules/tasks/tasks.repository.ts:303-316 | siblings keep their former order and never share a position with the task |
| Tasks.DenseExactlyWhen | apps/api/src/modules/tasks/tasks.repository.ts:285-329 | the bucket is without gaps if and only if the task is not archived or went to the end |
| Tasks.OtherBuckets | apps/api/src/modules/tasks/tasks.repository.ts:285-329 | no row of another bucket changes; at most the task has left it |
| Placements.CallCoherent | apps/api/src/modules/tasks/tasks.service.ts:286-321 | create, move, delete, archive, board, column and status calls keep task placement coherent |
| Placements.MoveTaskMeans | apps/api/src/modules/tasks/tasks.service.ts:286-321 | with a column the task ends in it with its board and status, with a status alone on no board with exactly that status of the organization, with neither where it was; refused exactly when the column or status cannot be used or the task is a subtask |
| Placements.CreateTaskMeans | apps/api/src/modules/tasks/tasks.service.ts:488-520 | a new task starts in its column with that board and status, or on no board with the given status or the default one; refused exactly when it cannot |
| Placements.CreateSubtaskMeans | apps/api/src/modules/tasks/tasks.service.ts:105-141 | a subtask starts on no board with its parent's status; refused exactly under a missing, deleted or nested parent |
| Placements.OtherCallsMean | apps/api/src/modules/tasks/tasks.service.ts:258-273 | deleting also archives, archiving changes the flag only, a deleted column leaves its tasks their board and status, and no other call changes a task |
| Placements.PlacementCoherent | apps/api/src/modules/tasks/tasks.service.ts:488-520 | in every reachable state a task in a column has that column's status and board, on a board of its project; a subtask has depth one and no board or column |
| Burndown.ShareExactlyWhen | apps/api/src/modules/analytics/analytics.repository.ts:137-170 | a task is counted right on every day of the window if and only if its row is consistent |
| Burndown.WindowIsShares | apps/api/src/modules/analytics/analytics.repository.ts:171-193 | summing daily buckets by a window is summing task by task |
| Burndown.BurndownIsOpenCount | apps/api/src/modules/analytics/analytics.repository.ts:130-194 | `remaining` is the direct count of top-level tasks open when the day ends, and the clamp at 0 never fires |
| Burndown.RunKeepsCompletion | apps/api/src/modules/tasks/tasks.service.ts:233-244 | over any run a task is completed exactly when it has a completion time, which lies between its creation and now |
| Burndown.TrendWindow | apps/api/src/modules/analytics/analytics.service.ts:21-24 | the window starts at a midnight and spans exactly the last `days` UTC days, today included |
| Burndown.LastPointIsOpenTasks | apps/api/src/modules/analytics/analytics.repository.ts:57-74 | the last point of the chart is the summary's openTasks |
| Burndown.BurndownOfReachableTables | apps/api/src/modules/analytics/analytics.repository.ts:130-194 | for every table the task service can produce the chart has one point for each day, and every point is exact |
| Burndown.SummaryOfReachableTables | apps/api/src/modules/analytics/analytics.repository.ts:57-74 | for every such table chart and summary agree on the open tasks |
| Burndown.CreatedAddsUp | apps/api/src/modules/analytics/analytics.repository.ts:57-74 | the daily created counts add up to the summary's createdInPeriod |
| Burndown.CompletedAddsUp | apps/api/src/modules/analytics/analytics.repository.ts:57-74 | the daily completed counts add up to the summary's completedInPeriod |
| Burndown.CountIsRows | apps/api/src/modules/analytics/analytics.repository.ts:57-74 | the counts of the queries are numbers of rows |
| Burndown.PointMeans | apps/api/src/modules/analytics/analytics.repository.ts:130-194 | for every table the task service can produce, each point is one UTC day with the number of the organization's live top-level tasks created on it, completed on it, and open when it ended |
| Burndown.SummaryMeans | apps/api/src/modules/analytics/analytics.repository.ts:57-74 | the summary counts the organization's live top-level tasks that are open, created in the period, and completed in it |
| Burndown.WritesMean | apps/api/src/modules/tasks/tasks.service.ts:233-273 | a new task is open and created now, flag and time stamp are set and cleared together, and a deleted task never changes |
| Organizations.TransferEffect | apps/api/src/modules/organizations/organizations.repository.ts:311-364 | a transfer commits exactly for the current owner and an active target; both roles follow, everybody else keeps theirs, and no internal error occurs |
| Organizations.CallKeepsOwner | apps/api/src/modules/organizations/organizations.service.ts:135-228 | no service call breaks "one active owner, who is ownerId" |
| Organizations.AlwaysOneOwner | apps/api/src/modules/organizations/organizations.service.ts:135-228 | from creation on, exactly one membership holds the OWNER role, it is active and belongs to ownerId; "Current owner membership is missing" is unreachable |
| Organizations.RacingTransfersChain | apps/api/src/modules/organizations/organizations.repository.ts:311-364 | however stale the requests, racing transfers commit as a single chain from owner to owner |
| Organizations.DeletionIsFinal | apps/api/src/modules/organizations/organizations.service.ts:103-106 | over any run after its deletion, nobody is invited, joins or takes over |
| Organizations.LateWriteExactlyWhen | apps/api/src/modules/organizations/organizations.repository.ts:304-371 | a late role change or removal keeps one owner if and only if the member has not become the owner |
| Organizations.RemovalRacesTransfer | apps/api/src/modules/organizations/organizations.service.ts:167-178 | a removal that was allowed but comes after a transfer leaves an inactive owner |
| Organizations.TransferFailsExactlyWhen | apps/api/src/modules/organizations/organizations.repository.ts:327-351 | an owner's transfer to an active member ends in "Current owner membership is missing" if and only if the owner is not an active member |
| Organizations.InactiveOwnerStep | apps/api/src/modules/organizations/organizations.service.ts:135-369 | a call makes an inactive owner a member again if and only if it is an acceptance by them, and never moves ownership |
| Organizations.OwnershipStuck | apps/api/src/modules/organizations/organizations.service.ts:180-228 | over any run in which the inactive owner does not rejoin, no transfer succeeds |
| Organizations.RejoiningRepairs | apps/api/src/modules/organizations/organizations.service.ts:298-357 | once they have rejoined, their transfer succeeds and restores exactly one owner |
| Organizations.AcceptedOnce | apps/api/src/modules/organizations/organizations.repository.ts:519-557 | in every interleaving of claims and status updates an invitation is accepted at most once |
| Organizations.InvitationsInOrder | apps/api/src/modules/organizations/organizations.service.ts:230-357 | in every run at most one invitation is pending for an email, every invitation names an available role, and accepting never meets one to ownership |
| Organizations.CallKeepsInvitations | apps/api/src/modules/organizations/organizations.service.ts:230-369 | no service call makes a second invitation pending for an email or names a role that cannot be assigned |
| Organizations.SeatsBounded | apps/api/src/modules/billing/billing.service.ts:191-215 | with billing on and a fixed plan, active members never exceed the larger of the plan's seats and the initial number |
| Organizations.CallKeepsSeats | apps/api/src/modules/organizations/organizations.service.ts:298-357 | no service call takes the members beyond the larger of the plan's seats and their present number |
| Organizations.LateClaimExactlyWhen | apps/api/src/modules/organizations/organizations.repository.ts:530-557 | a claim respects the seats if and only if a seat is free when it commits, since it does not look itself |
| Organizations.LateClaimKeepsOwnerExactlyWhen | apps/api/src/modules/organizations/organizations.repository.ts:549-553 | a late claim keeps one owner if and only if the claimant has not become the owner, whose role it would overwrite |
| OrganizationServices.OrganizationsRepository.TransferOwnership | apps/api/src/modules/organizations/organizations.repository.ts:311-364 | commits exactly from an active owner to an active member; then the target holds the owner role, every other holder of it the administrators', and all else stays; without an active owner the promotion is rolled back |
| OrganizationServices.OrganizationsRepository.UpdateMemberRole | apps/api/src/modules/organizations/organizations.repository.ts:304-309 | nobody joins or leaves and nobody else's role changes; it keeps one owner, for a member other than the owner, exactly when the new role is not OWNER |
| OrganizationServices.OrganizationsRepository.RemoveMember | apps/api/src/modules/organizations/organizations.repository.ts:366-371 | frees exactly this member's seat while the row keeps its role; it keeps one owner exactly for members other than the owner |
| OrganizationServices.OrganizationsRepository.CreateInvitation | apps/api/src/modules/organizations/organizations.repository.ts:460-478 | the new invitation can be claimed for its role until it expires, its email counts as invited, and no other claim changes |
| OrganizationServices.OrganizationsRepository.SetInvitationStatus | apps/api/src/modules/organizations/organizations.repository.ts:519-528 | a settled invitation can never be claimed, and neither another claim nor a membership changes |
| OrganizationServices.OrganizationsRepository.AcceptInvitation | apps/api/src/modules/organizations/organizations.repository.ts:530-557 | claims exactly a pending, unexpired invitation to this role; then the user is an active member with the invited role, the invitation is accepted, and nothing else changes |
| OrganizationServices.OrganizationsService.UpdateMemberRole | apps/api/src/modules/organizations/organizations.service.ts:135-165 | succeeds exactly for an active member without the OWNER role and an available role other than OWNER; a refusal changes nothing and one owner remains |
| OrganizationServices.OrganizationsService.RemoveMember | apps/api/src/modules/organizations/organizations.service.ts:167-178 | removes exactly an active member without the OWNER role, and one owner remains |
| OrganizationServices.OrganizationsService.TransferOwnership | apps/api/src/modules/organizations/organizations.service.ts:180-228 | succeeds exactly from an active owner to another active member; a failure changes nothing, and with one owner it never ends in an internal error |
| OrganizationServices.OrganizationsService.AcceptInvitation | apps/api/src/modules/organizations/organizations.service.ts:298-357 | succeeds exactly for the active addressee of a pending invitation to an assignable role, in time and with a seat left; then exactly that user is added, with the invited role; a refusal changes at most the status of a lapsed invitation or one to ownership |
| OrganizationServices.OrganizationsService.InviteMember | apps/api/src/modules/organizations/organizations.service.ts:230-296 | a conflict exactly when the email is an active member's or already invited; a new invitation stands for seven days with the given role and is the only pending one for its email |
| OrganizationServices.OrganizationsService.RevokeInvitation | apps/api/src/modules/organizations/organizations.service.ts:359-369 | exactly a pending invitation becomes revoked, and can then never be claimed |
| EventWindow.AtMostTwiceTheLimit | apps/api/src/modules/realtime/realtime.service.ts:85-97 | for all nondecreasing times, at most 240 events are accepted in any half-open minute |
| EventWindow.TwiceTheLimitIsReached | apps/api/src/modules/realtime/realtime.service.ts:85-97 | 240 is reached: the bound cannot be improved |
| EventWindow.OneWindow | apps/api/src/modules/realtime/realtime.service.ts:12-13 | one window alone accepts at most its limit |
| EventWindow.RestOfTheWindow | apps/api/src/modules/realtime/realtime.service.ts:85-97 | before its minute is over a window accepts exactly until 120 events are counted |
| EventWindow.FreshWindow | apps/api/src/modules/realtime/realtime.service.ts:85-97 | an event at least a minute after the start begins a new window, in which it and the next 119 are accepted whatever was counted before |
| Presence.PresenceExact | apps/web/src/features/realtime/use-project-realtime.ts:37-50 | at any time of any run, an acknowledged client that has handled what it was sent shows exactly the users with a socket in the room |
| Presence.PresenceConverges | apps/api/src/modules/realtime/realtime.service.ts:219-234 | what is under way to any observer always folds to the users online; subscriptions stay within 100 |
| Presence.StepSync | apps/api/src/modules/realtime/realtime.service.ts:99-182 | connecting, subscribing, unsubscribing, disconnecting, delivery and remounting keep every observer in step |
| Presence.SubscribeObserves | apps/api/src/modules/realtime/realtime.service.ts:132-138 | an accepted subscription makes an observer, and its user is among those online |
| PresenceMeaning.SubscribeRefusals | apps/api/src/modules/realtime/realtime.service.ts:99-131 | each refusal of a subscription has exactly its reason, in this order: rate, payload, limit of 100, failing and denied authorization; it changes the counter only |
| PresenceMeaning.SubscribeMeans | apps/api/src/modules/realtime/realtime.service.ts:132-145 | the socket joins the room; exactly the sockets in it are told, and only of a user who was not there before; the acknowledgement carries the users of the room |
| PresenceMeaning.UnsubscribeMeans | apps/api/src/modules/realtime/realtime.service.ts:147-169 | the socket leaves the room; exactly the sockets left in it are told, and only when the user has no other socket there |
| PresenceMeaning.DisconnectMeans | apps/api/src/modules/realtime/realtime.service.ts:171-182 | every other socket hears exactly that the user is offline in the rooms they shared where the user has no other socket |
| PresenceMeaning.DeliverMeans | apps/web/src/features/realtime/use-project-realtime.ts:37-50 | an acknowledgement replaces what is shown for its project, an event adds or drops one user, and no other project changes |
| PresenceMeaning.RemountMeans | apps/web/src/features/realtime/use-project-realtime.ts:25-33 | a hook mounted again shows nobody until it is acknowledged, and nothing else changes |
| Presence.StaleReadExactlyWhen | apps/api/src/modules/realtime/realtime.service.ts:132-137 | a stale `wasOnline` leaves observers out of step if and only if it says online, the user is not, and somebody is watching |
| Presence.StaleAckExactlyWhen | apps/api/src/modules/realtime/realtime.service.ts:138 | a stale acknowledgement leaves the new observer out of step if and only if it differs from the users online |
| Presence.StaleOfflineExactlyWhen | apps/api/src/modules/realtime/realtime.service.ts:219-223 | a stale reading of the room after a departure leaves observers out of step if and only if it is wrong about the user and somebody is watching |
| PresenceServices.RealtimeService.ConsumeSubscriptionEvent | apps/api/src/modules/realtime/realtime.service.ts:89-97 | an event is refused exactly when 120 were counted in a minute that is not over; the counter of this socket moves and nothing else changes |
| PresenceServices.RealtimeService.OnConnection | apps/api/src/modules/realtime/realtime.service.ts:72-87 | a new socket, in no room yet, leaves every observer in step |
| PresenceServices.RealtimeService.OnSubscribe | apps/api/src/modules/realtime/realtime.service.ts:99-145 | subscribes exactly within rate, authorization and subscription limit; keeps every observer in step, and a success makes one |
| PresenceServices.RealtimeService.JoinProject | apps/api/src/modules/realtime/realtime.service.ts:133-138 | joins, announces a user who was not online before, and acknowledges, in this order |
| PresenceServices.RealtimeService.OnUnsubscribe | apps/api/src/modules/realtime/realtime.service.ts:147-169 | keeps every observer in step; afterwards the socket is not in the room |
| PresenceServices.RealtimeService.OnDisconnect | apps/api/src/modules/realtime/realtime.service.ts:171-182 | keeps every observer in step, and no other socket is lost |
| PresenceServices.ProjectPresence.OnPresence | apps/web/src/features/realtime/use-project-realtime.ts:42-50 | one event changes what is shown as the fold says; other projects' events do not |
| PresenceServices.ProjectPresence.OnMessages | apps/web/src/features/realtime/use-project-realtime.ts:37-50 | after any stretch of messages the hook shows their fold |
| Mentions.ExtractExactlyWhen | apps/web/src/features/comments/mention-utils.ts:13-29 | a token is extracted if and only if the text ends in a live `@` followed by word characters |
| Mentions.ExtractedToken | apps/web/src/features/comments/mention-utils.ts:13-29 | nothing else is ever extracted, and only with the caret at the end |
| Mentions.CompletionIsRecognised | apps/web/src/features/comments/mention-utils.ts:32-54 | completing an extracted token yields a text that mentions the name, ends the mention and keeps what stood before |
| Mentions.CompletionMeans | apps/web/src/features/comments/mention-utils.ts:32-45 | wherever the caret is, what was typed from the last `@` before it gives way to the name and a space, what follows the caret stays, and the caret goes behind the space |
| Mentions.NothingToComplete | apps/web/src/features/comments/mention-utils.ts:32-45 | without an `@` before the caret nothing happens |
| Mentions.MentionMeans | apps/web/src/features/comments/mention-utils.ts:48-54 | a body mentions a name if and only if the name stands in it after an `@` with nothing or a space before it, and nothing, a space or one of `,.;:!?` after it |
| Mentions.SpacesAre | apps/web/src/features/comments/mention-utils.ts:53 | a space is exactly what `\s` matches |
| Mentions.EscapesEach | apps/web/src/features/comments/mention-utils.ts:52 | exactly the fourteen characters with a meaning in a pattern are escaped, one by one |
| Mentions.EscapedIsLiteral | apps/web/src/features/comments/mention-utils.ts:52 | read as a pattern, an escaped name matches that name and nothing else |
| Highlights.HighlightsExactlyMentions | apps/web/src/features/comments/mention-utils.ts:48-70 | for every nonempty name, highlighting it changes the text if and only if the recogniser finds it |
| Highlights.InsertedLiterallyExactlyWhen | apps/web/src/features/comments/mention-utils.ts:64-67 | the replacement inserts a name as it is, for every match, if and only if no `$` in it starts a substitution |
| Highlights.HighlightIdempotent | apps/web/src/features/comments/mention-utils.ts:57-70 | for any list of literal names of which none contains `@`, or none contains `*`, highlighting again changes nothing and no name is recognised any more |
| Highlights.OnlyStarsAdded | apps/web/src/features/comments/mention-utils.ts:57-70 | apart from stars, the text stays as it was |
| Highlights.HighlightMentions | apps/web/src/features/comments/mention-utils.ts:57-70 | the loop adds nothing but stars for literal names, and its result is a fixed point for such lists |
| Highlights.ReplaceIsMark | apps/web/src/features/comments/mention-utils.ts:64-67 | for a literal name, replacing all matches marks every live mention from left to right |
| Highlights.FirstMention | apps/web/src/features/comments/mention-utils.ts:57-70 | for a literal name, what stands before the first mention stays, the mention gets its four stars, and what follows is highlighted by itself |
| HighlightLimits.IdempotentExactlyWhen | apps/web/src/features/comments/mention-utils.ts:57-70 | for one literal name, highlighting is idempotent on every body if and only if the name does not overlap with its own highlight |
| HighlightLimits.OverlapNeedsBoth | apps/web/src/features/comments/mention-utils.ts:64-67 | only a name with both an `@` and a `*` can overlap so |
| HighlightLimits.OverlapExamples | apps/web/src/features/comments/mention-utils.ts:64-67 | a name for each of the two kinds of overlap |
| HighlightLimits.MixedNamesNotIdempotent | apps/web/src/features/comments/mention-utils.ts:57-70 | two names, one with both characters, for which a second pass changes the text although neither overlaps with itself |
| HighlightLimits.SplitNamesNotIdempotent | apps/web/src/features/comments/mention-utils.ts:57-70 | two names, one with the `@` and the other with the `*`, for which a second pass changes the text |
| HighlightLimits.DollarNotIdempotent | apps/web/src/features/comments/mention-utils.ts:57-70 | a name that is not literal for which a second pass changes the text |

## Left out

- Column moves (`apps/api/src/modules/boards/boards.repository.ts:152-173`) and checklists as containers: the same splice-and-rewrite loop as items and tasks.
- The position `createTask` chooses, WIP limits, and dense positions after removals of tasks or columns: the code does not promise them.
- Other workers between the statements of `RunOnce`: the method interleaves the deliveries of its own batch; the machine of module Outbox interleaves everything.
- Two list transactions at once at the database's default isolation level.
- Subscribe and unsubscribe handlers that interleave at their awaits, beyond the three lemmas on stale readings, and with them the limit of 100 subscriptions under such interleavings; failing reads of a room; connection state recovery.
- An acknowledgement that arrives after the hook was switched to another project: views are kept per project here.
- The invitation mail that fails after the row was created, and access decisions of `getMembership`.
- Cookies lost with a response, several tabs sharing one cookie, and the CSRF token.
- `touchSession`, access tokens, e-mail verification and registration.
- The width of integer columns, such as 32-bit trackedSeconds.
- The database session's time zone: days are UTC days.
- UTF-16 surrogate pairs: text is a sequence of characters, and a caret counts characters. Letters and numbers are any class of characters without `@` and spaces.
- Workload, activity, project and percentage queries of analytics; slugs, teams, files, search, notifications and billing providers: no run-level property.
- Encryption, hashing, mail transport, logging, auditing, routing and validation schemas.
