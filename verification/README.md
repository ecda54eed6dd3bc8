# CodeFixer backend: verified model

A Dafny model of the durable protocols and the recursive transformations of the CodeFixer backend, and
proofs of what they keep. `dafny verify dfyconfig.toml` checks everything.

The stores are modelled twice: as functions on a value that holds all tables (one function per
transaction, `Step` and `Run` over sequences of calls), and as classes whose fields are the tables and
whose methods execute the SQL statements in their order. Every method is proved to compute its
function, and the public ones to keep the invariant; the properties are lemmas about the functions, over
every call, every run or every reachable state. What a call writes and answers is told once more without
its function, by the rows before and after it or by what the next call finds. Time is an integer passed in as `now`. A raised error
rolls the transaction back. Automatic induction is switched off: every induction is written out as a
recursive lemma call.

| files | what they model |
|---|---|
| `LlmSlots`, `LlmSlotLaws`, `LlmSlotStore` | the persistent queue and the leases of LLM slots |
| `GithubDelivery`, `GithubDeliveryProofs`, `GithubDeliveryRuns`, `GithubDeliveryStuck`, `GithubDeliveryCommits`, `GithubPrDelivery` | pull request delivery with reconciliation, over any attempts of any delivery actions of a run: every durable write and external call may fail, take effect and still raise, or be the last thing the process did |
| `BranchNames` | the sanitized parts of a delivery branch name |
| `BaselineCohorts`, `BaselineCohortAgreement`, `BaselineCohortWindows`, `BaselineCohortLaws`, `BaselineCohortStore`, `BaselineCohortCoordinator` | cohorts of tasks that share one baseline revision: what holds whatever the callers' clocks show, what needs clocks that never step back, and the leader's and followers' routines with arbitrary calls of others in between |
| `TaskLifecycle`, `TaskLifecycleProofs`, `TaskTickets`, `TaskRecovery`, `TaskOutcomes`, `TaskHistory`, `TaskStore` | tickets, snapshots, tasks, runs, stages, and the recovery after a restart |
| `ClaudeSchema`, `ClaudeSchemaShape`, `ClaudeSchemaMeaning`, `ClaudeSchemaProofs`, `ClaudeSchemaLosses`, `ClaudeSchemaTranslator` | the rewrite of JSON Schemas for the Claude CLI, with a semantics of the keywords |
| `FrozenChange`, `LocalizationApply` | verify, freeze, and apply a frozen change |
| `ConfigOverride` | the stored configuration override: difference and merge |
| `IsoTimestamps` | comparing timestamps as text |
| `Routing`, `RoutingProofs`, `RoutingLaws` | routing a ticket to a project |
| `HealthSchedule` | scheduled project health checks |
| `Prelude` | Option, Result, and `str.strip` for ASCII white space |

## Where the code falls short of what one would expect

Each is shown by a lemma with a concrete run or an exact condition.

- `remote_branch_commit` reads a failing `git ls-remote` as "no such branch". Exactly then, and if the
  push of another commit fast-forwards, a delivery branch moves (`GithubDeliveryProofs.BranchMovesExactlyWhen`,
  and `UnreadableLookupMovesTheBranch` for a concrete attempt).
- A caught error in the pull request listing or the branch lookup rewrites the target's result without
  `expectedCommit`. A branch pushed before a crash is then refused by every later attempt, exactly until
  an unreadable lookup lets one of them claim it (`ClaimSurvivesExactlyWhen`,
  `ListingFailureLosesTheBranch`, `GithubDeliveryStuck.StuckThroughoutExactlyWhen`, `RefusedForGood`).
- `safe_branch_component` maps different targets to one name, `release/1` and `release-1` for instance:
  they share one delivery branch and the second target is refused for good (`BranchNames.SlashAndDashCollide`,
  `GithubDeliveryStuck.ReleaseBranchIsLost`). A failure-free attempt, after any that only crashed and if no
  commit is built for two targets, reports no failure exactly when no two of its targets are sanitized
  alike (`AllDeliveredWithProgramNames`); `EverythingDeliveredExactlyWhen` has no such premises.
- A delivery action changed after a crash finds the branch of the old one unclaimed and is refused
  (`ChangedActionRefusesTheBranch`).
- A heartbeat that finds its lease gone reaps expired rows and then raises, which undoes the reap
  (`LlmSlots.LostHeartbeatUndoesItsReap`).
- A closed cohort reopens exactly when it is resolved with a clock before its deadline (`ReopensExactlyWhen`).
  Under clocks that never step back this does not happen. Whatever the clocks show, a source has at most
  one open cohort after every call exactly when no call reopens a cohort beside another open one
  (`OneOpenInAnyRunExactlyWhen`; `BackwardClockGivesTwoOpen` is such a run), and the join windows hold
  exactly when in addition no call starts an overlapping cohort or joins one before it was created
  (`WindowedInAnyRunExactlyWhen`). Agreement on the outcome does not depend on the clocks.
- A terminal call (complete, fail, cancel run) separates task and run exactly when another run of the
  task is active (`TerminalCallAgreesExactlyWhen`, `RunAgreesExactlyWhen`, and
  `UndisciplinedRunBreaksAgreement` for a run from empty tables).
- The schema rewrite widens a list-typed schema exactly when it names null and a sibling keyword rejects
  null (`ListTypeExactlyWhen`; `{"type": ["string", "null"], "enum": ["a"]}` in `NullableEnumIsWidened`).
- Properties and definitions named `$schema` are dropped and those named `$defs` renamed: the rewritten
  document accepts exactly what the document accepts with these names dropped and renamed
  (`ClaudeSchemaLosses.ReservedNamesAreLost`); a map of names is kept exactly when it has neither
  (`NamesKeptExactlyWhen`).
- A list-typed root takes its definitions out of reach: a reference still resolves exactly when it is `#`
  or the root is not list-typed (`ReferenceResolvesExactlyWhen`).
- A configuration value cleared to null, or a key removed, comes back from the base
  (`ConfigOverride.ClearedValueComesBack`).
- A rename source that is also written by another entry survives exactly when it is written later
  (`WrittenSourceSurvivesExactlyWhen`).

## Model

| member | source | states |
|---|---|---|
| `LlmSlots.RunKeepsInv` | backend/src/codefixer/infrastructure/llm_slots.py:73-342 | Every run of calls keeps the queue invariant (distinct positions, a waiter ever granted stands before every queued one) and the lease invariant (leases and granted waiters correspond one to one with equal owners). |
| `LlmSlots.TryAcquireOutcome` | backend/src/codefixer/infrastructure/llm_slots.py:114-211 | `try_acquire` returns a lease exactly to a granted waiter or to the head of the queue while fewer leases than capacity remain, in the smallest free slot; the missing-lease and no-free-slot errors never occur. |
| `LlmSlots.Pigeonhole` | backend/src/codefixer/infrastructure/llm_slots.py:171-181 | Fewer leases than capacity always leave a slot below capacity free, also after the capacity was lowered. |
| `LlmSlots.NoOvertakingInAnyRun` | backend/src/codefixer/infrastructure/llm_slots.py:96-168 | In every reachable state every waiter ever granted has a smaller position than every queued one. |
| `LlmSlots.AheadNeverGrows` | backend/src/codefixer/infrastructure/llm_slots.py:96-168 | Over any run the set of queued waiters ahead of a given one only shrinks. |
| `LlmSlots.CapacityNeverExceeded` | backend/src/codefixer/infrastructure/llm_slots.py:158-205 | At a fixed capacity C there are at most C leases, all in slots below C. |
| `LlmSlots.LostLeaseFinishes` | backend/src/codefixer/infrastructure/llm_slots.py:253-326 | The step that takes a granted request's lease away finishes the request. |
| `LlmSlots.FinishedNeverLeasesAgain` | backend/src/codefixer/infrastructure/llm_slots.py:140-157 | No later run gives a finished request a lease again. |
| `LlmSlots.StaleHandleIsInert` | backend/src/codefixer/infrastructure/llm_slots.py:213-270 | After any run, heartbeat and release with a finished request's handle fail and change nothing. |
| `LlmSlots.LostHeartbeatUndoesItsReap` | backend/src/codefixer/infrastructure/llm_slots.py:213-251 | An expired lease and its granted waiter outlive any number of late heartbeats, each of which fails for that lease's handle; a reap would take it. |
| `LlmSlots.HandleTouchesOnlyItsOwn` | backend/src/codefixer/infrastructure/llm_slots.py:213-270 | Heartbeat and release never change another request's lease row. |
| `LlmSlots.ReapIsExact` | backend/src/codefixer/infrastructure/llm_slots.py:303-326 | A lease survives a reap, unchanged, exactly when it has not expired. |
| `LlmSlotLaws.ReleaseFrees` | backend/src/codefixer/infrastructure/llm_slots.py:253-270 | A release answers true exactly when the handle's row is there; then that row is gone, the request is released and has no lease, all other rows are unchanged and there is one lease fewer. |
| `LlmSlotLaws.FreedSlotGoesToTheHead` | backend/src/codefixer/infrastructure/llm_slots.py:114-270 | With all leases live and at capacity the head's poll gets nothing; after any one of them was released its next poll gets a lease. |
| `LlmSlotLaws.HeartbeatRenews` | backend/src/codefixer/infrastructure/llm_slots.py:213-251 | A heartbeat succeeds exactly for the live lease of its handle, and changes that row's times and version and nothing else. |
| `LlmSlotLaws.RenewedLeaseLives` | backend/src/codefixer/infrastructure/llm_slots.py:213-251 | The renewed lease survives exactly the reaps before `now + ttl`. |
| `LlmSlotLaws.EnqueueGoesLast` | backend/src/codefixer/infrastructure/llm_slots.py:73-112 | A first enqueue adds one queued row behind all others that lasts for its ttl; a repeated one changes nothing and tells the first position; another owner is refused. |
| `LlmSlotLaws.CancelEnds` | backend/src/codefixer/infrastructure/llm_slots.py:272-282 | Exactly a queued request of that owner is canceled, and has no lease. |
| `LlmSlotLaws.ReapOfWaiters` | backend/src/codefixer/infrastructure/llm_slots.py:303-326 | The reap expires exactly the waiters whose lease or place in the queue is due. |
| `LlmSlotLaws.AcquiredLease` | backend/src/codefixer/infrastructure/llm_slots.py:114-211 | A returned lease tells what its rows say; a new grant adds its own lease row and changes its own waiter only. |
| `LlmSlotLaws.AcquireRefused` | backend/src/codefixer/infrastructure/llm_slots.py:114-157 | When an acquire is refused, and with which error; nothing changes then. |
| `LlmSlotLaws.PollKeepsThePlace` | backend/src/codefixer/infrastructure/llm_slots.py:158-181 | A poll without a lease keeps its place in the queue exactly until `now + ttl`. |
| `LlmSlotStores.LlmSlotStore.Enqueue` | backend/src/codefixer/infrastructure/llm_slots.py:73-112 | Enqueueing computes the specified transition; asking again with the same id returns the first position. |
| `LlmSlotStores.LlmSlotStore.TryAcquire` | backend/src/codefixer/infrastructure/llm_slots.py:114-211 | The transaction with its rollback computes the specified transition and keeps the invariant. |
| `LlmSlotStores.LlmSlotStore.Heartbeat` | backend/src/codefixer/infrastructure/llm_slots.py:213-251 | A heartbeat renews exactly a live lease of its own; otherwise the whole transaction, reap included, is undone. |
| `LlmSlotStores.LlmSlotStore.Release` | backend/src/codefixer/infrastructure/llm_slots.py:253-270 | A release answers whether the handle's row was there; if so the row is gone, and the request has no lease and is finished. |
| `LlmSlotStores.LlmSlotStore.CancelWaiter` | backend/src/codefixer/infrastructure/llm_slots.py:272-282 | Only a queued waiter of the same owner is canceled. |
| `LlmSlotStores.LlmSlotStore.ReapExpired` | backend/src/codefixer/infrastructure/llm_slots.py:284-326 | The reported count is the number of waiters whose state the reap changed. |
| `LlmSlotStores.LlmSlotStore.Snapshot` | backend/src/codefixer/infrastructure/llm_slots.py:289-301 | The active count equals the number of granted waiters. |
| `LlmSlotStores.ReapByStatements` | backend/src/codefixer/infrastructure/llm_slots.py:303-326 | The four reap statements run in order amount to one pointwise expiry. |
| `LlmSlotStores.LeasesCountGrants` | backend/src/codefixer/infrastructure/llm_slots.py:183-205 | There are as many leases as granted waiters. |
| `GithubDeliveryProofs.ExactlyOnce` | backend/src/codefixer/adapters/delivery/github/delivery.py:104-321 | Over any attempts of any actions, crashed or failed anywhere, a source and target branch never have two pull requests; every settled row of a reachable state keeps its pull request and content and causes no further call; what is reported delivered is settled. |
| `GithubDeliveryProofs.BranchMovesExactlyWhen` | backend/src/codefixer/adapters/delivery/github/delivery.py:234-266 | An existing delivery branch changes its commit exactly when the lookup was unreadable and the push of a different commit fast-forwards. |
| `GithubDeliveryProofs.UnreadableLookupMovesTheBranch` | backend/src/codefixer/adapters/delivery/github/delivery.py:234-266 | A concrete attempt with an unreadable lookup moves an existing branch to another commit. |
| `GithubDeliveryProofs.RunKeepsBranches` | backend/src/codefixer/adapters/delivery/github/delivery.py:234-266 | With readable lookups no run ever changes or removes a delivery branch. |
| `GithubDeliveryProofs.PushIsRecordedAhead` | backend/src/codefixer/adapters/delivery/github/delivery.py:252-266 | However an attempt ends, a branch it put on the remote is already the row's `expectedCommit`. |
| `GithubDeliveryProofs.SmoothAttempt` | backend/src/codefixer/adapters/delivery/github/delivery.py:188-287 | A failure-free attempt delivers exactly the settled, adopted, free or claimed targets, and issues exactly the stated calls: a claimed branch is neither rebuilt nor pushed again. |
| `GithubDeliveryProofs.ClaimSurvivesExactlyWhen` | backend/src/codefixer/adapters/delivery/github/delivery.py:210-306 | The durable claim on a branch survives an attempt exactly unless a listing or lookup error is caught and recorded. |
| `GithubDeliveryStuck.StuckThroughoutExactlyWhen` | backend/src/codefixer/adapters/delivery/github/delivery.py:234-266 | Over any attempts of any actions, a target whose branch has no pull request and no row claims it stays so throughout exactly unless an attempt unblocks it: an unreadable lookup, and a push of the commit already there or of one the remote takes as a fast-forward and a row of the target expects. |
| `GithubDeliveryStuck.RefusedForGood` | backend/src/codefixer/adapters/delivery/github/delivery.py:234-243 | As long as no attempt unblocks such a target, every one that reports on it reports it as failed. |
| `GithubDeliveryStuck.ReadableNeverUnblocks` | backend/src/codefixer/adapters/delivery/github/delivery.py:234-243 | Attempts with readable lookups never unblock a target. |
| `GithubDeliveryProofs.ListingFailureLosesTheBranch` | backend/src/codefixer/adapters/delivery/github/delivery.py:288-306 | A crash after the push followed by a failing listing loses the branch. |
| `GithubDeliveryRuns.EverythingDeliveredExactlyWhen` | backend/src/codefixer/adapters/delivery/github/delivery.py:104-321 | After any history of attempts a failure-free attempt reports no failure exactly when each target has a pull request, finds its branch free, or its row expects the commit it will find there. |
| `GithubDeliveryRuns.AllDeliveredExactlyWhen` | backend/src/codefixer/adapters/delivery/github/delivery.py:104-321 | After attempts on its targets that only crashed, and with no commit built for two targets, that is: exactly when different targets have different branch names. |
| `GithubDeliveryRuns.SharedCommitSharesBranch` | backend/src/codefixer/adapters/delivery/github/delivery.py:234-266 | Two targets with one branch name and the same built commit can both be delivered. |
| `GithubDeliveryRuns.AllDeliveredWithProgramNames` | backend/src/codefixer/adapters/delivery/github/delivery.py:189-192 | With the program's names that is: exactly when no two different targets are sanitized to the same name. |
| `GithubDeliveryStuck.SharedBranchNameLosesTarget` | backend/src/codefixer/adapters/delivery/github/delivery.py:189-243 | Of two targets with the same branch name the first is delivered, the second refused, and stays refused. |
| `GithubDeliveryStuck.ReleaseBranchIsLost` | backend/src/codefixer/adapters/delivery/github/delivery.py:189-243 | Under the program's names `release/1` is delivered and `release-1` refused for good, for every task and run. |
| `GithubDeliveryStuck.ChangedActionRefusesTheBranch` | backend/src/codefixer/adapters/delivery/github/delivery.py:123-133 | After a crash behind the push the same action would deliver the target; a changed action, with its own rows, is refused. |
| `BranchNames.ComponentIsSafe` | backend/src/codefixer/adapters/delivery/gitlab/materializer.py:10-12 | A sanitized part is not empty, has at most 80 characters and only letters, digits, dot, dash and underscore. |
| `BranchNames.RunsBecomeDashes` | backend/src/codefixer/adapters/delivery/gitlab/materializer.py:11 | Every maximal run of other characters becomes one dash. |
| `BranchNames.TrimmedIs` | backend/src/codefixer/adapters/delivery/gitlab/materializer.py:11 | Stripping takes dots and dashes off both ends, all of them, and nothing else. |
| `BranchNames.SafeComponentIs` | backend/src/codefixer/adapters/delivery/gitlab/materializer.py:12 | A part is cut at 80 characters, and an empty one is `target`. |
| `BranchNames.CleanNamesStay` | backend/src/codefixer/adapters/delivery/github/delivery.py:189-192 | Parts that need no sanitizing stand in the branch name as they are, task, run and target in this order. |
| `BranchNames.SameBranchExactlyWhen` | backend/src/codefixer/adapters/delivery/github/delivery.py:189-192 | Two targets of a run share a delivery branch exactly when their sanitized names coincide. |
| `BranchNames.CleanTargetsDiffer` | backend/src/codefixer/adapters/delivery/gitlab/materializer.py:10-12 | Different targets that need no sanitizing have different branches. |
| `BranchNames.SlashAndDashCollide` | backend/src/codefixer/adapters/delivery/gitlab/materializer.py:10-12 | A slash between name characters reads like a dash: such pairs of targets share their branch in every run. |
| `GithubDeliveryRuns.CrashesNeverBlockDelivery` | backend/src/codefixer/adapters/delivery/github/delivery.py:104-321 | After attempts that only crashed, the next failure-free attempt delivers every target, when the targets of these attempts have branches of their own. |
| `GithubDeliveryProofs.DeliveryCommitIsKept` | backend/src/codefixer/adapters/delivery/github/delivery.py:127-184 | A recorded delivery commit the clone still knows is used by every later attempt. |
| `GithubDeliveryCommits.AttemptBuildsFrom` | backend/src/codefixer/adapters/delivery/github/delivery.py:127-184 | Every target an attempt builds is built from one delivery commit: the remembered one as long as the clone knows it, else the one this attempt built; it makes no call for other actions. |
| `GithubDeliveryCommits.ReportedRow` | backend/src/codefixer/adapters/delivery/github/delivery.py:308-321 | A reporting attempt leaves the commit it used, never an empty one, and the outcome of its targets in the action row. |
| `GithubDeliveryCommits.OneDeliveryCommit` | backend/src/codefixer/adapters/delivery/github/delivery.py:127-321 | After any history, once an attempt of an action reported, all later attempts of it build from that attempt's commit while the clone knows it. |
| `GithubDeliveryCommits.RowsTellTheTruth` | backend/src/codefixer/adapters/delivery/github/delivery.py:188-306 | In every reachable state pull requests stand under their own branches, a row marked as pushed has its branch on the remote, and a row's columns fit its status. |
| `GithubDeliveryCommits.RowTellsTheEnd` | backend/src/codefixer/adapters/delivery/github/delivery.py:267-306 | A delivered target's row is succeeded with the reported url, an undelivered one's failed with the reported reason. |
| `GithubDeliveryCommits.AdoptedWasThere` | backend/src/codefixer/adapters/delivery/github/delivery.py:188-287 | A delivery is reported as adopted exactly when its pull request was there before. |
| `GithubDeliveryCommits.ReasonIsTold` | backend/src/codefixer/adapters/delivery/github/delivery.py:210-306 | The reported reason of a failure is the step that failed. |
| `GithubDeliveryCommits.ConfirmedPush` | backend/src/codefixer/adapters/delivery/github/delivery.py:252-266 | A confirmed push followed by a crash is in the row, marked as pushed, with its commit. |
| `GithubPrDeliveries.DeliveryStore.MarkTarget` | backend/src/codefixer/infrastructure/delivery_store.py:85-115 | An update overwrites status and outcome and keeps every other column it is not given. |
| `GithubPrDeliveries.DeliveryStore.EnsureTarget` | backend/src/codefixer/infrastructure/delivery_store.py:72-83 | The row is inserted only when the target has none. |
| `GithubPrDeliveries.GitHubPrDelivery.DeliverTarget` | backend/src/codefixer/adapters/delivery/github/delivery.py:188-306 | The imperative delivery of one target, with its handler, computes the specified outcome for every fate of its writes and calls. |
| `GithubPrDeliveries.GitHubPrDelivery.Deliver` | backend/src/codefixer/adapters/delivery/github/delivery.py:104-321 | The loop over the targets and the action row compute the specified attempt, keep the invariant and every settled target, build from one delivery commit, and a reporting attempt records it. |
| `BaselineCohortAgreement.RunKeepsCore` | backend/src/codefixer/infrastructure/baseline_cohorts.py:69-240 | Whatever the callers' clocks show, every run keeps the invariant (one outcome at most and the state shows it, one cohort per task, a leader in every cohort); outcomes are write-once. |
| `BaselineCohortWindows.RunKeepsTimed` | backend/src/codefixer/infrastructure/baseline_cohorts.py:69-240 | Under a clock that never steps back every run keeps the join windows apart, and closed cohorts stay closed. |
| `BaselineCohortAgreement.MembersAgree` | backend/src/codefixer/infrastructure/baseline_cohorts.py:131-208 | Two members that read a decided cohort at any two points of a run, with any clocks, read the same outcome, a revision or a failure but never both. |
| `BaselineCohortAgreement.OnlyLeaderDecides` | backend/src/codefixer/infrastructure/baseline_cohorts.py:142-208 | With any clocks only the leader's resolve or fail changes an outcome, and only an undecided one; no call removes a cohort. |
| `BaselineCohortAgreement.ResolveExactlyWhen` | backend/src/codefixer/infrastructure/baseline_cohorts.py:142-177 | A resolve is accepted exactly from the leader, for a revision that is not empty, on an unfailed cohort with no other revision; any other changes nothing. |
| `BaselineCohortLaws.ResolveStores` | backend/src/codefixer/infrastructure/baseline_cohorts.py:142-177 | An accepted resolve stores the stripped revision, keeps its first time, sets the state its clock asks for, changes no other row, and answers the leader's membership. |
| `BaselineCohortLaws.ResolveRefuses` | backend/src/codefixer/infrastructure/baseline_cohorts.py:142-164 | Why a resolve is refused, the first reason first. |
| `BaselineCohortLaws.FailStores` | backend/src/codefixer/infrastructure/baseline_cohorts.py:179-208 | A fail of the leader stores the given failure on an undecided cohort and keeps the failure of a failed one; anyone else, an unknown and a resolved cohort are refused. |
| `BaselineCohortLaws.AdvanceCloses` | backend/src/codefixer/infrastructure/baseline_cohorts.py:217-231 | Advancing closes exactly the open cohorts whose deadline has come, sealed with a revision and resolving without. |
| `BaselineCohortLaws.GetAnswers` | backend/src/codefixer/infrastructure/baseline_cohorts.py:131-140 | Reading answers exactly members, with their own stored row. |
| `BaselineCohortLaws.JoinAnswers` | backend/src/codefixer/infrastructure/baseline_cohorts.py:69-129 | A member is told its membership again; anyone else follows a youngest joinable cohort of the source, or starts one with this window when there is none. |
| `BaselineCohortLaws.JoinRefuses` | backend/src/codefixer/infrastructure/baseline_cohorts.py:69-129 | When a join is refused, and why. |
| `BaselineCohortWindows.WindowsInAnyRun` | backend/src/codefixer/infrastructure/baseline_cohorts.py:69-129 | One open cohort per source, disjoint join windows of cohorts that did not fail, one cohort per task, exactly one leader per cohort, followers joined inside the window. |
| `BaselineCohortAgreement.OneLeader` | backend/src/codefixer/infrastructure/baseline_cohorts.py:100-129 | A cohort has one leader row. |
| `BaselineCohortWindows.ReopensExactlyWhen` | backend/src/codefixer/infrastructure/baseline_cohorts.py:69-208 | A closed cohort is open after a call exactly when the call is an accepted resolve of it with a clock before the deadline. |
| `BaselineCohortWindows.OneOpenExactlyWhen` | backend/src/codefixer/infrastructure/baseline_cohorts.py:69-208 | From one open cohort per source a call, at any time, keeps it so exactly unless it reopens a cohort beside another open one of its source. |
| `BaselineCohortWindows.OneOpenInAnyRunExactlyWhen` | backend/src/codefixer/infrastructure/baseline_cohorts.py:69-208 | From empty tables and with any clocks, every source has at most one open cohort after every call exactly when no call collides. |
| `BaselineCohortWindows.WindowedInAnyRunExactlyWhen` | backend/src/codefixer/infrastructure/baseline_cohorts.py:69-208 | With any clocks, one open cohort per source, disjoint windows and no follower before its cohort hold after every call exactly when no call collides, starts an overlapping window, or joins before the creation. |
| `BaselineCohortWindows.BackwardClockGivesTwoOpen` | backend/src/codefixer/infrastructure/baseline_cohorts.py:142-177 | A concrete run with a clock stepping back that leaves two open cohorts of one source. |
| `BaselineCohortStores.BaselineCohortStore.JoinOrCreate` | backend/src/codefixer/infrastructure/baseline_cohorts.py:69-129 | Joining at any time computes the specified transition and keeps the invariant; the windows stay apart if the clock did not step back. |
| `BaselineCohortStores.BaselineCohortStore.Resolve` | backend/src/codefixer/infrastructure/baseline_cohorts.py:142-177 | Resolving at any time computes the specified transition, errors rolled back, and keeps the invariant. |
| `BaselineCohortStores.BaselineCohortStore.Fail` | backend/src/codefixer/infrastructure/baseline_cohorts.py:179-208 | Failing at any time computes the specified transition, errors rolled back, and keeps the invariant. |
| `BaselineCohortStores.BaselineCohortStore.GetForTask` | backend/src/codefixer/infrastructure/baseline_cohorts.py:131-140 | Reading at any time advances expired cohorts, returns the task's membership, and keeps the invariant. |
| `BaselineCohortCoordinators.BaselineCohortCoordinator.ResolveAsLeader` | backend/src/codefixer/application/services/baseline_cohorts.py:118-199 | When the leader's routine ends the cohort is decided, unless it still polls or the resolver raised the cancellation. While nobody else acts as the leader, an undecided cohort gets the resolver's stripped revision exactly when it is not blank and the lease was kept, the cancellation when canceled before the lease, and otherwise the failure that says why. |
| `BaselineCohortCoordinators.BaselineCohortCoordinator.ResolveHoldingLease` | backend/src/codefixer/application/services/baseline_cohorts.py:169-196 | A revision found on re-reading stays; an undecided cohort gets the revision or the failure of the resolver's answer. |
| `BaselineCohortCoordinators.BaselineCohortCoordinator.WaitForResolution` | backend/src/codefixer/application/services/baseline_cohorts.py:201-221 | What a waiting member returns is what the store holds for its cohort; a decided cohort is returned at the first turn that is not canceled. |
| `BaselineCohortCoordinators.BaselineCohortCoordinator.Resolve` | backend/src/codefixer/application/services/baseline_cohorts.py:89-105 | A routine is refused at joining, leaves the leader's part by an exception, is canceled, still waits, or returns its own cohort's stored outcome, with any clocks and calls of others; a task that leads an undecided cohort gets its own resolver's stripped revision, or the failure that says why not. |
| `BaselineCohortCoordinators.RoutinesAgree` | backend/src/codefixer/application/services/baseline_cohorts.py:89-105 | Two routines of one cohort that end with an outcome, at any two points of the store's history, return the same revision or the same failure. |
| `TaskLifecycleProofs.TaskAndRunAgree` | backend/src/codefixer/infrastructure/task_store.py:29-261 | With terminal calls only for runs whose task has no other active run, a task is queued or running exactly as its current run is, has a failure exactly when failed, a result when completed, and never two active runs. |
| `TaskLifecycleProofs.RunAgreesExactlyWhen` | backend/src/codefixer/infrastructure/task_store.py:29-261 | From any agreeing state and recovery included: tasks and runs agree after every call of a run exactly when every call is disciplined. |
| `TaskLifecycleProofs.TerminalCallAgreesExactlyWhen` | backend/src/codefixer/infrastructure/task_store.py:143-261 | A terminal call on any run keeps tasks and runs in step exactly when no other run of its task is active. |
| `TaskLifecycleProofs.UndisciplinedRunBreaksAgreement` | backend/src/codefixer/infrastructure/task_store.py:244-251 | A run from empty tables whose last call completes an old run again leaves its task completed with a queued current run. |
| `TaskHistory.StatusNamesItsCall` | backend/src/codefixer/infrastructure/task_store.py:29-261 | Over every run of calls from empty tables, a run's status was given by a call that gives just this status, and kept since. |
| `TaskHistory.TaskNamesItsCall` | backend/src/codefixer/infrastructure/task_store.py:29-261 | The same of a task's row: its status, result and failure are those of the call that wrote it last. |
| `TaskHistory.EndedRunsWereEnded` | backend/src/codefixer/infrastructure/task_store.py:244-261 | A run is completed only by a completing call, right after which its task is completed with that call's result; it is failed only by a failing call or by a recovery without frozen manifest. |
| `TaskOutcomes.CompleteStores` | backend/src/codefixer/infrastructure/task_store.py:244-251 | Completing makes run and task completed, with the result and without failure, and logs it. |
| `TaskOutcomes.FailStores` | backend/src/codefixer/infrastructure/task_store.py:253-261 | Failing makes run and task failed, with the failure and without result, and logs it. |
| `TaskOutcomes.CancelRunStores` | backend/src/codefixer/infrastructure/task_store.py:143-151 | Canceling a run makes run and task canceled, without result and failure, and logs it. |
| `TaskOutcomes.StartStores` | backend/src/codefixer/infrastructure/task_store.py:94-104 | Starting is for routed tasks that wait, failed or were canceled; it keeps an active run and queues one otherwise. |
| `TaskOutcomes.ClaimStores` | backend/src/codefixer/infrastructure/task_store.py:205-219 | A claimed run runs on the snapshot it has or on its ticket's current one. |
| `TaskOutcomes.RetryStores` | backend/src/codefixer/infrastructure/task_store.py:106-118 | Retrying queues the failed current run and its failed task again, without result and failure. |
| `TaskOutcomes.CancelTaskStores` | backend/src/codefixer/infrastructure/task_store.py:120-135 | A waiting or queued task is canceled with its current run, a running one is asked to cancel, any other refuses. |
| `TaskOutcomes.IngestStores` | backend/src/codefixer/infrastructure/task_store.py:29-79 | An ingest leaves the ticket's columns and content, and its task: new, or taking the ticket when content or route is new and it rests; failed with the failure, canceled when not eligible, queued with a run in automatic mode, waiting otherwise. |
| `TaskOutcomes.StagesStore` | backend/src/codefixer/infrastructure/task_store.py:233-242 | Stages are added running, and finished with status and failure, one at a time. |
| `TaskOutcomes.RecoveryLogs` | backend/src/codefixer/orchestration/recovery.py:23-60 | The recovery logs one event for every recovered run, saying what became of it. |
| `TaskTickets.RunKeepsTickets` | backend/src/codefixer/infrastructure/task_store.py:29-261 | Every run, disciplined or not, keeps the ticket invariant, loses no row, and never sets a run's snapshot twice. |
| `TaskTickets.RunSnapshotIsWriteOnce` | backend/src/codefixer/infrastructure/task_store.py:205-219 | A run keeps the snapshot it was first claimed with, with its content, across all later calls. |
| `TaskTickets.ClaimOutcome` | backend/src/codefixer/infrastructure/task_store.py:205-219 | In every reachable state a claim fails exactly for an unknown or not queued run; a snapshot is never missing. |
| `TaskTickets.OneRowEach` | backend/src/codefixer/infrastructure/task_store.py:31-61 | One record per external ticket, one snapshot per record and content, one task per record. |
| `TaskTickets.RepeatedIngestOnlyLogs` | backend/src/codefixer/infrastructure/task_store.py:29-79 | Repeating an ingest with the same arguments adds one event and changes nothing else. |
| `TaskRecovery.RecoveryHandlesEveryRun` | backend/src/codefixer/orchestration/recovery.py:14-60 | For any tables and any row order: recovery leaves no run running and no running stage below a recovered run, requeues exactly the frozen ones, gives their tasks the state of one of them, and touches no other run, stage or task. |
| `TaskRecovery.RowOrderDoesNotMatter` | backend/src/codefixer/orchestration/recovery.py:14-60 | When tasks and runs agree the row order of the query changes neither runs, stages nor tasks. |
| `TaskRecovery.RecoveryCounts` | backend/src/codefixer/orchestration/recovery.py:20-60 | The two counters of the recovery are the numbers of requeued and failed runs, together all interrupted ones. |
| `TaskRecovery.SecondRecoveryChangesNothing` | backend/src/codefixer/orchestration/recovery.py:14-60 | A second recovery changes nothing, whatever its query returns and whatever manifests exist by then. |
| `TaskStores.TaskStore.Ingest` | backend/src/codefixer/infrastructure/task_store.py:29-79 | The ingest statements with their rollback compute the specified transition and keep the ticket invariant and the agreement of tasks and runs. |
| `TaskStores.TaskStore.CreateRun` | backend/src/codefixer/infrastructure/task_store.py:84-92 | An active run is kept; otherwise one queued run becomes current. |
| `TaskStores.TaskStore.StartTask` | backend/src/codefixer/infrastructure/task_store.py:94-104 | Starting computes the specified transition, gives the task an active run and changes no other task or existing run; invariant and agreement are kept. |
| `TaskStores.TaskStore.RetryFrozenDelivery` | backend/src/codefixer/infrastructure/task_store.py:106-118 | Retrying queues exactly the failed run and its task again; invariant and agreement are kept. |
| `TaskStores.TaskStore.CancelTask` | backend/src/codefixer/infrastructure/task_store.py:120-135 | Canceling changes only the task and its current run, or only asks a running task to cancel; invariant and agreement are kept. |
| `TaskStores.TaskStore.ClaimRun` | backend/src/codefixer/infrastructure/task_store.py:205-219 | A claim succeeds exactly for a queued run and never reports a missing snapshot; invariant and agreement are kept. |
| `TaskStores.TaskStore.CompleteRun` | backend/src/codefixer/infrastructure/task_store.py:244-251 | Completing makes run and task completed with the result, changes nothing else and keeps the invariant; tasks and runs stay in step exactly when no other run of the task is active. |
| `TaskStores.TaskStore.FailRun` | backend/src/codefixer/infrastructure/task_store.py:253-261 | Failing makes run and task failed with the failure, changes nothing else and keeps the invariant; tasks and runs stay in step exactly when no other run of the task is active. |
| `TaskStores.TaskStore.CancelRun` | backend/src/codefixer/infrastructure/task_store.py:143-151 | Canceling a run makes run and task canceled, changes nothing else and keeps the invariant; tasks and runs stay in step exactly when no other run of the task is active. |
| `TaskStores.RecoveryService.RecoverInterruptedRuns` | backend/src/codefixer/orchestration/recovery.py:14-60 | On any tables the nested loops compute the recovery in the order of the query; the counters are the numbers of requeued and failed runs; invariant and agreement are kept. |
| `ClaudeSchemaProofs.TranslationKeepsMeaning` | backend/src/codefixer/adapters/agents/claude.py:16-44 | On the fragment the rewritten schema accepts exactly the values the original accepts, references included. |
| `ClaudeSchemaProofs.ListTypeExactlyWhen` | backend/src/codefixer/adapters/agents/claude.py:22-34 | A list-typed schema, the document itself or one inside it, keeps its accepted values exactly when null, if named, satisfies the siblings. |
| `ClaudeSchemaProofs.NullableEnumIsWidened` | backend/src/codefixer/adapters/agents/claude.py:22-34 | A string-or-null schema with an enum that lacks null rejects null, and its rewrite accepts it. |
| `ClaudeSchemaProofs.ListTypeWidens` | backend/src/codefixer/adapters/agents/claude.py:22-34 | The rewrite of a list-typed schema accepts the original's values and null when null is named, nothing else. |
| `ClaudeSchemaProofs.ReferenceMoves` | backend/src/codefixer/adapters/agents/claude.py:39-43 | A retargeted reference resolves in the rewritten root to the rewritten definition. |
| `ClaudeSchemaLosses.ReservedNamesAreLost` | backend/src/codefixer/adapters/agents/claude.py:36-44 | The rewrite of a document accepts exactly what the document accepts once properties and definitions named `$schema` are dropped and those named `$defs` are called `definitions`. |
| `ClaudeSchemaLosses.PurgedName` | backend/src/codefixer/adapters/agents/claude.py:36-44 | Which schema each name has in that document: none for `$schema` and `$defs`, that of `$defs` for `definitions`, its own for any other. |
| `ClaudeSchemaLosses.NamesKeptExactlyWhen` | backend/src/codefixer/adapters/agents/claude.py:36-44 | Every name of a map of schemas keeps its rewritten schema exactly when no name is `$schema` or `$defs`. |
| `ClaudeSchemaLosses.PropertyNamedSchemaIsDropped` | backend/src/codefixer/adapters/agents/claude.py:36-38 | For every schema of a property named `$schema`: the rewrite accepts every value, the original those whose `$schema` members satisfy it. |
| `ClaudeSchemaLosses.PropertyNamedDefsIsRenamed` | backend/src/codefixer/adapters/agents/claude.py:39-43 | For every schema of a property named `$defs`: the rewrite constrains the members named `definitions`, the original those named `$defs`. |
| `ClaudeSchemaLosses.PropertyNamedDefsIsLost` | backend/src/codefixer/adapters/agents/claude.py:39-43 | A concrete value that the original rejects for its `$defs` and the rewrite accepts. |
| `ClaudeSchemaLosses.PropertyNamedSchemaIsLost` | backend/src/codefixer/adapters/agents/claude.py:36-38 | A concrete value that the original rejects for its `$schema` and the rewrite accepts. |
| `ClaudeSchemaLosses.ReferenceResolvesExactlyWhen` | backend/src/codefixer/adapters/agents/claude.py:22-43 | A reference that resolves in a well formed document resolves after the rewrite, to the rewritten schema, exactly when it is `#` or the root is not list-typed. |
| `ClaudeSchemaLosses.ListTypedRootWithReference` | backend/src/codefixer/adapters/agents/claude.py:22-34 | A list-typed root that refers to a definition accepts null after the rewrite, if its types name it, and nothing else. |
| `ClaudeSchemaLosses.ListTypedRootLosesDefinitions` | backend/src/codefixer/adapters/agents/claude.py:22-34 | A concrete list-typed root whose original accepts a string and whose rewrite does not. |
| `ClaudeSchemaShape.OutputIsClean` | backend/src/codefixer/adapters/agents/claude.py:16-44 | For every input the output has no `$schema`, no `$defs`, no list-valued `type` and no reference into `$defs`. |
| `ClaudeSchemaShape.TranslateIsIdempotent` | backend/src/codefixer/adapters/agents/claude.py:16-44 | Translating twice is translating once, for every input. |
| `ClaudeSchemaShape.ReplaceTwice` | backend/src/codefixer/adapters/agents/claude.py:41-42 | Replacing the reference prefix never forms a new occurrence of it. |
| `ClaudeSchemaTranslator.ClaudeCompatibleSchema` | backend/src/codefixer/adapters/agents/claude.py:16-44 | The recursive procedure with its dictionary loops computes the rewrite. |
| `FrozenChange.ChangedPipeline.VerifyAndFreeze` | backend/src/codefixer/orchestration/pipeline.py:155-209 | A run reaches freeze, ends without a change or is canceled exactly under the stated conditions, and otherwise fails with the first check that fails; the frozen files are the candidate's. |
| `FrozenChange.DeltaDeterminesTree` | backend/src/codefixer/orchestration/pipeline.py:169-188 | Equal differences from the base mean equal trees. |
| `FrozenChange.FreezeChange` | backend/src/codefixer/application/services/freeze.py:32-52 | Freezing succeeds exactly when every path that is not deleted has a file, and records one entry and snapshot per path with the tree's content. |
| `FrozenChange.CandidateFreezes` | backend/src/codefixer/application/services/freeze.py:34-52 | A collected change always freezes, and the snapshots are exactly its new contents. |
| `FrozenChange.LastOperationCounts` | backend/src/codefixer/application/services/freeze.py:34-37 | The last entry for a path counts, and a path without one is modified. |
| `LocalizationApply.FinalAt` | backend/src/codefixer/application/services/localization_apply.py:135-158 | For any plan, the last entry touching a path decides it; untouched paths are unchanged. |
| `LocalizationApply.OrderDoesNotMatter` | backend/src/codefixer/application/services/localization_apply.py:135-158 | With distinct paths and rename sources outside the written ones, any order of entries gives the same tree. |
| `LocalizationApply.ApplyingTwiceIsOnce` | backend/src/codefixer/application/services/localization_apply.py:135-158 | Applying any plan again changes nothing more. |
| `LocalizationApply.WrittenSourceSurvivesExactlyWhen` | backend/src/codefixer/application/services/localization_apply.py:146-158 | A written path that is also a rename source survives exactly when it is written after the rename. |
| `LocalizationApply.FrozenChangeReproducesRepair` | backend/src/codefixer/application/services/localization_apply.py:99-159 | Applying the stored manifest, the frozen files and the patch that announces the renames to the tree a repair started from succeeds, unless the repair is empty, and leaves the repaired tree. |
| `LocalizationApply.RenamesReadBack` | backend/src/codefixer/application/services/localization_apply.py:104-115 | The rename lines, wherever they stand in the patch, give back its renames. |
| `LocalizationApply.JoinedReadsBack` | backend/src/codefixer/application/services/localization_apply.py:29-33 | The text form of a plain path reads back as the same path. |
| `LocalizationApply.UnsafePathsAreRefused` | backend/src/codefixer/application/services/localization_apply.py:29-33 | Paths that go up anywhere, absolute and empty ones are refused. |
| `LocalizationApply.SpellingDoesNotMatter` | backend/src/codefixer/application/services/localization_apply.py:29-33 | Single dots, empty segments and the kind of slash make no difference. |
| `LocalizationApply.AcceptedExactlyWhen` | backend/src/codefixer/application/services/localization_apply.py:116-134 | An entry is accepted exactly with a relative path, a known operation and, unless it deletes, its frozen file with the recorded hash. |
| `LocalizationApply.RefusalIs` | backend/src/codefixer/application/services/localization_apply.py:116-134 | Why an entry is refused, the first reason first. |
| `LocalizationApply.OperationsAre` | backend/src/codefixer/application/services/localization_apply.py:116-134 | The known operations; a missing one is a modification. |
| `LocalizationApply.RefusedEntryWritesNothing` | backend/src/codefixer/application/services/localization_apply.py:116-158 | One refused entry, and nothing is written. |
| `LocalizationApply.StrayRenameLines` | backend/src/codefixer/application/services/localization_apply.py:104-115 | A rename target without source is passed over, of two sources the later counts, a bad path refuses the patch. |
| `LocalizationApply.CountersAddUp` | backend/src/codefixer/application/services/localization_apply.py:135-158 | Every written entry counts as copied; files before and new ones are files afterwards and deleted ones. |
| `LocalizationApply.Localization.MakePlan` | backend/src/codefixer/application/services/localization_apply.py:116-134 | A plan is made exactly when every entry is valid, entry by entry. |
| `LocalizationApply.Localization.Carry` | backend/src/codefixer/application/services/localization_apply.py:135-158 | The writing loop computes the plan's outcome with both counters. |
| `LocalizationApply.Localization.Apply` | backend/src/codefixer/application/services/localization_apply.py:99-159 | An invalid entry or rename means that nothing is written; otherwise the plan is carried out. |
| `ConfigOverride.DeepDiff` | backend/src/codefixer/infrastructure/config_store.py:32-43 | The loop computes the recursive difference. |
| `ConfigOverride.DeepMerge` | backend/src/codefixer/config.py:71-78 | The loop computes the recursive merge. |
| `ConfigOverride.RoundTripExactlyWhen` | backend/src/codefixer/infrastructure/config_store.py:122-127 | Merging the stored override gives the configuration back exactly when it keeps all base keys and replaces no non-null base value by null, at every level of objects. |
| `ConfigOverride.OverrideIsStable` | backend/src/codefixer/infrastructure/config_store.py:122-127 | The loaded configuration has the same override again, for all inputs. |
| `ConfigOverride.ClearedValueComesBack` | backend/src/codefixer/infrastructure/config_store.py:32-43 | A cleared or removed value comes back as the base has it. |
| `ConfigOverride.OverrideWins` | backend/src/codefixer/config.py:71-78 | What any override sets at a path, null included, is what is loaded there. |
| `ConfigOverride.BaseStays` | backend/src/codefixer/config.py:71-78 | What an override leaves alone is loaded as the base has it. |
| `ConfigOverride.StoresOnlyChanges` | backend/src/codefixer/infrastructure/config_store.py:32-43 | An override stores what is new or changes and never the value the base has. |
| `ConfigOverride.ConfigStore.ReplaceEffective` | backend/src/codefixer/infrastructure/config_store.py:122-127 | Replacing stores the override; what is loaded is what was asked for exactly when it is expressible. |
| `IsoTimestamps.TextOrderIsTimeOrder` | backend/src/codefixer/infrastructure/baseline_cohorts.py:20-25 | The text order of UTC ISO timestamps, with or without fraction, is the order of the instants. |
| `IsoTimestamps.ParsedBack` | backend/src/codefixer/infrastructure/llm_slots.py:18-23 | Parsing a stored text gives the instant back. |
| `IsoTimestamps.TextForm` | backend/src/codefixer/infrastructure/llm_slots.py:18-23 | The separators, the zone and the two lengths of a stored text. |
| `IsoTimestamps.TextAndParsedTestsAgree` | backend/src/codefixer/infrastructure/baseline_cohorts.py:167-230 | The text tests of the queries and the parsed test of `resolve` agree, strict and non-strict. |
| `Routing.RouteTicket` | backend/src/codefixer/application/services/routing.py:101-173 | The loops with their flags compute the decision stated over the set of matching rules. |
| `Routing.VersionAccepted` | backend/src/codefixer/application/services/routing.py:67-87 | The loop accepts exactly when some selected version is the ticket's, by id when it has one. |
| `Routing.ConditionsMatch` | backend/src/codefixer/application/services/routing.py:123-125 | The first failing or unsupported condition decides. |
| `RoutingProofs.MatchedExactlyWhen` | backend/src/codefixer/application/services/routing.py:150-173 | A project is matched exactly when it alone reaches the highest priority and the ticket is not older than its intake. |
| `RoutingProofs.TooNewWinnerNeverFallsBack` | backend/src/codefixer/application/services/routing.py:166-172 | A ticket is ignored for its age exactly when the only winner is too new, whatever lower priorities match. |
| `RoutingProofs.AmbiguousExactlyWhen` | backend/src/codefixer/application/services/routing.py:150-165 | A ticket is ambiguous exactly when two projects reach the highest priority. |
| `RoutingProofs.OrderDoesNotMatter` | backend/src/codefixer/application/services/routing.py:101-173 | The decision does not depend on the order of projects or rules. |
| `RoutingLaws.OneRuleDecides` | backend/src/codefixer/application/services/routing.py:101-173 | The decision when one project with one rule is asked, in all its cases. |
| `RoutingLaws.OperatorsDecideAlike` | backend/src/codefixer/application/services/routing.py:35-50 | In any rule of any projects, `eq` decides like `in` of the one value, and `exists` like `neq` of null. |
| `RoutingLaws.NeqIsNotEq` | backend/src/codefixer/application/services/routing.py:42-45 | `neq` is met exactly where `eq` is not. |
| `RoutingLaws.EqMeetsWhatIsStored` | backend/src/codefixer/application/services/routing.py:26-43 | A payload that stores the value at a plain field meets `eq`, one that stores another does not, an absent field is null. |
| `RoutingLaws.PathsGoDown` | backend/src/codefixer/application/services/routing.py:26-32 | Asking a path below a field with an object is asking that object. |
| `RoutingLaws.InIsSomeEq` | backend/src/codefixer/application/services/routing.py:48-49 | `in` is met exactly when `eq` of one listed value is. |
| `RoutingLaws.ContainsFindsTheText` | backend/src/codefixer/application/services/routing.py:46-47 | `contains` is met exactly by texts that have the operand as a part. |
| `RoutingLaws.OtherOperatorsRaise` | backend/src/codefixer/application/services/routing.py:39-50 | Exactly operators of other names raise. |
| `RoutingLaws.VersionById` | backend/src/codefixer/application/services/routing.py:53-87 | A version known by an id is selected by that id alone. |
| `RoutingLaws.VersionByName` | backend/src/codefixer/application/services/routing.py:53-87 | A version known by name only is selected by that name. |
| `RoutingLaws.NoVersion` | backend/src/codefixer/application/services/routing.py:67-87 | A ticket without version is in no selected version and in all versions. |
| `HealthSchedule.DueExactlyWhen` | backend/src/codefixer/orchestration/scheduler.py:35-49 | A project is due exactly when a boundary of its three-hour grid lies after the last check and not after now. |
| `HealthSchedule.UncheckedIsDue` | backend/src/codefixer/orchestration/scheduler.py:35-49 | A project without stored check or of unknown age is always due. |
| `HealthSchedule.RefreshStores` | backend/src/codefixer/orchestration/scheduler.py:242-278 | A refresh stores the finish time of exactly the enabled due projects. |
| `HealthSchedule.NotDueMeansCovered` | backend/src/codefixer/orchestration/scheduler.py:35-49 | A project that is not due was checked since the latest boundary, or its first interval has not passed. |
| `HealthSchedule.TriggeredAtMostOncePerInterval` | backend/src/codefixer/orchestration/scheduler.py:242-278 | As long as each refresh names the project in one due entry at most, over any run the scheduler triggers at most one check per whole interval since its creation, never two in the same one. |
| `HealthSchedule.OneTriggerExactlyWhen` | backend/src/codefixer/orchestration/scheduler.py:246-257 | For any list, a refresh checks a project at most once exactly when at most one due entry names it. |
| `HealthSchedule.ListedTwiceIsTriggeredTwice` | backend/src/codefixer/orchestration/scheduler.py:246-257 | A due project that a list names twice is checked twice by one refresh. |
| `HealthSchedule.Scheduler.RefreshProjectHealth` | backend/src/codefixer/orchestration/scheduler.py:242-278 | The refresh works through exactly the list of due projects and updates exactly their check times. |

## Left out

- SQL locking and interleavings inside one call: each store call is one atomic step.
- Hashing is taken to be injective: patches, frozen files and ticket contents are compared by what is hashed; a task id stands for the text it is hashed from.
- `git`, `svn` and `gh` are contracts: a push without force, a truthful listing, a collected difference that determines the tree. Path quoting and line endings are not modelled.
- `updated_at`, `started_at`, `finished_at` and worker columns of task rows; events are a multiset without their payload details.
- Polling loops run over a finite script of turns; a routine may end as still waiting. The refresh lease of the workers is an answer of the environment, and its heartbeat thread is not modelled.
- `GithubDeliveryRuns.AllDeliveredExactlyWhen`: states the condition by the names alone, so it takes a commit to be built for one target only; `EverythingDeliveredExactlyWhen` is the statement without that premise.
- All actions of a run deliver to one remote.
- `BaselineCohortWindows.WindowsInAnyRun`: for clocks that never step back; `WindowedInAnyRunExactlyWhen` says exactly what else is needed.
- `HealthSchedule.TriggeredAtMostOncePerInterval`: for lists in which one due entry at most names the project, as `OneTriggerExactlyWhen` shows to be needed. Adding a project refuses a known id (config_store.py:138), but a stored configuration is not checked.
- `ClaudeSchemaProofs.TranslationKeepsMeaning`: covers type, enum, const, required, properties, additionalProperties, items, anyOf, allOf, not, local references and the length and range bounds; pattern, format, oneOf, if and uniqueItems count as annotations, and references name definitions without escapes.
- `LocalizationApply.FrozenChangeReproducesRepair`: for a patch that announces exactly the collected renames, and for path segments without a backslash, because the application reads a backslash as a separator; directories and symbolic links in place of files are not modelled.
- `ConfigOverride.RoundTripExactlyWhen`: up to Python's equality, under which True equals 1; validation and legacy field migration between storing and loading are not modelled.
- `Routing.RouteTicket`: with two projects of the same id the intake time of the first candidate decides, which the contract leaves open; a list or object as a version label is not modelled, and priorities are integers.
- `HealthSchedule.DueExactlyWhen`: divides exactly where the code divides floating point numbers.
- White space other than ASCII in `strip`.
- Ticket providers, agents, subprocesses, preflight checks, GitLab and SVN delivery, the HTTP API and the frontend: input and output without a protocol of their own.
- Aggregating delivery outcomes, delivery metadata texts, ETag checks and title similarity: they would only add easy members.
