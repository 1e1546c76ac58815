# A verified model of the moteur's concurrent core

This Dafny project models the parts of the repository where state is shared, updated step by step or
renamed, and proves what they keep over every input and every run.

**The DreamCoder drain** (`Backlog`, `FailureVerdict`, `Providers`, `UsageLedger`, `ProviderElection`,
`BudgetGuard`, `ReservationRace`, `DrainProtocol` and the modules of theorems `DrainProviders`,
`DrainQuota`, `DrainLifecycle`, `TaskLifecycle`, `DrainTermination`, `DrainProgress`, `DrainAccounts`, and
`DrainWitnesses` with the runs that go wrong). N workers share
one backlog table, the set `en_vol` of providers in flight and one usage ledger. A worker moves from one
await point to the next; an event is one such move, and the events of the workers interleave freely with
time, new tasks, interruptions by the window, crashes of a slot, the death of the process with its boot
recovery, and later drains. LLM outcomes, probes, rankings and balances are arbitrary inputs. The theorems
speak of every finite run.

**The Planner's pipeline** (`PlannerTaskIds`, `PlannerStages`, `PlannerPipeline`): ids are normalised,
ghost dependencies pruned, stages computed by a memoised recursion with a cycle guard, a verify task added.

**The execution registry** (`ExecutionRegistry`, `ExecutionRuns`, `LiveExecutions`): sessions, requests in
flight, the aggregate status and the error memory of the server.

**The ReAct loop** (`ToolCalls`, `ReactLoop`): the message log, de-duplication, the cap, unreadable
arguments, the local review.

**Smaller cores**: `AcceptanceContract`, `DbSerializer`, `TextChunks`, `Varint`. `Text`, `Arithmetic`,
`Sets` and `Wrappers` are shared.

Where the code is a loop over local variables or an object updated in place, the model is a method or a
class proved equal to a function on values, and the theorems are lemmas about that function. `dafny verify
dfyconfig.toml` checks the whole project.

## What the code does against its own documentation

- `normaliser_task_ids` announces unconditional uniqueness. New ids are unique if and only if raw ids are
  distinct and no slug equals another slug with a generated suffix (`NewIdsAreUniqueIff`; a, A, a_2 clash).
- `liberer_tache` is guarded by the status alone. When the window cuts a worker after its row was written
  (its `finally` still runs Git), the release can take the row from the worker that has reserved it since.
  A row stays with one worker in exactly the runs without such a release (`OneWorkerPerTaskIff`), and such
  runs exist (`LateInterruptionSteals`). After one, `update_task_status`, which writes by id alone, can
  reopen a completed row (`CompletedRowIsReopened`), lose a charge (`ChargeIsLost`), take a failed row up at
  once (`FailedRowIsTakenUpAtOnce`) or leave one open with its attempts spent (`SpentRowIsOpenAgain`); the
  `Iff` theorems of `TaskLifecycle` say exactly when.
- `_executer_tache_bornee` takes every TimeoutError for the end of the window, and a write that waits ten
  seconds for the file lock raises one: the slot then ends before the deadline (`LockTimeoutEndsTheSlot`).
- The cooldown does not hold for the paid tail of the cascade (`CascadeElectsCoolingIff`,
  `CoolingIsElectedIff`).
- The comment on `historique:aucun_candidat` says that history excluded every candidate. One exhausted
  quota is enough to take the other branch instead (`HistoryIsBlamedIff`), down to the paid tail
  (`QuotaSendsToThePaidTail`).
- A quota test that cannot read the ledger, or a limit left at zero, lets the provider through; the window
  bound then counts such calls apart (`DailyQuotaHolds`), and is exact without them (`DailyQuotaIsExact`,
  `UnreadQuotaIsPassed`).
- The reserved row handed to the worker still carries the status from before the reservation.
- The error memory is consumed by a stale purge that empties the registry (`PurgeMasksAnError`), and an
  execution that outlives the TTL, or whose registry is cleared, loses its exclusivity
  (`StartBreaksExclusivityIff`, `OldEndPopsTheNewEntry`, `ClearAdmitsASecond`).
- A clear during a request in flight shows a terminal status while something runs (`StatusTellsTheTruthIff`).
- The correction loop of the local review can end on a tool error and the update is still a success
  (`PendingErrorIsHiddenIff`, `HiddenError`).
- `stop` announces a clean end. One that comes before the first step of the worker
  empties nothing and answers nobody (`StopLeavesIff`, `UnbegunStopAnswersNobody`).
- `chunk_text` can index an empty chunk (`EmptyChunkIff`); the varint decoder accepts input cut in the middle
  (`CutInputLosesHighGroups`).

## Model

| member | source | states |
|---|---|---|
| `DrainProviders.EveryProviderHasOneHolder` | agents/dreamer_agent.py:3053-3117 | in every state of every run `en_vol` is exactly the set of providers held by workers, none held twice, through both election paths, interruptions, crashes and later drains; the lock is held by the one worker that is electing |
| `DrainProviders.ElectedIsFree` | agents/dreamer_agent.py:2797-2873 | an election never returns a provider in flight; a counted one was seen open, or was read blind; only the paid tail may be cooling down, even at the end of the election |
| `DrainProviders.ProvidersStayOk` | agents/dreamer_agent.py:3000-3180 | every event keeps the lock, `en_vol` and readings invariant |
| `DrainQuota.DailyQuotaHolds` | core/budget_guard.py:346-395 | in every run, from every ledger: no window of one day holds more recorded calls of a counted tier than its limit, or than it held at the start, calls elected while the ledger was unreadable or the limit unset apart |
| `DrainQuota.DailyQuotaIsExact` | core/budget_guard.py:346-395 | when every quota test of a tier is answered and its limit is positive: no window of one day ever holds more than the limit, unless it did at the start, and then it gets no further call |
| `DrainQuota.SightedCallHasRoom` | core/budget_guard.py:346-395 | in every run, from every ledger: a recorded call that was elected on sight leaves at most the limit, blind calls included, in every day that contains it |
| `DrainWitnesses.UnreadQuotaIsPassed` | core/budget_guard.py:389-394 | from every start where the day holds exactly the limit, one test without an answer leads to a day with one call more |
| `DrainQuota.RecordKeepsQuota` | agents/dreamer_agent.py:2008-2017 | the one record of a task has room in every window, although the quota was tested long before and under another lock |
| `DrainQuota.FreeingKeepsQuota` | agents/dreamer_agent.py:3115-3117 | giving a provider back cannot falsify what an election in progress has read |
| `DrainQuota.ElectionKeepsQuota` | agents/dreamer_agent.py:2836-2873 | the room seen under the lock becomes the room owed to the elected call |
| `UsageLedger.RecordKeepsWindows` | core/budget_guard.py:376-395 | a record whose election counted fewer than the limit keeps every one-day window within the limit or within what it held at the start, wherever its time falls after the election; a blind one does too, blind records apart |
| `UsageLedger.RecordHasRoom` | core/budget_guard.py:376-395 | such a record leaves at most the limit in every window that contains it |
| `UsageLedger.CountAfterIsTheNumber` | core/budget_guard.py:376-388 | the count of the specification is the number of calls of that provider dated after the moment |
| `UsageLedger.CountInIsTheNumber` | core/budget_guard.py:346-395 | and that of a window the number of those dated in the day that it closes |
| `UsageLedger.QueryIsTheLastDay` | core/budget_guard.py:374-388 | with no call dated in the future, what the query counts is the day that ends now |
| `DrainQuota.QuotaTestTells` | core/budget_guard.py:346-395 | the quota test of an election finds a tier exhausted exactly when it is answered, the limit is set and the calls of the last day reach it, and is blind otherwise |
| `DrainQuota.TallyTells` | core/budget_guard.py:489-530 | the cascade finds a tier left exactly when its calls of the last day are below its limit |
| `DrainQuota.CompletedIsRecorded` | agents/dreamer_agent.py:2008-2017 | in every run a completed task has its call in the ledger, dated after its election |
| `DrainLifecycle.OwnershipIsKeptIff` | core/backlog_db.py:501-535 | one step breaks the ownership of rows exactly when a worker that was cut after its row was written releases a row that another worker holds |
| `DrainLifecycle.OneWorkerPerTaskIff` | agents/dreamer_agent.py:3015-3113 | over a run: every row in work belongs to one worker and stores the attempts it was handed, at every moment, if and only if no such late release happens |
| `DrainWitnesses.LateInterruptionSteals` | agents/dreamer_agent.py:3107-3113 | from every start with one playable task, two workers and probed providers of the registry there is a run in which the late release takes the row from the worker that holds it |
| `DrainWitnesses.CompletedRowIsReopened` | core/backlog_db.py:436-498 | after such a theft a third worker can take a completed row up again: a run from every start with one playable task |
| `DrainWitnesses.ChargeIsLost` | core/backlog_db.py:436-498 | or two workers are charged for one row and a single attempt is counted |
| `DrainWitnesses.FailedRowIsTakenUpAtOnce` | core/backlog_db.py:436-498 | or a failed row is taken up in the second of its charge, long before its date |
| `DrainWitnesses.SpentRowIsOpenAgain` | core/backlog_db.py:501-535 | or a row abandoned after its last attempt is taken up again and given back: it ends pending and playable with three attempts counted |
| `DrainWitnesses.LockTimeoutEndsTheSlot` | agents/dreamer_agent.py:2786-2795 | from every start with one playable task: a write that waits too long for its lock ends the slot as if the window were over, long before the deadline, the row free again and the provider cooling down |
| `TaskLifecycle.AttemptsStayBoundedIff` | core/backlog_db.py:285-314 | over a run, row by row, crashes, boot recovery and later drains included: unless it is abandoned the row has at most two attempts counted, never more than three, and once charged is out of reach for a minute, at every moment, if and only if no worker takes it up or completes it when three attempts have closed it, or takes it up less than a minute after a charge |
| `TaskLifecycle.LifeIsKeptIff` | agents/dreamer_agent.py:1836-1868 | the same for one step, from any state in which it holds of that row, whatever the other rows are |
| `TaskLifecycle.ReservationIsLegitimate` | core/backlog_db.py:346-409 | under that condition on its own row a reservation takes a pending or failed row with attempts left, at least 60 s after its last charged failure |
| `TaskLifecycle.RetriesAreTheChargesIff` | agents/dreamer_agent.py:1319-1368 | over a run `retries` is the initial count plus one for each charged failure, at every moment, if and only if every charge finds the count its worker was handed; nothing else touches it |
| `TaskLifecycle.ChargeCountsIff` | agents/dreamer_agent.py:2396-2404 | in any state a charge counts exactly when the handed count is the stored one, and no other event changes the count |
| `TaskLifecycle.ClosedForeverIff` | core/backlog_db.py:436-498 | over a run completed and abandoned rows never change again, in any column, if and only if no worker writes into one, repetitions of its closing apart |
| `TaskLifecycle.ClosedRowChangesIff` | core/backlog_db.py:436-498 | in any state a closed row changes exactly when a worker writes into it by its id and does not repeat its closing |
| `TaskLifecycle.OnlyWritesChangeClosed` | core/backlog_db.py:436-580 | no statement that looks at the status, no recovery, release or reservation, changes a closed row |
| `TaskLifecycle.RepeatsChangeNothingIff` | core/backlog_db.py:436-498 | a write into a closed row changes nothing exactly when it is a second completion, a second closing for the same reason, or a last attempt charged twice for the same failure |
| `TaskLifecycle.FinalAndExactWithoutTheft` | core/backlog_db.py:501-535 | runs without a late theft meet both conditions: closed rows are final and the count is the charges |
| `TaskLifecycle.LifeWithoutTheft` | core/backlog_db.py:501-535 | and attempts are bounded and spaced in them |
| `TaskLifecycle.RowChanges` | core/backlog_db.py:436-580 | in any state, event by event: what a row becomes when it is reserved, given back, written by its id or recovered at boot; no other event touches it and no row disappears |
| `TaskLifecycle.NewRowsAreFresh` | core/backlog_db.py:210-250 | a row appears only by an insertion, pending, without attempts, with the columns given |
| `TaskLifecycle.FailedRowsWereCharged` | core/backlog_db.py:538-570 | over a run, thefts and boots included: a failed row has at least one attempt counted |
| `DrainTermination.DrainTerminates` | agents/dreamer_agent.py:3000-3180 | from every start and whatever the clock, late releases and rows with all attempts spent included: a drain of n workers over t tasks makes at most 3t + 26n iterations, three more per task added meanwhile |
| `DrainTermination.LateEventsOnlyLeave` | agents/dreamer_agent.py:3006-3008 | once the window is over, iterations made plus workers still in their loop never rises |
| `DrainTermination.BalanceMoves` | agents/dreamer_agent.py:3000-3180 | iterations made, plus attempts left on open tasks (one at least), plus room left to put tasks aside: while rows are owned no event raises the sum, an added task raises it by three |
| `DrainTermination.AsideIsKept` | agents/dreamer_agent.py:3065-3078 | a worker still in the loop has put fewer than 25 tasks aside and never holds one of them |
| `DrainProgress.NobodyIsStuck` | agents/dreamer_agent.py:3000-3180 | in every state of every run a worker that has not left can move, or waits for the lock of an election whose holder can |
| `DrainProgress.ElectionCanEnd` | agents/dreamer_agent.py:2832-2873 | whoever holds the lock can end its election, with two quota tests and one count at most |
| `DrainProgress.ReservesOrLeaves` | agents/dreamer_agent.py:3009-3020 | past the deadline test a worker reserves a row if one can be played and leaves if none can |
| `DrainProgress.TheClockDecides` | agents/dreamer_agent.py:3006-3008 | at the head of the loop a worker goes on exactly before the deadline |
| `DrainProgress.SlotStopsIff` | agents/dreamer_agent.py:3006-3153 | a slot stops exactly when the window is over, nothing is left, no provider is free, 25 tasks are set aside, the infrastructure is down, it was cut or it crashed; a task is set aside exactly when history or its provider is to blame |
| `DrainProgress.WhatAnElectionLeaves` | agents/dreamer_agent.py:3053-3078 | the provider elected enters `en_vol` and starts the task, a task without one carries the reason, the rotation is kept |
| `DrainProgress.LateCutIff` | agents/dreamer_agent.py:2775-2795 | a worker that has written its row is cut only past the deadline and a minute of work |
| `DrainProgress.WhatADrainKeeps` | agents/dreamer_agent.py:3000-3003 | a later drain keeps table, ledger, cooldowns and rotation; the death of the process forgets the last two |
| `DrainAccounts.EveryReservationIsAccounted` | agents/dreamer_agent.py:3107-3180 | reserved = processed + interrupted + unserved + crashed + in hand; processed = success + failed + abandoned + infrastructure + provider-unavailable results, each counter being the count of its entries |
| `DrainAccounts.ReportTellsTheOutcomes` | agents/dreamer_agent.py:3107-3180 | the report invents nothing: its entries of each kind, with what workers still have to report, are the outcomes of that kind decided so far, less those lost to a late cut or a crash |
| `DrainAccounts.OutcomeIsCarried` | agents/dreamer_agent.py:3119-3180 | an outcome is decided once, carried by its worker and entered as it was decided |
| `DrainProtocol.OnlyTheActorMoves` | agents/dreamer_agent.py:3000-3180 | an event of one worker changes no other worker's phase or set-aside list |
| `FailureVerdict.RetryDelay` | agents/dreamer_agent.py:1170-1184 | the delay before a retry is never under a minute |
| `FailureVerdict.BranchIsKeptIff` | agents/dreamer_agent.py:1253-1273 | a branch is kept exactly for refused work worth correcting whose verdict is `failed`, deleted exactly when it is `abandoned`, never kept for a task given back |
| `FailureVerdict.RowAfterCharge` | agents/dreamer_agent.py:2380-2404 | the row after a charged failure: one more attempt, a date exactly when it is retried, the branch of the attempt exactly when it is kept for that retry, nothing else changed |
| `DrainProviders.CoolingStartsIff` | agents/dreamer_agent.py:2320-2343 | a provider starts to cool down exactly when a failure is blamed on it, be its worker cut or lost before the row is written, and only time or the death of the process ends a cooldown |
| `DrainProviders.CoolingLasts` | core/budget_guard.py:151-182 | a blamed provider cools down for 1800 s from its failure |
| `DrainProviders.PaidTailWaitsForTheCascade` | agents/dreamer_agent.py:2813-2816 | without the probe Haiku is given out by the cascade alone |
| `ProviderElection.CascadeIsFit` | core/budget_guard.py:397-589 | what the cascade elects is free, answers the probe, has calls left if counted, and is not cooling down unless it is of the paid tail |
| `ProviderElection.CascadeElectsCoolingIff` | core/budget_guard.py:397-589 | the cascade elects a provider in cooldown exactly when no AJEAN host and no free cloud is left, the total cap is not reached, and the first of DeepSeek and Haiku that can pay its way is cooling down |
| `ProviderElection.CoolingIsElectedIff` | agents/dreamer_agent.py:2832-2873 | the election does so exactly when it goes as far as the cascade and the same holds there, or when the candidate that wins was marked after the candidates were looked at |
| `DrainProviders.CoolingIsElectedIff` | agents/dreamer_agent.py:2832-2873 | in every run of the drain the second case does not occur: an election gives out a provider that is cooling down at that moment exactly when it comes down to a paid tail that is |
| `DrainProviders.RestingStaysOk` | agents/dreamer_agent.py:3053-3117 | while an election is going on, whoever is cooling down and free was so when it began: only the holder of a provider marks it and none is given back under the lock |
| `ProviderElection.RotationIsFair` | core/budget_guard.py:553-557 | without a local host, over as many elections in a row as there are free clouds, each of them is elected once and only once, wherever the index stood |
| `ProviderElection.CascadeOrder` | core/budget_guard.py:397-589 | hosts first, then the clouds in turn, then DeepSeek before Haiku; the index moves only when a cloud is elected |
| `ProviderElection.FirstAjeanIsFirst` | core/budget_guard.py:397-480 | the host elected is the first of the list that is free, rested and answering |
| `ProviderElection.PoolIsInOrder` | core/budget_guard.py:481-552 | the clouds stand in the order of the candidate list |
| `ProviderElection.ElectionIsFit` | agents/dreamer_agent.py:2797-2873 | both paths of the election: not in flight, not a banned local model, quota open if counted, not cooling down unless of the paid tail, or a candidate marked since the election began |
| `ProviderElection.CandidateIff` | agents/dreamer_agent.py:2818-2849 | who is a candidate: in the base, free, rested, not exhausted, not one of the local models, and switched on if an AJEAN host |
| `ProviderElection.ElectionOrder` | agents/dreamer_agent.py:2851-2873 | under the probe the PC, then the Deck, then a host of the network, then the head of the ranking, then the cascade; without it the ranking at once |
| `ProviderElection.CascadeSparesTheExcluded` | agents/dreamer_agent.py:2871-2873 | the cascade gives back nobody set apart for its quota or excluded by history |
| `ProviderElection.HistoryIsBlamedIff` | agents/dreamer_agent.py:2864-2871 | `historique:aucun_candidat` is answered exactly when candidates exist, history excludes them all, no AJEAN host can be taken and no other provider was set apart for its quota |
| `ProviderElection.OneQuotaHidesTheBlame` | agents/dreamer_agent.py:2865-2873 | with every candidate excluded by history, one exhausted quota sends the task to the cascade, where the paid tail can play it |
| `ProviderElection.QuotaSendsToThePaidTail` | agents/dreamer_agent.py:2865-2873 | such an input: Cohere excluded, the quota of Gemini used up, Haiku elected |
| `BudgetGuard.Guard.MarkProviderFailed` | core/budget_guard.py:151-182 | marks one provider for thirty minutes and leaves every other cooldown as it was |
| `BudgetGuard.Guard.RecordUsage` | core/budget_guard.py:591-638 | the record counts in exactly the windows that contain its time |
| `BudgetGuard.Guard.QuotaExhausted` | core/budget_guard.py:346-395 | exhausted exactly when the tier is one of the two counted ones, its limit set, the ledger readable and the calls dated in the last 86400 s reach the limit; calls of past days never exhaust it |
| `BudgetGuard.Guard.GetAvailableProvider` | core/budget_guard.py:397-589 | the loops and the candidate list compute the cascade proved above; only the rotation index moves |
| `BudgetGuard.Guard.CountCalls` | core/budget_guard.py:376-388 | the number of rows of a provider dated after a moment |
| `Backlog.BacklogDb.AddTask` | core/backlog_db.py:210-282 | a known discovery key gives back its row and inserts nothing; otherwise one pending row with a new id |
| `Backlog.BacklogDb.NextTask` | core/backlog_db.py:285-314 | the row found is playable, not excluded and minimal by priority then age; none is found only if none exists |
| `Backlog.BacklogDb.ReserveNext` | core/backlog_db.py:346-409 | reserves the next row and only it; the row handed out is as it was before the reservation |
| `Backlog.BacklogDb.UpdateTaskStatus` | core/backlog_db.py:436-498 | writes the columns named in the patch, of that row only, and tells whether it exists |
| `Backlog.BacklogDb.Release` | core/backlog_db.py:501-535 | back to pending, branch forgotten, counters kept, and only from running |
| `Backlog.BacklogDb.RecoverOrphans` | core/backlog_db.py:538-580 | two UPDATE statements with their row counts, in columns: a running row with attempts counted ends failed and due now, one without ends pending with every other column kept, no other row changes |
| `Backlog.EligibleIff` | core/backlog_db.py:285-312 | the clause in columns: pending, or failed with fewer than three attempts, not excluded, and due |
| `Backlog.NextIsFirst` | core/backlog_db.py:311-312 | the row that is next has the smallest priority and is the oldest of those |
| `ReservationRace.GuardExcludes` | core/backlog_db.py:387-400 | with SELECT and UPDATE as separate steps and no lock, the guarded UPDATE alone never lets two workers hold one row |
| `ReservationRace.LockKeepsCountsFresh` | core/backlog_db.py:375-404 | with the write lock around both, the `retries` handed out is the stored one in every interleaving |
| `ReservationRace.StaleCountWithoutLock` | core/backlog_db.py:375-404 | without the lock a run exists that hands out a stale count, hands the row out before its delay and loses a charge |
| `PlannerStages.StagesAreBounded` | agents/planner.py:465-490 | on any plan, cycles included, the recursion ends; every stage is in 1..n+1 and every stage v >= 3 rests on a task at stage v-1 |
| `PlannerStages.CycleReachesTheBound` | agents/planner.py:472-473 | an n-cycle gives its first task the stage n+1: the bound is reached |
| `PlannerStages.StagesAreLongestChains` | agents/planner.py:465-490 | on an acyclic plan each task gets the length of its longest dependency chain |
| `PlannerStages.StagesIgnoreTheOrder` | agents/planner.py:488-490 | on an acyclic plan the stages do not depend on the order in which the tasks are visited |
| `PlannerStages.EdgesGoUpIffAcyclic` | agents/planner.py:465-490 | every dependency goes to a strictly lower stage exactly when the plan is acyclic |
| `PlannerStages.OneStageIsIndependent` | agents/planner.py:465-490 | tasks of one stage never reach one another |
| `PlannerStages.StagePass.GetStageId` | agents/planner.py:469-486 | the recursion on the shared memo computes the stage of the specification and extends the memo by what it visits |
| `PlannerStages.AssignStages` | agents/planner.py:488-490 | the loop writes to each step the stage of the specification |
| `PlannerStages.StageIdsAreTheMemo` | agents/planner.py:488-490 | the stage written for a step is the one the final memo holds, although later steps go on extending it |
| `PlannerTaskIds.SlugIsSlug` | agents/planner.py:143-149 | every slug is a non-empty text over a-z, 0-9 and _ |
| `PlannerTaskIds.SlugOfSlug` | agents/planner.py:143-149 | slugging is idempotent |
| `PlannerTaskIds.SlugSpells` | agents/planner.py:143-149 | letters, digits, spaces, hyphens and underscores are spelled one by one |
| `PlannerTaskIds.OthersVanish` | agents/planner.py:143-149 | every other character vanishes, and nothing left is `tache` |
| `PlannerTaskIds.SlugIgnoresBlanks` | agents/planner.py:143-149 | blanks around an id make no difference |
| `PlannerTaskIds.NewIdsAreUniqueIff` | agents/planner.py:151-178 | new ids are pairwise distinct if and only if raw ids are and no slug equals another slug with a generated suffix |
| `PlannerTaskIds.ClashFamily` | agents/planner.py:158-160 | steps whose slugs are b, b and b_2 always end as b, b_2, b_2 |
| `PlannerTaskIds.ClashExample` | agents/planner.py:158-160 | raw ids a, A, a_2 become a, a_2, a_2 |
| `PlannerTaskIds.RenamingIsIdempotentIff` | agents/planner.py:122-178 | renaming a renamed plan changes nothing, if and only if the first renaming made the ids distinct |
| `PlannerTaskIds.NormalizeTaskIds` | agents/planner.py:122-178 | the three loops compute the renamed plan of the specification and leave the input alone |
| `PlannerTaskIds.TheRestIsCopied` | agents/planner.py:122-178 | the pass renames ids and dependencies, one by one, and copies everything else |
| `PlannerTaskIds.Slugify` | agents/planner.py:143-149 | the passes strip, lower, two replacements and the filter, over any table of lower cases, give the slug of the specification |
| `PlannerTaskIds.PruneGhostDependencies` | agents/planner.py:84-119 | computes the pruned plan of the specification |
| `PlannerTaskIds.KeptMembers` | agents/planner.py:108-111 | pruning keeps a dependency exactly when it is declared and known |
| `PlannerPipeline.PrunedIsClosed` | agents/planner.py:103-119 | after pruning every dependency is a step of the plan |
| `PlannerPipeline.RenamingIsIsomorphism` | agents/planner.py:143-178 | when new ids are distinct and no unknown dependency slugs into a new id, renaming then pruning is an isomorphism of the raw dependency graph |
| `PlannerPipeline.RenamingIsIsomorphismIff` | agents/planner.py:143-178 | for distinct raw ids: an isomorphism if and only if no slug clashes with a generated suffix and no unknown dependency slugs into a new id |
| `PlannerPipeline.PreparingIsIdempotentIff` | agents/planner.py:84-178 | renaming then pruning a prepared plan changes nothing, if and only if the first renaming made the ids distinct |
| `PlannerPipeline.LongestChainRenamed` | agents/planner.py:143-178 | an isomorphism preserves longest chains |
| `PlannerPipeline.StageOfRawStep` | agents/planner.py:455-490 | end to end: the stage computed from the prepared plan is the longest chain of the raw step in the raw graph |
| `PlannerPipeline.PreparePlan` | agents/planner.py:455-490 | the three passes composed give the plan and the stages of the specification |
| `PlannerPipeline.InjectionExtendsThePlan` | agents/planner.py:511-540 | the injected verify task keeps every other stage, sits one stage above all, and its stage is again its longest chain |
| `PlannerPipeline.InjectedIff` | agents/planner.py:511-540 | a verification task is added exactly to a plan of several steps without one, one stage above the highest and depending on the whole last stage |
| `PlannerPipeline.InjectedStageIsRecomputed` | agents/planner.py:511-540 | on any plan, cycles included: computed again with the injected task, every stage comes out as it was and the injected one as it was set, above all |
| `ExecutionRegistry.AppState.BeginExecution` | core/app_state.py:427-463 | purges, then refuses a duplicate or a full registry, or registers the session |
| `ExecutionRegistry.AppState.EndExecution` | core/app_state.py:465-487 | removes the entry of the key and refreshes with the posed terminal status, or the caller's |
| `ExecutionRegistry.AppState.CleanupStaleEntries` | core/app_state.py:363-409 | removes exactly the entries proved older than the TTL and refreshes only if it removed one |
| `ExecutionRegistry.AppState.RefreshAggregate` | core/app_state.py:324-361 | the aggregate status, the message and the error memory after one refresh |
| `ExecutionRegistry.AppState.SetExecutionStatus` | core/app_state.py:489-499 | writes the status of one entry and refreshes |
| `ExecutionRegistry.AppState.BeginRequest` | core/app_state.py:501-516 | counts one more request in flight |
| `ExecutionRegistry.AppState.EndRequest` | core/app_state.py:518-527 | counts one less, never below zero, and refreshes |
| `ExecutionRegistry.AppState.ClearExecutions` | core/app_state.py:529-545 | empties the registry and the error memory and overwrites the status |
| `ExecutionRuns.PosedStatusWins` | core/app_state.py:465-487 | the only execution ends: a terminal status posed on its entry is shown whatever the caller passes, any other gives way to the caller's |
| `ExecutionRuns.EndInFields` | core/app_state.py:479-487 | an end removes one entry, keeps the objective, sets the engine state only if it was the last, and shows `running` if others go on |
| `ExecutionRuns.QuietEndIsIdle` | core/app_state.py:518-527 | when the last request ends and no error is remembered the system is idle without a message |
| `ExecutionRuns.PurgedIff` | core/app_state.py:377-409 | an entry is purged exactly when its start is known and further back than the TTL |
| `ExecutionRuns.TruthAfterStep` | core/app_state.py:324-361 | which operations restore `running` = something runs, whatever the state before, and which do not |
| `ExecutionRuns.StatusTellsTheTruthIff` | core/app_state.py:324-361 | in every state of every run the status is `running` exactly when something runs, if and only if no clear under requests in flight is followed by refusals alone |
| `ExecutionRuns.NoMaskedErrorIff` | core/app_state.py:337-361 | back to idle, the status is `error` exactly when some refresh of the busy period carried it and no purge to idle came after |
| `ExecutionRuns.NoMaskedErrorWithoutPurges` | core/app_state.py:337-361 | without such purges: exactly when any refresh of the period carried it, whatever successes followed |
| `ExecutionRuns.LastErrorMessageIsShown` | core/app_state.py:337-361 | when a busy period ends the message shown is that of the last event before the end that carried an error, if it has one and no purge wiped it, and otherwise that of the event that ends it |
| `ExecutionRuns.PurgeMasksAnError` | core/app_state.py:405-409 | a run in which the purge of a stuck execution consumes the error of another, and the period ends as a success |
| `ExecutionRuns.RegistryNeverOutgrowsTheCap` | core/app_state.py:446-447 | the registry never exceeds the cap, stuck executions, stops and purges included |
| `LiveExecutions.LiveExecutionsAreExclusive` | core/app_state.py:439-487 | if every execution ends within the TTL and nobody clears the registry: no session has two live executions, at most the cap are alive, the registry holds exactly their sessions |
| `LiveExecutions.StartBreaksExclusivityIff` | core/app_state.py:439-463 | whatever the registry has become, clears included: a start admits a second live execution of a session exactly when the first is alive, its entry is gone or stale, and the purge leaves a place |
| `LiveExecutions.ClearAdmitsASecond` | core/app_state.py:529-545 | start, clear, start: two live executions of one session, without anyone outliving the TTL |
| `LiveExecutions.OldEndPopsTheNewEntry` | core/app_state.py:479-487 | the run in which the old execution ends, takes the entry of the new one, and a third is admitted |
| `ToolCalls.TurnRunsTheChosen` | agents/executor.py:614-740 | a turn runs exactly the first twenty of the distinct readable calls, in order; broken off, a prefix of them |
| `ToolCalls.SetAsideAccounts` | agents/executor.py:656-736 | set aside = total - run = unreadable + repetitions of calls that ran + calls beyond the cap |
| `ToolCalls.UnreadableIsNew` | agents/executor.py:640-673 | a call with unreadable arguments never counts as a duplicate |
| `ToolCalls.SeenAreTheRuns` | agents/executor.py:674-697 | the cap counts the calls that ran and nothing else, however the turn ends |
| `ToolCalls.EveryCallIsAnswered` | agents/executor.py:679-734 | every call gets one tool message with its id, in order, whatever became of it |
| `ToolCalls.ReplyTells` | agents/executor.py:675-734 | the reply gives what the tool gave, or why the call did not run |
| `ToolCalls.SameCallIff` | agents/executor.py:640-673 | two calls are the same exactly when they name the same tool and their arguments denote the same value, or are the same unreadable text |
| `ToolCalls.LastCallDecidesTheError` | agents/executor.py:701-734 | the pending error is that of the last call that ran; the results are those of the calls that did not fail |
| `ToolCalls.ExecuteToolWithRetry` | agents/executor.py:807-868 | only retriable errors are tried again, and the caller gets what the last attempt gave |
| `ReactLoop.EveryRequestIsWellFormed` | agents/executor.py:589-603 | at every call of the model, correction loop included, each assistant message with calls is followed at once by its replies, ids in order, and there are at most two loops |
| `ReactLoop.LoopRunsFew` | agents/executor.py:589-740 | one loop runs at most 20 calls per turn |
| `ReactLoop.TurnRunsFew` | agents/executor.py:614-740 | one turn runs at most 20 calls through the protocol, and each is recorded as run |
| `ReactLoop.PendingErrorIsHiddenIff` | agents/executor.py:430-560 | the update is a success over a pending tool error exactly when the first loop ran a tool and left nothing to correct, its work was reviewed and rejected, and the last call that answered in the correction answered with an error |
| `ReactLoop.UpdatesIff` | agents/executor.py:403-560 | when each update is sent: no tool used, tool failed, rejected twice, success or crash, from the setting and from what the tools gave in the loop and in the correction |
| `ReactLoop.LoopGathers` | agents/executor.py:586-805 | a loop says that a tool was used exactly when one of its calls answered, and its results are the texts of those that did not fail, in order |
| `ReactLoop.LoopEndsWell` | agents/executor.py:586-805 | a loop asks the model once a turn; it ends on a text without calls, its answer, or on a call that raised, and otherwise uses up its turns without an answer |
| `ReactLoop.TextEndsIff` | agents/executor.py:754-805 | a text runs every call written in it and ends the loop exactly when none succeeded |
| `ReactLoop.HiddenError` | agents/executor.py:500-560 | such a conversation: a model and tools for which that happens, with any feedback and any second verdict |
| `ReactLoop.LoopLeaves` | agents/executor.py:586-805 | the error a loop hands on is the one its last answering call left, whichever path ran it |
| `ReactLoop.Executor.PlayCalls` | agents/executor.py:628-736 | the loop over the calls of one answer computes the turn of the specification |
| `ReactLoop.Executor.PlayBlocks` | agents/executor.py:754-799 | the loop over the JSON blocks of a text computes that of the specification |
| `ReactLoop.Executor.ExecuteReactLoop` | agents/executor.py:570-805 | the loop over the turns computes that of the specification |
| `ReactLoop.Executor.Invoke` | agents/executor.py:403-560 | the loop, its checks and the local review give the update of the specification |
| `AcceptanceContract.UnionKeepsEveryKeyOnce` | core/acceptance_contract.py:279-311 | every key of every contract is in the union exactly once |
| `AcceptanceContract.NoRequirementIsLost` | core/acceptance_contract.py:279-311 | every entry with a value in any contract is required by exactly one entry of the union, with the same lowered type, stripped value and expected pattern |
| `AcceptanceContract.SameKeyIff` | core/acceptance_contract.py:266-276 | the identity of a criterion is its type, value and expected pattern, not its wording |
| `AcceptanceContract.KeyInFields` | core/acceptance_contract.py:207-263 | what is read from an entry, and that it counts exactly when it has a value |
| `AcceptanceContract.EarliestWordingWins` | core/acceptance_contract.py:300-308 | the wording kept for a key is that of the first entry that states it |
| `AcceptanceContract.UnionContracts` | core/acceptance_contract.py:279-311 | the dictionary filled in order and the stable sort give the newest list's additions first |
| `AcceptanceContract.ContractsOnlyGetStricter` | core/acceptance_contract.py:279-311 | a criterion that fails in the union so far fails the verdict after any further contract |
| `AcceptanceContract.SatisfiedIff` | core/acceptance_contract.py:157-203 | satisfied exactly when one criterion not met in advance is true and none is false |
| `AcceptanceContract.MarkingNeverHelps` | core/acceptance_contract.py:480-498 | marking more criteria as met in advance never turns a refused contract into a satisfied one |
| `AcceptanceContract.VerifyContract` | core/acceptance_contract.py:501-546 | the loop reports one finding per criterion, in order, marked by the initial reading |
| `AcceptanceContract.NormalizedInOrder` | core/acceptance_contract.py:228-263 | criteria keep the order of their entries |
| `DbSerializer.FirstInFirstOut` | core/async_db_serializer.py:30-86 | in every run, stops and restarts included: functions start in submission order, outcome k goes to the future of the k-th function served unless its caller gave up, no other future gets one, and what is neither taken nor waiting was cancelled |
| `DbSerializer.CancelledIff` | core/async_db_serializer.py:49-86 | over a run a future is cancelled exactly when its caller gave up or a stop found its job waiting, before it had an answer; answers are final |
| `DbSerializer.LifetimeIsSequential` | core/async_db_serializer.py:59-76 | from any moment with nothing in flight to the next stop: what waited and what was submitted since runs one at a time, in order, none left out, each outcome to its own future |
| `DbSerializer.StopLeavesIff` | core/async_db_serializer.py:38-86 | a stop leaves a future without answer exactly when it had none and its function was in flight, or an earlier stop left it so (one a stop), or the worker had not taken its first step; the queue is emptied unless it had not |
| `DbSerializer.UnbegunStopAnswersNobody` | core/async_db_serializer.py:30-47 | submit, start, stop before the first step of the worker: the future goes on waiting, until a worker started later serves it |
| `DbSerializer.AsyncDbSerializer.Stop` | core/async_db_serializer.py:38-47 | the loop that empties the queue, run by a worker that has begun, computes the stop of the specification |
| `DbSerializer.AsyncDbSerializer.Start` | core/async_db_serializer.py:30-36 | creates a worker that has not begun, unless there is one |
| `DbSerializer.AsyncDbSerializer.Submit` | core/async_db_serializer.py:49-57 | queues a job with a fresh pending future |
| `DbSerializer.AsyncDbSerializer.TakeNext` | core/async_db_serializer.py:63-63 | takes the oldest job |
| `DbSerializer.AsyncDbSerializer.Answer` | core/async_db_serializer.py:69-74 | answers the future of the job in flight unless it was cancelled |
| `TextChunks.SplitThenJoin` | populate_embeddings.py:72-72 | splitting on paragraph breaks loses nothing and leaves no break in a part |
| `TextChunks.ShortParagraphsStayWhole` | populate_embeddings.py:77-111 | a paragraph no longer than a chunk lies whole in one chunk |
| `TextChunks.LongParagraphsAreCovered` | populate_embeddings.py:90-93 | every piece of a longer one of length at most overlap + 1, not cut at a blank, lies whole in one chunk |
| `TextChunks.ChunksAreBounded` | populate_embeddings.py:77-111 | no chunk exceeds size + overlap + 2 |
| `TextChunks.EmptyChunkIff` | populate_embeddings.py:94-99 | an empty chunk arises exactly when a paragraph of length over size - 2 and at most size comes first or after one longer than a chunk |
| `TextChunks.TextIsIndexed` | populate_embeddings.py:65-111 | the three guarantees for a whole text |
| `TextChunks.EveryChunkIsAPassage` | populate_embeddings.py:77-111 | every chunk is a passage of the paragraphs joined by breaks: nothing is invented |
| `TextChunks.ClosedChunksStay` | populate_embeddings.py:77-111 | chunks come in the order of the text |
| `TextChunks.OverlapIsHandedOn` | populate_embeddings.py:94-99 | a chunk closed for lack of room hands its last `overlap` characters on to the next |
| `TextChunks.LongParagraphMakesFew` | populate_embeddings.py:90-93 | a long paragraph makes at most one chunk for each step into it |
| `TextChunks.ChunkText` | populate_embeddings.py:65-111 | the loops compute the chunks of the specification |
| `Varint.OrIsPlus` | core/antigravity_helper.py:32-32 | bitwise or acts as `+` when the bits do not meet |
| `Varint.ByteMasks` | core/antigravity_helper.py:32-33 | the masks 0x7F and 0x80 give the group and the continuation bit of a byte |
| `Varint.RoundTrip` | core/antigravity_helper.py:24-37 | decoding the base-128 varint of any n, at any place and before any suffix, gives n and the index after it (Protocol Buffers documentation, Encoding, section Base 128 Varints) |
| `Varint.CutInputLosesHighGroups` | core/antigravity_helper.py:28-30 | input cut inside a varint is not refused: it decodes to n modulo a power of 128 |
| `Varint.DecodeProtobufVarint` | core/antigravity_helper.py:24-37 | the loop computes the decoding of the specification |

## Left out

- DrainProtocol.OnlyTheActorMoves: the worker's loop is a state machine on values, not a method, because
  its steps interleave with those of other workers; two lock sections in a row with nothing shared between
  them, as at the end of an interruption, are one event.
- DrainQuota.DailyQuotaHolds: does not model an INSERT or UPDATE still running in a thread when its task is
  cancelled, nor rows that other features record for the same tier; one drain at a time.
- TaskLifecycle.ClosedForeverIff: does not model the approval API, through which a person edits or deletes rows.
- DrainProtocol.Apply: no per-project lock, Git, tests, pull requests or reports: their outcome is part of
  the arbitrary end of a task. A missing depot or a branch that cannot be made ends like any charged failure.
- DrainProtocol.Enabled: one configuration (probe result, limits, AJEAN hosts, delay) serves a whole run, later
  drains included, although each drain reads its own.
- TaskLifecycle.AttemptsStayBoundedIff: verdict and row write are one event, so the minute counts from the
  verdict; Git commands and a push run between the two in the code. A worker cut or lost between them marks
  its provider at that moment.
- The counter `paused` of the report stays at zero: no verdict is `paused`.
- Costs, tokens, `project_id`, `result_summary` and the text kept in the log are not columns of the model.
- FailureVerdict.VerdictAfter: the signature lists are five flags of an opaque error, so that a quality
  refusal that quotes a signature is covered without a model of the text.
- ProviderElection.CascadeIsFit: HTTP probes, balances, caps in dollars and the ranking by Elo are inputs;
  the ranking is any order of the candidates it does not exclude.
- PlannerTaskIds.NormalizeTaskIds: an explicit null `depends_on` raises in the code before pruning; the model
  has lists only. Lower-casing is a table from characters to texts, exact for the characters that can end in a
  slug; the final sigma, whose lower case depends on its neighbours, never does.
- PlannerPipeline.InjectionExtendsThePlan: the tier normalisation that follows the injection is left out.
- ExecutionRegistry.AppState.BeginExecution: `check_duplicate`, which only reads the registry, and the SSE
  broadcast are left out, as is the history of the chat.
- LiveExecutions.LiveExecutionsAreExclusive: an execution ends once, by its own end, as its try/finally
  does; what a clear does to running executions is outside the hypothesis.
- ToolCalls.TurnRunsTheChosen: JSON is a partial function whose canonical texts can be decoded; arguments are
  text. The wording and the sanitising of tool messages are left out.
- ReactLoop.Executor.PlayBlocks: which blocks a text contains is an input, and parameter renaming for the two
  file tools is left out.
- AcceptanceContract.VerifyContract: file reads, commands and their allow-list are one arbitrary answer per
  key; the renumbering of initial states after a union, in core/review_loop.py, is left out.
- AcceptanceContract.UnionContracts: an entry that is itself a list is not modelled.
- DbSerializer.LifetimeIsSequential: ends with the stop; after one that interrupts a function, the thread of
  that function goes on beside the next worker. A worker that ends one function and takes the next without an
  await does so in two events, which only adds runs.
- TextChunks.ChunkText: requires 1 <= overlap < chunk_size, without which the loop of the code does not
  advance or its last slice keeps the whole buffer.
- SQLite, WAL, file locks and asyncio internals are atomicity; clocks are inputs that never go back.
- The retry back-off delays, providers, prompts, the user interfaces, authentication, billing and the thin
  stores of core/ would only add easy members.
