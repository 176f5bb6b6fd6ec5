# Verified model of a WBS project planner

A planner keeps projects in trees, tasks in trees inside them, dependencies between tasks, calendars and sign-ins. This
project states in Dafny what its hardest parts promise and proves it: what the completion forecast schedules, what every
sequence of requests keeps, what a deleted sign-in can no longer do, and how the outline is numbered.

Code that computes values is modelled by functions and lemmas. Code that works step by step on tables and fields is
modelled by classes and loops (`CompletionForecaster`, `LeafWork`, `SeatQueues`, `TaskBoard`, `SignInService`,
`WorkspaceStore`, `ProjectUseCases`, `TaskUseCases`, `ProjectTrees`, `TaskBranchSelection`, `ProjectScope`, `WbsCode`,
`TaskListView`, `DependencyUseCases`), each proved to compute a specification function; the theorems are about those
functions and hold for every input and every run.

- **Forecast.** `ForecastModel` and `ForecastSpec` say what one hand-out, one round, one day, many days and the whole
  forecast are. Dates are integers, hours are reals, and the rounding threshold is a parameter `eps >= 0`. The other
  `Forecast...` modules prove conservation of hours, order of dependencies, fairness, independence of input order, a
  closed form and the least fixpoint of finish floors. `ForecastHours`, `ForecastTurns`, `ForecastReasons` and
  `ForecastReadiness` say what comes of it in terms of what is entered for tasks, people and calendars.
- **Sign-in.** `SignInModel` is an authorization code flow (section 3.1 of OpenID Connect Core 1.0) with back-channel
  logout (section 2.6 of OpenID Connect Back-Channel Logout 1.0) and expiring tokens (section 4.1.4 of RFC 7519) as one
  state with a clock; `SignInSafety` proves what runs of it keep, `SignInReplays` what notices that come again can do, and
  `SignInOutcomes` exactly when each request goes through and what it leaves.
  `SignInService` is plumbing: each method is proved to be the protocol step it carries out, and only the reconciliation
  loop has a proof of its own.
- **Workspace.** `ParentLinks`, `ProjectTrees` and `ProjectCalendar` are the laws of parent links and layered calendars;
  `WorkspaceModel` is the state of projects, tasks, milestones and calendars with every request on it, for one viewer
  who sees everything; `WorkspaceSafety` and `WorkspaceDays` prove the invariants, `WorkspaceEffects` says table by table
  what each request changes, and when it is refused.
- **Outline.** `ProjectScope`, `WbsCode` and `TaskListView` are the browser's tree, numbers, rails and nested list;
  `WbsNumbers` reads every number off the rows.
- **Dependencies.** `DependencyUseCases` is the ring check and why it suffices.

Where comments and code of the repository differ, the model follows the code:

- The note on the delivery retention (src/application/use_cases/backchannel_logout_use_cases.py:26-27) says that after it
  a resent notice finds only sign-ins that have expired. The code then acts on a notice that is still valid again, also
  on sign-ins made since: `HarmlessExactly` says exactly which notices cannot, `LongLivedCanEnd` shows one that does.
- src/domain/services/project_calendar.py:4 says a project never has a day off and an extra workday on one day. Importing
  holidays can produce both: `StepKeepsApartExactly` says exactly when, `ImportCanClash` shows it. Layering then takes the
  day off, and so does the model.
- FS dependencies hold for the finishes of the day loop. Finishes are raised afterwards for FF and SF, so the returned
  dates can break FS; `FinishToStartExactly` says exactly when they do not, `FinishToStartCanFail` shows an input for
  which they do.
- A day is handed out in rounds because an SS successor may become ready on the day its predecessor starts
  (src/domain/services/completion_forecast.py:345). For just those kinds and lags that allow this, and for negative FS
  lags, the order of the seats can change the forecast: `OrderDoesNotMatter` and `SeatOrderCanMatter` draw the line.
- The rounds of raising finishes stop after one more than there are leaves. Around a ring of FF dependencies with a positive
  total lag they stop short of any solution (`FloorsAreMetExactly`), at dates that can depend on the order of the tasks:
  `ForecastIgnoresOrder` holds without such a ring, `RingOrderCanMatter` shows the difference with one.

## Model

| member | source | states |
|---|---|---|
| CompletionForecaster.CompletionForecaster.Forecast | src/domain/services/completion_forecast.py:201-242 | The whole forecast, run on mutable leaves and tables, yields a result for exactly the given tasks that satisfies `IsForecast`: leaves classified, blocked leaves taken out, the days run on the rest, finishes raised to their floors, parents spanning the open leaves below them. |
| CompletionForecaster.CompletionForecaster.RunDays | src/domain/services/completion_forecast.py:332-363 | The loop that stops as soon as nothing is open ends with the leaves that running every day up to the horizon would give: the early exit loses nothing. |
| CompletionForecaster.CompletionForecaster.RunOneDay | src/domain/services/completion_forecast.py:341-362 | A day of rounds leaves the leaves as the specified day does, and the running count of open leaves stays equal to the number of leaves without a finish. |
| CompletionForecaster.CompletionForecaster.RunPass | src/domain/services/completion_forecast.py:346-362 | One round visits the seats in turn, tells whether any handed hours out, and counts what it finished. |
| CompletionForecaster.CompletionForecaster.VisitSeat | src/domain/services/completion_forecast.py:349-362 | A seat with hours left serves its ready leaves once and reports exactly how many it finished; otherwise nothing changes. |
| CompletionForecaster.CompletionForecaster.IsSatisfied | src/domain/services/completion_forecast.py:409-420 | A dependency is satisfied on a day exactly if the day is not before the last finish plus one plus the lag (FS), or the first start plus the lag (SS); FF and SF never hold a start back. |
| CompletionForecaster.CompletionForecaster.NodeFinish | src/domain/services/completion_forecast.py:422-432 | The finish of a predecessor is known exactly when every leaf behind it has one, and is then the latest of them and yesterday. |
| CompletionForecaster.CompletionForecaster.NodeStart | src/domain/services/completion_forecast.py:434-443 | The start of a predecessor is known exactly when part of it has begun, and is then yesterday or the earliest start. |
| CompletionForecaster.CompletionForecaster.IsEligible | src/domain/services/completion_forecast.py:352-357 | Ready means: open, not served today, a day its calendar or its person works, planned start come, all dependencies satisfied. |
| CompletionForecaster.CompletionForecaster.BuildConstraints | src/domain/services/completion_forecast.py:270-284 | A dependency reaches exactly the leaves below its successor, and none if either end is unknown. |
| CompletionForecaster.CompletionForecaster.ClassifyAll | src/domain/services/completion_forecast.py:218-228 | Every childless task is either a leaf to forecast with its seat, remainder and calendar, or has the reason of the first rule that excludes it. |
| CompletionForecaster.CompletionForecaster.WaitForUnforecast | src/domain/services/completion_forecast.py:292-320 | The fixpoint removes exactly the leaves from which a chain of dependencies leads to an unforecast task, whatever the order of the table, and marks them waiting. |
| ForecastWaiting.MissingMeansFinished | src/domain/services/completion_forecast.py:422-428 | After that, a leaf missing behind anything a remaining leaf depends on is finished, so reading "missing" as "over" is right. |
| ForecastWaiting.NoBlockedLeafRemains | src/domain/services/completion_forecast.py:299-309 | When a round finds nothing to remove, no blocked leaf is left. |
| ForecastWaiting.HeldIsBlocked | src/domain/services/completion_forecast.py:299-309 | Whatever a round removes is blocked by a chain in the original table. |
| CompletionForecaster.CompletionForecaster.ApplyFinishFloors | src/domain/services/completion_forecast.py:445-466 | After the bounded rounds every finish is the date some chain of FF dependencies demands of it, and not before what any chain with fewer hops than there are leaves demands; all floors are met if and only if any finishes at or above the simulated ones meet them. |
| CompletionForecaster.CompletionForecaster.RaiseLeaf | src/domain/services/completion_forecast.py:451-464 | Raising a leaf whose predecessors cover all chains of fewer than n hops makes it cover those with one hop more, and raises nothing further than a chain demands; reporting no change means its floors are met. |
| ForecastChains.FloorsAreMetExactly | src/domain/services/completion_forecast.py:445-466 | The rounds meet all floors exactly if any finishes do, and that is exactly if no ring of FF dependencies has a positive total lag; the result then is the least solution. |
| ForecastChains.FinishIsLatestDemand | src/domain/services/completion_forecast.py:445-466 | Closed form of the raised finish: it is the latest of the simulated finishes and own floors at the far ends of all chains of FF dependencies, each plus the lags of its chain (no rising ring reached from the leaf). |
| ForecastChains.JustifiedIsBelow | src/domain/services/completion_forecast.py:461-464 | Raising overshoots no solution, whatever rings there are. |
| ForecastChains.ShortChain | src/domain/services/completion_forecast.py:449-449 | Without a rising ring every demand is made by a chain with fewer hops than there are leaves, which is why the number of rounds suffices. |
| ForecastChains.SolutionForbidsRisingRings | src/domain/services/completion_forecast.py:445-466 | If any finishes meet all floors, no ring of FF dependencies comes back later than it set out. |
| ForecastFloors.LeastSolutionIsUnique | src/domain/services/completion_forecast.py:445-466 | There is one least assignment at or above the simulated finishes that meets all floors. |
| CompletionForecaster.CompletionForecaster.Simulate | src/domain/services/completion_forecast.py:324-365 | Queues, days and floors together. |
| CompletionForecaster.CompletionForecaster.LeafOutcome | src/domain/services/completion_forecast.py:366-378 | A leaf without a finish is waiting exactly if it never started and a dependency would still hold it back the day after the horizon; otherwise it is beyond the horizon. |
| CompletionForecaster.CompletionForecaster.RollUp | src/domain/services/completion_forecast.py:470-493 | A parent is finished if closed or nothing open is below it, unforecast if an open leaf is, and otherwise spans from the earliest start to the latest finish of the open leaves. |
| LeafWork.Leaf.Work | src/domain/services/completion_forecast.py:496-507 | Working a leaf in place: hours used, start, remainder and finish as specified, with remainders within epsilon counted as nothing. |
| LeafWork.HandOutHours | src/domain/services/completion_forecast.py:381-395 | A hand-out serves shared leaves first and the others in queue order, on the leaves themselves. |
| SeatQueues.BuildQueues | src/domain/services/completion_forecast.py:332-336 | One queue per seat with a leaf, holding exactly its leaves, sorted by due date, priority, planned start and number. |
| TaskBoard.TaskProgressBoard.constructor | src/domain/services/task_progress_board.py:24-30 | The child lists hold exactly the known tasks that name another known task as parent. |
| TaskBoard.TaskProgressBoard.Descendants | src/domain/services/task_progress_board.py:64-75 | The stack walk yields each proper descendant exactly once, rings or not. |
| TaskBoard.TaskProgressBoard.LeafIds | src/domain/services/completion_forecast.py:286-290 | The leaf expansion yields exactly the childless tasks at or below a task, each once. |
| ForecastTheorems.LeafSetUnfolds | src/domain/services/completion_forecast.py:286-290 | The leaves below a parent are the leaves below its children, closed intermediate parents included. |
| ForecastLedger.RunKeepsLedger | src/domain/services/completion_forecast.py:340-363 | Every day of every run balances: hours given to a leaf are hours taken off it, only on days it may be worked on, once a day, within the hours of its seat. |
| ForecastLedger.HoursAreConserved | src/domain/services/completion_forecast.py:496-507 | Hours worked plus hours left are the initial remainder, exactly while open and up to one epsilon when finished; today <= start <= finish. |
| ForecastLedger.CapacityIsRespected | src/domain/services/completion_forecast.py:341-362 | Over any run the leaves of a seat never get more hours than its person has. |
| ForecastLedger.NoFinishBeforeCapacityCoversIt | src/domain/services/completion_forecast.py:340-363 | A seat has finished no more work than its cumulative hours cover, up to one epsilon a leaf. |
| ForecastLedger.NoLeafFinishesEarly | src/domain/services/completion_forecast.py:110-114 | No leaf finishes before the days on which it may be worked on hold enough hours for it. |
| ForecastLedger.DatesFollowHours | src/domain/services/completion_forecast.py:496-507 | A leaf starts on the first day that gives it hours, and its work is done on the day whose hours leave no more than epsilon. |
| ForecastHours.NoWorkOnClosedDays | src/domain/services/completion_forecast.py:103-114 | On a day without hours (daily hours, engagement, leave and fixed hours as entered), on a day off, and before its planned start, a task gets no hours, and neither starts nor finishes by its own work; nor does the returned forecast start it there. |
| ForecastHours.NoWorkOnLeave | src/domain/services/completion_forecast.py:103-108 | In particular on a day of full leave for which no hours are fixed. |
| ForecastHours.GivenWithinFreeHours | src/domain/services/completion_forecast.py:103-108 | Over any run the tasks of a seat get no more than the hours entered for the person come to: fixed hours, or daily hours less leave, times engagement, each clamped. |
| ForecastHours.FreeHoursAreUsed | src/domain/services/completion_forecast.py:341-362 | That bound is reached, up to one epsilon a day, as long as every day ends with work that could still be done. |
| ForecastOrdering.StartsAreReady | src/domain/services/completion_forecast.py:397-407 | Every start recorded in a run satisfied all dependencies and the planned start on that day, and still does. |
| ForecastOrdering.DependenciesHold | src/domain/services/completion_forecast.py:397-443 | A started leaf has every FS predecessor finished at least one day and the lag before, and some SS predecessor started at least the lag before, on its first and on every later day. |
| ForecastOrdering.RunGrows | src/domain/services/completion_forecast.py:340-363 | Days only add starts and finishes; none is ever changed by the day loop. |
| ForecastInvariants.SatisfiedIsMonotone | src/domain/services/completion_forecast.py:409-420 | A satisfied dependency stays satisfied on later days and as more leaves start and finish. |
| ForecastOrdering.RingNeverStarts | src/domain/services/completion_forecast.py:366-378 | No leaf of an FS ring, or FS-behind one, ever starts, however long the run. |
| ForecastOrdering.ChainIntoItselfIsRing | src/domain/services/completion_forecast.py:409-415 | A chain of FS waits that runs into itself is such a ring, including the leaves leading up to it. |
| ForecastTheorems.RingIsReportedWaiting | src/domain/services/completion_forecast.py:366-378 | Every leaf of such a ring is reported as waiting. |
| ForecastFairness.NoIdleCapacity | src/domain/services/completion_forecast.py:346-362 | When a day ends, each seat has spent its hours or every leaf it could work on has been served. |
| ForecastFairness.RoundsEndQuietly | src/domain/services/completion_forecast.py:346-362 | The rounds of a day end, in a round that hands nothing out. |
| ForecastModel.PassServes | src/domain/services/completion_forecast.py:346-362 | Every round that hands hours out serves a leaf for the first time that day, which is why the rounds end. |
| ForecastRuns.QueueIsHonoured | src/domain/services/completion_forecast.py:390-394 | On every visit of every round of every day of a forecast: an unshared leaf gets hours only if that visit finished every ready unshared leaf ahead of it in the queue. |
| ForecastRuns.SharesAreExact | src/domain/services/completion_forecast.py:380-389 | On every day of a forecast on which the seat has hours, its first visit gives each ready shared leaf exactly its scaled share or its remainder; the hours left never cut it short, however over-committed the percentages. |
| ForecastTurns.UrgencyIsHonoured | src/domain/services/completion_forecast.py:510-517 | In terms of the tasks: one without a percentage gets hours only if that same visit finishes every ready one that is due sooner, or as soon and of higher priority, or alike and planned sooner, or alike and made first. |
| ForecastTurns.SharesInFields | src/domain/services/completion_forecast.py:380-389 | In terms of the tasks: at the first visit of a day each ready task with a percentage gets that percentage of the hours; where the percentages claim more than the whole, its part in proportion to the claim; or what is left to do. |
| ForecastRuns.WorkIsOpenAtVisits | src/domain/services/completion_forecast.py:349-358 | Whenever a seat is visited, every open leaf has more than epsilon left to do. |
| ForecastRuns.DayEndsAfterRounds | src/domain/services/completion_forecast.py:340-363 | The visits spoken of are those of the forecast: each day ends after some number of such rounds. |
| ForecastInvariants.DayBalances | src/domain/services/completion_forecast.py:341-362 | Over all rounds of a day no leaf is served twice, none gets more than is left of it, and a shared leaf at most its percentage of the hours. |
| ForecastLocality.OneVisitSettlesTheDay | src/domain/services/completion_forecast.py:345-362 | A seat whose leaves wait for nothing that can change today is settled by its first visit; later rounds and other seats change nothing for it. |
| ForecastConfluence.SecondPassIsIdle | src/domain/services/completion_forecast.py:345-362 | If FS lags are at least 0 and SS lags at least 1, a second round never finds a ready leaf: the day is its first round. |
| ForecastConfluence.OrderDoesNotMatter | src/domain/services/completion_forecast.py:332-363 | Then no order of leaves or seats changes any start, finish or remainder on any day. |
| ForecastOrderExample.SeatOrderCanMatter | src/domain/services/completion_forecast.py:345-362 | The condition is exact: for every SS lag of 0 or less and every negative FS lag there is an input with two forecasts, for two orders of the same seats, that finish the same task today or not at all. |
| ForecastConfluence.QueueIsDetermined | src/domain/services/completion_forecast.py:510-517 | The order of a queue is total: who is in it determines it. |
| ForecastTheorems.ForecastIgnoresOrder | src/domain/services/completion_forecast.py:201-242 | The whole returned forecast is then a function of the tasks and dependencies as sets, as long as no ring of FF dependencies has a positive total lag. |
| ForecastRingExample.RingOrderCanMatter | src/domain/services/completion_forecast.py:445-466 | With such a ring it need not be: for every positive lag there is an input with two forecasts, for two orders of the same subtasks, in which the subtask raised last finishes that lag after the other; two subtasks that may not finish before their parent make the ring. |
| ForecastClosedForm.PlainQueueFollowsFormula | src/domain/services/completion_forecast.py:332-395 | For a seat with one calendar and no waits, shares or future starts (epsilon 0), the k-th leaf starts on the first day whose cumulative workable hours exceed the work ahead of it and finishes on the first day they reach the work up to it. |
| ForecastClosedForm.BacklogClosedForm | src/domain/services/completion_forecast.py:340-395 | After n days the first k leaves still need their work less the cumulative workable hours, never less than nothing. |
| ForecastTheorems.EveryTaskHasOneOutcome | src/domain/services/completion_forecast.py:216-242 | Every task has a result with either a finish, today <= start <= finish, or exactly one reason. |
| ForecastReasons.ReasonsInFields | src/domain/services/completion_forecast.py:246-268 | Every childless task is left out for the first of these that applies, and for no other: closed or nothing left, nothing known to be left, nobody assigned, nobody with time; otherwise it is forecast, waits or goes beyond the horizon. |
| ForecastReasons.PlanInFields | src/domain/services/completion_forecast.py:246-268 | The days start from what is entered as left, or else the estimate less the hours worked, for the assignee in the tree of the project; being done or having hours logged counts as begun. |
| ForecastReasons.LatenessInFields | src/domain/services/completion_forecast.py:520-523 | Every result tells by how many days the finish passes the due date of the task itself. |
| ForecastReasons.DatesWithinHorizon | src/domain/services/completion_forecast.py:197-199 | No leaf starts before today or after the horizon, nor is its work done then. |
| ForecastReasons.HorizonIsUsed | src/domain/services/completion_forecast.py:338-378 | Every day up to the horizon is gone through: a leaf of the plan is forecast exactly if one of them leaves no more than epsilon to do, and starts on the first that gives it hours. |
| ForecastReasons.HeldBackExactly | src/domain/services/completion_forecast.py:292-322 | A task that is not left out itself is held back exactly if dependencies lead from it, through such tasks, to one that is left out and not over; then it is reported as waiting. |
| ForecastReasons.ParentsInFields | src/domain/services/completion_forecast.py:470-493 | A task with subtasks is over if closed or nothing below is open, has no forecast if something open below has none, and otherwise goes from the earliest start to the latest finish of what is open below. |
| ForecastReadiness.AllMetInFields | src/domain/services/completion_forecast.py:397-443 | What holds a leaf back are exactly the dependencies between known tasks that bear on it: FS a day and the lag after all of the predecessor finished, SS the lag after some of it started, with yesterday for what was over or under way before. |
| ForecastReadiness.NothingWaitsWithoutReason | src/domain/services/completion_forecast.py:341-362 | When a day is over a seat has spent its hours, or each of its leaves has been served today or is finished, closed that day, or held back by a dependency. |
| ForecastReadiness.UnfinishedInFields | src/domain/services/completion_forecast.py:366-378 | An unfinished leaf waits exactly if it never started and a dependency would hold it back on the day after the horizon. |
| ForecastReadiness.FinishFloorsHold | src/domain/services/completion_forecast.py:445-466 | FF and SF dependencies hold between the returned dates, if no ring of FF dependencies comes back later than it set out. |
| ForecastReadiness.FinishesAreNeeded | src/domain/services/completion_forecast.py:445-466 | And no returned finish is later than needed: it is that of the work itself, or exactly where one of these dependencies puts it. |
| ForecastTheorems.PredecessorIsForecastOrFinished | src/domain/services/completion_forecast.py:292-320 | Every leaf behind a predecessor of a forecast leaf is itself forecast or finished. |
| ForecastTheorems.FinishToStartHolds | src/domain/services/completion_forecast.py:365-365 | In the returned dates FS holds for every predecessor leaf whose own finish rests on no FF or SF dependency. |
| ForecastTheorems.FinishToStartExactly | src/domain/services/completion_forecast.py:445-466 | For every predecessor leaf, floors and rings or not: on the dates of the day loop, no chain of FF dependencies (the last leg possibly SF) carries a date plus lags down to it that leaves too little room before the successor starts, if and only if the returned dates keep FS and no rising ring is reached from the predecessor; and a chain with fewer hops than there are leaves that leaves too little room breaks FS in any case. |
| ForecastChains.BoundedDemandsForbidRisingRings | src/domain/services/completion_forecast.py:445-466 | What bounds the dates that all chains demand of a leaf forbids rising rings above it: such a ring demands ever later dates. |
| ForecastExample.FinishToStartCanFail | src/domain/services/completion_forecast.py:445-466 | It fails otherwise: an input whose returned forecast has a predecessor finish on or after the start of its FS successor. |
| SignInSafety.StepFollows | src/application/use_cases/authentication_use_cases.py:67-107 | Every request, notice and job keeps the invariant: rows and ended rows account for every sign-in ever made, tokens name rows of their user and are bounded by them, trips continue sign-ins of their user. |
| SignInSafety.InvAtBeginning | src/application/use_cases/authentication_use_cases.py:249-332 | The invariant holds before anybody has signed in, which is where every legal run begins. |
| SignInSafety.RunKeeps | src/application/use_cases/authentication_use_cases.py:249-332 | The invariant holds after every legal run. |
| SignInSafety.EndedRowsLockOut | src/infrastructure/auth/jwt_session_tokens.py:77-110 | Once a row is gone since d, no token naming it, issued before or after, is accepted from d plus the access lifetime on, and the row never returns. |
| SignInSafety.RowsLeaveOnlyByEnding | src/infrastructure/repositories/refresh_session_repository.py:37-85 | A row leaves the store only by being deleted in that very step, whichever of logout, notice, reconciliation or expiry it is. |
| SignInSafety.NewTokensNameLiveRows | src/application/use_cases/authentication_use_cases.py:249-332 | A token is only issued for a row that is in the store, belongs to its user, and whose user is not deactivated. |
| SignInSafety.TokensNameRealRows | src/infrastructure/auth/jwt_session_tokens.py:39-69 | Every token ever issued names a row that existed and belonged to its user. |
| SignInSafety.StoppedUsersAreOut | src/application/use_cases/authentication_use_cases.py:79-91 | While a user is deactivated they get no token, and none of theirs is accepted from one access lifetime after the moment. |
| SignInSafety.TripsWorkOnce | src/infrastructure/repositories/login_transaction_repository.py:43-59 | After one return or decline, a trip yields no token however often and with whatever code it comes back. |
| SignInSafety.ReplayedNoticesEndNothing | src/application/use_cases/backchannel_logout_use_cases.py:58-66 | A jti that was acted on ends nothing when it comes again within the retention period, whatever happened in between. |
| SignInReplays.ReplayEndsExactly | src/application/use_cases/backchannel_logout_use_cases.py:55-79 | After any run, a notice ends a sign-in if and only if its token is in time, it is well formed and meant for that sign-in, and the last notice with its jti that was acted on is longer ago than the retention period. |
| SignInReplays.HarmlessExactly | src/application/use_cases/backchannel_logout_use_cases.py:24-27 | Once acted on, a notice is harmless for good if and only if its token runs out no later than its delivery is forgotten. |
| SignInReplays.LongLivedCanEnd | src/application/use_cases/backchannel_logout_use_cases.py:24-27 | Otherwise a run in which it comes again and ends a sign-in made after it was acted on, one that has not run out if sign-ins last at least as long as deliveries are remembered. |
| SignInSafety.LogoutEndsExactlyThisSignIn | src/application/use_cases/authentication_use_cases.py:97-107 | Signing out with an issued token ends exactly its sign-in, if the token is readable for continuation, and none otherwise. |
| SignInSafety.RenewalContinuesTheSameSignIn | src/application/use_cases/authentication_use_cases.py:263-332 | A renewal keeps the user it set out with, goes on under the same row while it exists, and makes a new one only when it is gone. |
| SignInOutcomes.TokensLastOneLifetime | src/infrastructure/auth/jwt_session_tokens.py:77-110 | Whatever token a login, a renewal or a re-issue gives out is accepted for exactly one access lifetime in whole seconds: until less than a second before its end, and not a microsecond after. |
| SignInOutcomes.LoginExactly | src/application/use_cases/authentication_use_cases.py:249-261 | A login succeeds exactly if its trip is open, the provider vouches for an admitted person, and that person is linked to, may be linked to, or becomes an active user; then that user has a new row, the expired ones are swept out, and nothing else changes but link, account and trip. A failed one only spends the trip. |
| SignInOutcomes.RenewalExactly | src/application/use_cases/authentication_use_cases.py:263-332 | A renewal succeeds exactly if its trip is open, the person is admitted, linked to an active user, and nobody else than the trip was made for; the row goes on with a new end and its old beginning, or the user gets a new one. |
| SignInOutcomes.ReissueExactly | src/application/use_cases/authentication_use_cases.py:79-91 | A re-issue succeeds exactly if the token has not run out, its row is there and the user active; it keeps user and row and changes no store. |
| SignInOutcomes.LogoutExactly | src/application/use_cases/authentication_use_cases.py:97-107 | Signing out ends exactly the row of the token, if it is that user's and the token can still be read. |
| SignInOutcomes.TripsAreOpenForTheirTime | src/application/use_cases/authentication_use_cases.py:206-241 | Over any run, a trip nobody has come back from is open for exactly its time and for its purpose, and carries what it was begun with. |
| SignInOutcomes.ReconcileExactly | src/application/use_cases/reconcile_federated_users.py:53-114 | A reconciliation ends the sign-ins of exactly those the provider has blocked or does not know, drops the links of exactly those it does not know, and does nothing if it claims, of two or more, to know nobody. |
| SignInSafety.ReconcilingTwiceIsReconcilingOnce | src/application/use_cases/reconcile_federated_users.py:53-103 | Running the reconciliation again with the same answers changes nothing. |
| SignInService.SessionAuthenticationUseCases.Authenticate | src/application/use_cases/authentication_use_cases.py:67-77 | A token authenticates its user exactly until its exp second, without asking any store. |
| SignInService.SessionAuthenticationUseCases.ReissueAccess | src/application/use_cases/authentication_use_cases.py:79-91 | Re-issue on the stores is the protocol step: same user, same row, only while the row and an active user are there. |
| SignInService.SessionAuthenticationUseCases.Revoke | src/application/use_cases/authentication_use_cases.py:97-107 | Logout on the stores is the protocol step. |
| SignInService.SsoLoginUseCases.Start | src/application/use_cases/authentication_use_cases.py:206-241 | Starting a trip drops expired trips and records this one. |
| SignInService.SsoLoginUseCases.RedeemTrip | src/application/use_cases/authentication_use_cases.py:292-306 | A return consumes its trip and goes on only if it was known, for this purpose, in time, exchanged and, for a login, allowed. |
| SignInService.SsoLoginUseCases.FinishLoginTrip | src/application/use_cases/authentication_use_cases.py:249-261 | Completing a login on the stores is the protocol step. |
| SignInService.SsoLoginUseCases.Continue | src/application/use_cases/authentication_use_cases.py:323-332 | Extends the sign-in that is there and is this user's, or begins a new one. |
| SignInService.SsoLoginUseCases.FinishRenewalTrip | src/application/use_cases/authentication_use_cases.py:263-290 | Completing a renewal on the stores is the protocol step. |
| SignInService.SsoLoginUseCases.DeclineSilentLogin | src/application/use_cases/authentication_use_cases.py:334-343 | A declined trip is spent; it was expected exactly if it was silent and in time. |
| SignInService.SsoLoginUseCases.DeclineRenewal | src/application/use_cases/authentication_use_cases.py:345-352 | A declined trip is spent; it was expected exactly if it was a renewal in time. |
| SignInService.SsoLoginUseCases.ResolveOrCreate | src/application/use_cases/authentication_use_cases.py:359-389 | The linked user, or the newcomer as the entry rules settle it. |
| SignInService.ReceiveBackchannelLogout.Execute | src/application/use_cases/backchannel_logout_use_cases.py:55-87 | A notice on the stores is the protocol step; an expired token or malformed claims write nothing, and the count is that of the rows that went. |
| SignInService.ReconcileFederatedUsers.Execute | src/application/use_cases/reconcile_federated_users.py:53-103 | The loop over people, in any order, equals the set-wise step: rows of blocked or unknown people go, links of unknown people go, and nothing if everyone of two or more is unknown; the numbers reported are those of the people asked about, of the users whose sign-ins went (each once, however many links they have) and of the links that went. |
| SignInService.Stores.DeleteForIdentity | src/infrastructure/repositories/refresh_session_repository.py:56-72 | Deletes the linked user's rows, only those of one provider sign-in if that is named. |
| SignInService.Stores.DeleteForIdpSession | src/infrastructure/repositories/refresh_session_repository.py:74-85 | Deletes the rows begun from one provider sign-in, among users linked at that provider. |
| SignInService.Stores.RecordDelivery | src/infrastructure/repositories/logout_delivery_repository.py:17-27 | Records a jti unless it is recorded already, and tells which. |
| ParentLinks.BelowIsSubtree | src/domain/services/project_tree.py:43-57 | Searching down from a project finds exactly the projects whose upward chain passes it, rings or not. |
| ParentLinks.MoveKeepsForest | src/domain/services/project_tree.py:59-63 | In a forest, moving a project leaves a forest exactly when the ring check lets it through. |
| ParentLinks.WouldCycleIsBelow | src/domain/services/project_tree.py:59-63 | The ring check agrees with membership in the subtree. |
| ParentLinks.ChainUnfolds | src/domain/services/project_tree.py:27-36 | In a forest the chain above a project is the project followed by the chain above its parent. |
| ParentLinks.ChainSplits | src/domain/services/project_tree.py:27-36 | What a move changes in the chain of a project below the moved one: only the part above it. |
| ProjectTrees.ProjectTree.ChainAbove | src/domain/services/project_tree.py:27-36 | The upward loop computes the chain and ends on rings. |
| ProjectTrees.ProjectTree.SubtreeIds | src/domain/services/project_tree.py:43-57 | The stack search computes the subtree. |
| ProjectTrees.ProjectTree.ChildrenOf | src/domain/services/project_tree.py:96-101 | Exactly the children, ordered by sort order and then number. |
| ProjectTrees.OrderIsUnique | src/domain/services/project_tree.py:96-101 | Sibling order is total: a list of children in order is unique. |
| ProjectTrees.ProjectTree.MakesRing | src/domain/services/project_tree.py:59-63 | The ring check. |
| ProjectTrees.ProjectTree.MilestoneReachable | src/domain/services/project_tree.py:103-111 | A milestone of a project reaches that project and those below it; one of none reaches all. |
| ProjectTrees.ReachesIsSubtree | src/domain/services/project_tree.py:103-111 | Reaching is being in the subtree of the milestone's project. |
| ProjectCalendar.LayerCalendarDays | src/domain/services/project_calendar.py:24-42 | The loop yields, in day order and split by kind, for each day the row of the nearest project that has one, a day off before an extra workday of the same project. |
| ProjectCalendar.OneMoreRow | src/domain/services/project_calendar.py:32-37 | A row takes over its day exactly if its project is nearer than that of the row that held it. |
| ProjectCalendar.LayersCompose | src/domain/services/project_calendar.py:24-42 | Layering a lineage is layering its nearer part over its farther part. |
| ProjectCalendar.LayeringIsEffective | src/domain/services/project_calendar.py:24-42 | The layered rows agree day by day with the rule of the nearest project. |
| ProjectCalendar.MovingToTopKeepsCalendars | src/application/use_cases/project_use_cases.py:136-140 | Taking a sub-project to the top with its calendar copied changes kind, name and workdays in force for no project and no day. |
| WorkspaceEffects.MovingUnderTakesOver | src/application/use_cases/project_use_cases.py:130-135 | A project that goes under another takes over the workdays of that tree; each day is decided by its own branch, or else as for the new parent; for all other projects nothing changes. |
| ProjectUseCases.ProjectUseCases.CopyTeamCalendar | src/application/use_cases/project_use_cases.py:177-194 | The copying loops produce the specified calendar: the old top's workdays and every inherited day the project does not decide itself. |
| ProjectUseCases.ProjectUseCases.MoveProject | src/application/use_cases/project_use_cases.py:116-159 | A move is refused or done as specified; when done the project has the given parent and stands at its position among its new siblings, both groups are numbered from 0, and all others keep their numbers. |
| ProjectUseCases.NumbersAfterMove | src/application/use_cases/project_use_cases.py:142-156 | A moved project has the number asked for among its new siblings, or the last; they have the other numbers from 0 in their old order, and those it left close up in theirs. |
| ProjectUseCases.ProjectUseCases.CreateProject | src/application/use_cases/project_use_cases.py:75-98 | Creating a project on the store is the specified step. |
| ProjectUseCases.ProjectUseCases.DeleteProject | src/application/use_cases/project_use_cases.py:161-170 | Deleting a project on the store is the specified step, refused while anything live is in it. |
| WorkspaceStore.Store.DetachUnreachableMilestones | src/application/use_cases/project_membership.py:99-114 | The loop takes off exactly the live milestones out of reach of their live tasks and returns those tasks. |
| WorkspaceStore.Store.SetSortOrders | src/infrastructure/repositories/project_repository.py:86-91 | The listed projects are numbered from 0 in that order, all others keep theirs. |
| WorkspaceStore.Store.CheckMilestone | src/application/use_cases/task_use_cases.py:316-325 | Why a milestone may not be put on a task, if so. |
| WorkspaceStore.Store.AddDaysOff | src/infrastructure/repositories/team_calendar_repository.py:60-70 | Entering rows one after the other under a project. |
| WorkspaceSafety.StepKeeps | src/application/use_cases/project_use_cases.py:75-170 | Every request on projects, tasks, milestones and calendars keeps: forests of projects and tasks, live tasks in their live parents' projects, live milestones in reach, workweeks only at the top. |
| WorkspaceSafety.EmptyIsSound | src/application/use_cases/project_use_cases.py:75-98 | They hold of the empty workspace, in which every run of requests can begin. |
| WorkspaceSafety.RunKeeps | src/application/use_cases/task_use_cases.py:125-285 | These hold after every run of requests. |
| WorkspaceEffects.ObeyedExactly | src/application/use_cases/task_use_cases.py:125-285 | A request is obeyed exactly when all it names is there and live, nothing would be knotted, no task would leave its live parent, no milestone would be put out of reach, and no branch be torn apart. |
| WorkspaceEffects.WhyRefused | src/application/use_cases/project_use_cases.py:116-170 | Which reason a refusal gives: a ring of projects, a project not empty, a ring of tasks or logged work, things that do not go together, or something missing. |
| WorkspaceEffects.ProjectsAfter | src/application/use_cases/project_use_cases.py:75-170 | Only creating, moving and deleting change the table of projects, each only the row it names, to the parent asked for. |
| WorkspaceEffects.MilestonesAfter | src/application/use_cases/milestone_use_cases.py:41-78 | A milestone is where it was made or last sent, or nowhere once its project is deleted; only the one deleted is marked. |
| WorkspaceEffects.TaskParentsAfter | src/application/use_cases/task_use_cases.py:165-223 | Tasks are never lost; only the one named is hung elsewhere or marked deleted. |
| WorkspaceEffects.TaskHomesAfter | src/application/use_cases/task_use_cases.py:125-285 | A new task is with its parent or where asked; a changed one goes to its live parent's project or where sent, with all below it; selected branches go to the target; all others stay. |
| WorkspaceEffects.TaskMilestonesAfter | src/application/use_cases/project_membership.py:99-114 | After any request every task has the milestone it had or was asked to have, unless that is live and out of reach in the new workspace: then none. |
| WorkspaceEffects.DaysAfter | src/application/use_cases/team_calendar_use_cases.py:100-145 | A request writes the day it names and no other; a project taken to the top gets what was in force for it on the days it said nothing about. |
| WorkspaceEffects.WorkweeksAfter | src/application/use_cases/team_calendar_use_cases.py:92-98 | Workweeks are chosen for the top of a tree, dropped by what is deleted or goes under another project, and copied to what comes to the top. |
| WorkspaceSafety.DetachingRepairs | src/application/use_cases/project_membership.py:99-114 | Detaching after a change restores reach and disturbs nothing else. |
| WorkspaceSafety.DetachingIsLeast | src/application/use_cases/project_membership.py:99-114 | It does nothing exactly when all live milestones are in reach, and doing it twice is doing it once. |
| WorkspaceSafety.RingsAreRefusedExactly | src/application/use_cases/project_use_cases.py:123-124 | A move is refused as a ring exactly when it would have knotted the projects. |
| WorkspaceSafety.TaskRingsAreRefusedExactly | src/application/use_cases/task_use_cases.py:194-199 | A live parent is refused exactly when it would have knotted the tasks. |
| WorkspaceSafety.TopMovesKeepCalendarsInEveryRun | src/application/use_cases/project_use_cases.py:136-140 | After any run, a move to the top keeps every calendar in force. |
| WorkspaceDays.StepKeepsApartExactly | src/application/use_cases/team_calendar_use_cases.py:94-145 | No request puts a day off and an extra workday of one project on one day, except an import of holidays, which does so if and only if it brings a day that is an extra workday of the project and off neither there nor above. |
| WorkspaceDays.RunKeepsApartExactly | src/application/use_cases/team_calendar_use_cases.py:94-145 | The two kinds stay apart throughout a run if and only if no import in it clashes like that. |
| WorkspaceDays.ImportCanClash | src/application/use_cases/team_calendar_use_cases.py:133-145 | It does happen: a run of three requests after which both are there and the day is off. |
| WorkspaceSafety.SelectionEndsInTarget | src/application/use_cases/task_use_cases.py:229-267 | After a move every selected task is in the target, whatever moved is in a selected branch, and parents and deletions are untouched. |
| WorkspaceSafety.DeletingLosesNothing | src/infrastructure/repositories/project_repository.py:93-122 | A deletion that goes through leaves every live task, live milestone and other project as it was. |
| WorkspaceSafety.UpdateTaskKeeps | src/application/use_cases/task_use_cases.py:165-223 | A task update keeps the invariant: the branch follows, the parent decides the project, unreachable milestones come off. |
| WorkspaceSafety.MoveProjectKeeps | src/application/use_cases/project_use_cases.py:116-159 | A project move keeps the invariant. |
| WorkspaceSafety.RootIsTop | src/domain/services/project_tree.py:38-41 | The root of a known project is a known top project. |
| TaskUseCases.TaskUseCases.CreateTask | src/application/use_cases/task_use_cases.py:125-163 | Creating a task on the store is the specified step, with each refusal. |
| TaskUseCases.TaskUseCases.UpdateTask | src/application/use_cases/task_use_cases.py:165-225 | Updating parent, project and milestone of a task on the store is the specified step, with each refusal. |
| TaskUseCases.TaskUseCases.HomeFor | src/application/use_cases/task_use_cases.py:269-285 | A live parent decides the project; a deleted one does not count. |
| TaskUseCases.TaskUseCases.MoveToProject | src/application/use_cases/task_use_cases.py:229-267 | The loop over branch roots equals the set-wise move, and reports exactly the live tasks of the moved branches and the tasks that lost a milestone. |
| TaskUseCases.MilestoneUseCases.UpdateMilestone | src/application/use_cases/milestone_use_cases.py:52-73 | Changing a milestone's project on the store is the specified step. |
| TaskBranchSelection.Of | src/domain/services/task_branch_selection.py:25-41 | Each selected task lands in exactly one of roots, followers and stranded, in order of selection. |
| TaskBranchSelection.HasSelectedAncestor | src/domain/services/task_branch_selection.py:43-55 | Whether some task on the way up is selected, ending on rings. |
| ProjectMovePlan.PlanProjectMove | frontend/src/projects/taskListView.ts:198-237 | The browser's plan uses the server's three kinds and counts exactly the unselected tasks in the branches. |
| ProjectMovePlan.PlanAsksForTheSameMove | frontend/src/projects/taskListView.ts:262-266 | Sending only the plan's roots is never refused as stranded, and does what the whole selection would if nothing was stranded. |
| ProjectScope.ToTree | frontend/src/projects/projectScope.ts:96-113 | The tree holds exactly the projects on no ring and below none, each once, siblings in order. |
| ProjectScope.ForestIsGrounded | frontend/src/projects/projectScope.ts:96-113 | The parent links the server keeps form a forest, and of a forest no project is left out of the tree. |
| ProjectScope.InTreeExactly | frontend/src/projects/projectScope.ts:96-113 | A project is in the tree exactly if its parents in the list lead to one without a listed parent. |
| ProjectScope.TreeStandsRight | frontend/src/projects/projectScope.ts:96-113 | Every node stands as deep as there are projects above it, over exactly the projects that name it, in sibling order. |
| ProjectScope.TreeBuilder.Build | frontend/src/projects/projectScope.ts:104-111 | The recursion places what hangs under a parent, each once, and nothing else. |
| WbsCode.WbsCodes | frontend/src/projects/wbsCode.ts:11-52 | The recursion fills the outline: top projects 1, 2, ...; below a node its direct tasks by number, then its sub-projects, numbered 1..n after it; nothing else has a number. |
| WbsCode.Numbering.Visit | frontend/src/projects/wbsCode.ts:29-41 | Numbering below a task or a project leaves every number right and every reached task complete. |
| WbsCode.Numbering.VisitProjects | frontend/src/projects/wbsCode.ts:42-49 | Numbering sibling projects in turn, after the direct tasks of their parent. |
| WbsCode.NumbersAreUnique | frontend/src/projects/wbsCode.ts:5-10 | No two projects or tasks have the same number. |
| WbsCode.PrefixIsAncestor | frontend/src/projects/wbsCode.ts:5-10 | One number properly begins another exactly when its node is an ancestor of the other in the combined tree. |
| WbsCode.OutlineIsUnique | frontend/src/projects/wbsCode.ts:5-10 | The outline is determined by the projects, their order and the tasks, not by how they are listed. |
| WbsCode.NumberedExactly | frontend/src/projects/wbsCode.ts:5-10 | A node has a number exactly if its way up ends at a top project. |
| WbsNumbers.SubtaskNumber | frontend/src/projects/wbsCode.ts:20-41 | A task whose parent is in its project has the parent's number and one more part: how many subtasks of the parent there come up to it by number. |
| WbsNumbers.DirectTaskNumber | frontend/src/projects/wbsCode.ts:20-41 | Any other task of a project has the project's number and its place among the direct tasks. |
| WbsNumbers.SubprojectNumber | frontend/src/projects/wbsCode.ts:42-49 | A project under a listed one has its number and a place counted on after all direct tasks. |
| WbsNumbers.TopProjectNumber | frontend/src/projects/wbsCode.ts:42-51 | Other projects have one part, their place among themselves by sort order. |
| WbsNumbers.TasksNumberedExactly | frontend/src/projects/wbsCode.ts:5-10 | A task is numbered exactly if its project is, and its parents within the project lead to a direct task. |
| WbsNumbers.ProjectsNumberedExactly | frontend/src/projects/wbsCode.ts:5-10 | A project is numbered exactly if its parents lead to the top of the list. |
| WbsNumbers.SiblingsByNumber | frontend/src/projects/wbsCode.ts:5-10 | Of two tasks under the same node the one made first has the smaller last part. |
| WbsNumbers.DirectTasksFirst | frontend/src/projects/wbsCode.ts:5-10 | Every direct task of a project comes before every sub-project. |
| WbsCode.TreeGuides | frontend/src/projects/wbsCode.ts:62-78 | The backward pass sets a rail, or an end, exactly as a later row of that level with no shallower row in between demands. |
| TaskListView.NestBySubtask | frontend/src/projects/taskListView.ts:146-167 | Every task is listed once, rings or not; a task whose parent is above it stands under it, one level deeper with nothing shallower between, siblings in list order; all others stand at the edge, first those without a listed parent in list order, then the first of each ring; without rings every child stands under its parent. |
| TaskListView.Nesting.Visit | frontend/src/projects/taskListView.ts:156-161 | A visit appends the branch of a task not listed yet and nothing for one that is. |
| DependencyUseCases.HasCycle | src/application/use_cases/dependency_use_cases.py:10-30 | Yes exactly when the new successor is the new predecessor or something it depends on. |
| DependencyUseCases.AddingKeepsAcyclic | src/application/use_cases/dependency_use_cases.py:49-64 | Adding to an acyclic set leaves an acyclic set exactly when the check lets it through. |
| DependencyUseCases.RunsStayAcyclic | src/application/use_cases/dependency_use_cases.py:49-70 | No sequence of adds and removes makes a task depend on itself. |
| DependencyUseCases.AcyclicMeansOrdered | src/application/use_cases/dependency_use_cases.py:10-30 | No task waits for itself exactly when all tasks can be put in an order with every predecessor first. |
| DependencyUseCases.RowIsLastSaved | src/application/use_cases/dependency_use_cases.py:49-70 | After any run of requests a stored pair has the kind and lag of the last obeyed request that saved it and was not followed by one that saved or removed it. |
| DependencyUseCases.ResavingIsAccepted | src/application/use_cases/dependency_use_cases.py:49-64 | Saving an existing dependency again is never refused as a ring. |
| DependencyUseCases.DependencyUseCases.AddDependency | src/application/use_cases/dependency_use_cases.py:49-64 | Refused for unknown ends exactly, as a ring exactly if one would arise; otherwise the pair has the given kind and lag. Every other pair stays. |
| DependencyUseCases.DependencyUseCases.RemoveDependency | src/application/use_cases/dependency_use_cases.py:66-70 | Refused only for an unknown successor; otherwise exactly the pair is gone. |

## Left out

- Floating point: hours are reals, and rounding to two decimals (entered remainders, figures) is not modelled.
- Dates are unbounded integers: running past the last representable date is not modelled.
- Milestone forecasts, figures, progress percentages, scores and the daily ledger: folds over results, easier members.
- `WorkSeat.hours_on`, which the forecast does not use.
- Python's sort is modelled by insertion into a sorted list.
- ForecastRuns.SharesAreExact: is for epsilon 0, and so is `SharesInFields`; with a positive epsilon a part of the hours no
  larger than it is not handed out, as in the source.
- ForecastReadiness.FinishFloorsHold: is for inputs without a ring of FF dependencies of positive total lag, and so is
  `FinishesAreNeeded`; with one no dates meet all floors (`FloorsAreMetExactly`).
- ForecastTheorems.FinishToStartExactly: where a ring of FF dependencies of positive total lag is reached from the
  predecessor, it says only when FS is broken for certain (a short chain leaves too little room). Whether FS is kept
  otherwise can depend on the order of the tasks, because the dates do (`RingOrderCanMatter`).
- ForecastTheorems.ForecastIgnoresOrder: is for inputs without a ring of FF dependencies of positive total lag. With one the
  order of the tasks can decide the dates (`RingOrderCanMatter`), so there it is false; that every such ring lets it is not
  claimed.
- A logout token is checked against the same moment at which its notice is acted on; the source reads the clock twice.
- JWT signing and parsing, discovery, keys, PKCE, nonces, cookies and redirects: claims are taken as verified and tokens
  as unforgeable; generated identifiers and trip states are taken as new.
- Requests are single steps: two requests interleaved in the database are not modelled.
- Profile updates on sign-in, and how an e-mail address and the provisioning policy settle a newcomer: the outcome
  (refused, linked, created) is an input.
- Machine readers, the roster client and its failures: an unavailable roster is no step.
- Membership, roles, assignees, categories and visibility across viewers: one viewer who sees and manages everything.
- Names, colours, codes and statuses of projects and tasks, and task fields outside parent, project and milestone.
- Archiving tasks (an archived task is still live for the tree) and the rule that a task with work logs is archived,
  which is an input of `DeleteTask`.
- The table of Japanese holidays: the imported days are an input.
- `delete_project` leaves gaps among the numbers of siblings, and `create_project` takes their count as the next number, so
  that siblings stand in a row from 0 is stated for moves only.
- Grouping the list by project (`groupTasksByProject`, `groupRows`), comparing and sorting rows, scopes and pickers.
- WBS numbers are sequences of numbers; joining them with dots is not modelled.
- Repositories, migrations, HTTP, routers, React components and translations: stores are in-memory tables with the
  contracts of the repositories.
