# A model of the scheduling and synchronization core, verified in Dafny

The program plans work: it computes the free time of a planning window from working hours
and busy time, places tasks in it greedily, lets the user keep the result as a versioned
schedule plan, writes the plan's sessions to an external calendar, and follows the changes
made there. This project models that core and proves what it promises.

`dafny verify dfyconfig.toml` checks everything.

## How it is laid out

| part | files |
|---|---|
| sorting, sums, orders on strings, intervals | `Prelude`, `Sorting`, `Orders`, `Intervals` |
| time zones and free time | `Zones`, `Availability`, `DaylightSaving`, `CalendarMapper` |
| the scheduler as functions, and its loops and mutable run proved equal to them | `Scheduler`, `SchedulerLoop` |
| the scheduler's theorems | `Subtraction`, `Placement`, `SlotChoice`, `SlotExamples`, `PlaceLoop`, `RunLoop`, `SchedulerTheorems`, `AcceptedChecks`, `WarningMeaning`, `SchedulerInvariance`, `DayCapExample` |
| previews: free time, reservations, scheduling, validation | `Preview`, `PreviewTheorems`, `PreviewMaximality` |
| external changes: policy, pull, process | `Policy`, `Sync`, `SyncService`, `SyncConvergence`, `SyncOrder`, `SyncInOrder`, `SyncStuck`, `SyncMissing`, `SyncEffects`, `SyncExamples`, `Consistency` |
| schedule plans: versions, confirmation, apply, backlog minutes | `Plans`, `PlanRuns`, `PlanKeys`, `PlanEffects`, `ApplyRuns`, `Outcomes`, `PlanService`, `BacklogMinutes`, `BacklogRoom`, `BacklogExamples` |
| backlog entries | `Backlog`, `BacklogService`, `BacklogRuns`, `BacklogEffects` |
| revalidation | `Revalidation`, `ConflictMeaning`, `StillFree` |

Each operation that changes records step by step exists twice: as a function on the records
(the specification) and as a method with the source's loops and assignments, whose contract
equates its outcome with the function and states what the operation keeps. The theorems are
lemmas about the functions, over all inputs, or over all runs of operations from a state.

Instants are whole microseconds on one absolute axis. A time zone is an offset function and a
function from wall-clock readings to instants; the daylight-saving theorems use a zone with one
transition of at most three hours. Sorting is Python's stable `sorted`.

## What turned out to need a condition

- **Time of day.** A session is booked in the time of day asked for exactly when some offer in it is
  not outweighed by one outside: a million points for the time of day, a hundred for a minute of
  session, one for a minute to spare before the deadline (a week at most), minus one for each minute
  left over too short to use (`SlotChoice.PreferredIff`). Up to nine thousand minutes it never is
  (`SlotChoice.ShortTasksGetTheirTime`). Every interval offers its longest legal session only, so a
  task that may be split can miss its time although a shorter session would be in it
  (`SlotExamples.SplittableCanMissItsTime`); and minutes do not come before time to spare
  (`SlotExamples.ShorterCanBeBooked`).
- **Synchronization, all processed.** From agreement, over any run, once every change of a mapping
  is processed the session agrees with the last snapshot exactly when the log re-created the event
  at each interval as often as it deleted it there (`SyncConvergence.ProcessedAgreesIff`). While the
  event never goes missing this always holds; a deleted event created again elsewhere breaks it
  (`SyncExamples.DeletionBreaksAgreement`), and only a further pull can mend that
  (`SyncStuck.OnlyPullsFree`).
- **Synchronization, order.** While the event never goes missing, session and snapshot agree as soon
  as every pending move is stale (`SyncConvergence.ProcessingConverges`); some orders lead to a state
  where moves are pending and all of them stale (`SyncExamples.SomeOrdersLeaveMovesPending`). From
  there no processing and no pull of another event frees a move or moves the session
  (`SyncStuck.OnlyPullsFree`); a further pull of the event can (`SyncExamples.APullCanFree`). Oldest
  first, all changes get processed exactly when every recorded move is of whole minutes
  (`SyncInOrder.PulledThenInOrder`); one that is not blocks the log although it is not stale
  (`SyncExamples.BrokenMinutesBlock`).
- **Missing events.** Once a pull has found no event, no move takes the session along until a pull
  finds it again or fails: a failed pull marks the mapping failed, and the session counts again
  (`SyncMissing.OutUntilBack`, `SyncExamples.FailedPullBringsBack`).
- **Daylight saving.** A resolved window always covers the wall-clock window; it is equal to it
  exactly when the window neither starts inside a repeated stretch nor ends in one
  (`DaylightSaving.WindowExactIff`).
- **Consistency checker.** It compares ids. Everything is separated, on time and present exactly
  when it finds no issue and sessions that share an id are ordered alike by order and by time
  (`Consistency.SeparatedIff`); unique ids are enough (`Consistency.NoIssuesIff`), and two sessions
  of one id that swap places pass (`Consistency.RepeatedIdsFool`).
- **Reserved minutes.** Confirming a plan that has no backlog entry asks for no minutes, an apply
  that begins takes back those of failed sessions, and an external move rewrites those of a session.
  Over any run, a task's reserved minutes stay within its duration exactly when there is room for all
  three (`BacklogRoom.FitsIffRoom`). Runs from an empty store exceed it by a retry
  (`BacklogExamples.RetryCanExceedDuration`) and by two confirmations alone
  (`BacklogExamples.UnlinkedCanExceedDuration`).
- **Day caps.** They are kept in every zone where a preferred window that lies ahead, with room for a
  session, starts on the same day; these are exactly the zones in which every session is placed on
  the day its interval starts (`Placement.KeepsDayIff`). A zone with one clock change is such a zone
  unless the clock skips a whole window of a day it touches, by enough to reach the next day
  (`Zones.OneTransitionKeepsDayIff`): changes of less than seven hours and the skip of a whole day do
  not. In a made-up zone whose clock jumps from ten in the morning to ten in the evening the cap is
  exceeded (`DayCapExample.DayCapCanBreak`).

## Where a document and the code differ

docs/architecture/domain-model.md:178-180 lists a unique task and version among the plan's
invariants. The code has only a unique group and version and a unique key
(app/schedule_plans/models.py:59-71): two groups of one task may both have a version 1. The model
follows the code.

## Model

| member | source | states |
|---|---|---|
| Sorting.SortIsSorted | app/scheduling/scheduler.py:63-66 | the sort used everywhere yields an ordered permutation |
| Sorting.SortIgnoresOrder | app/scheduling/scheduler.py:534-548 | sorting by a key that tells the elements apart forgets the order of the input |
| Intervals.CanonicalUnique | app/availability/calculator.py:94-103 | two ordered lists with strict gaps that cover the same instants are the same list |
| Zones.OneTransitionKeepsDay | app/scheduling/scheduler.py:332-358 | with clock changes of less than seven hours, a preferred window that lies ahead starts on the same day |
| Zones.OneTransitionKeepsDayIff | app/scheduling/scheduler.py:332-358 | exactly which zones with one clock change do: no window of a touched day is skipped whole by a jump that reaches the next day |
| Zones.SkippedDayKeepsDay | app/scheduling/scheduler.py:332-358 | a zone that skips one whole day does |
| DayCapExample.DayCapCanBreak | app/scheduling/scheduler.py:281-292 | a zone and a schedule in which a day gets more sessions than its cap and those accepted |
| Availability.ValidLocalCandidates | app/availability/calculator.py:70-78 | the instants among the two folds at which the clock shows the reading, in order |
| Availability.ResolveLocal | app/availability/calculator.py:54-67 | the wall clock or the first later minute within the bound that exists; first reading for a start, last for an end |
| Availability.WorkingIntervals | app/availability/calculator.py:30-51 | succeeds iff every window of every touched date resolves; canonical list of exactly the worked instants inside planning |
| Availability.MergeIntervals | app/availability/calculator.py:94-103 | the canonical list of the union of its input |
| Availability.NormalizeBusyIntervals | app/availability/calculator.py:81-91 | the canonical list of exactly the busy instants inside planning |
| Availability.SubtractBusy | app/availability/calculator.py:106-124 | for canonical inputs, the canonical list of working minus busy instants |
| Availability.CalculateFreeIntervals | app/availability/calculator.py:10-22 | an instant is free iff it is planned, worked and not busy; the list is sorted with strict gaps; when it fails and why |
| Availability.FreeTimeDependsOnBusyUnion | app/availability/calculator.py:10-22 | free time depends only on the union of the busy time |
| DaylightSaving.ReadingsAreExact | app/availability/calculator.py:70-78 | the candidates are all instants showing a wall clock: none exactly in the gap, two exactly in the repeated stretch |
| DaylightSaving.Resolved | app/availability/calculator.py:54-67 | where a whole-minute wall clock is resolved to in a zone with one transition |
| DaylightSaving.WindowCovered | app/availability/calculator.py:39-67 | resolution never fails there, and the resolved window contains every instant whose clock is in the window |
| DaylightSaving.WindowExactIff | app/availability/calculator.py:39-67 | it contains no other instant iff the window neither starts inside a repeated stretch nor ends in one |
| DaylightSaving.PlainDateIsExact | app/availability/calculator.py:39-67 | on dates without a transition the resolved window is exact |
| CalendarMapper.NormalizeCalendarBusyIntervals | app/calendar_integration/mapper.py:8-42 | a reversed interval raises; otherwise the canonical list of the instants of the positive intervals |
| CalendarMapper.MergesAgree | app/calendar_integration/mapper.py:23-42 | the mapper's merge and the calculator's merge give the same list on the same input |
| Subtraction.SubtractSound | app/scheduling/scheduler.py:493-508 | every piece left is inside a source interval and clear of all reservations |
| Subtraction.SubtractComplete | app/scheduling/scheduler.py:493-508 | every interval inside a source and clear of all reservations is inside one piece |
| Subtraction.SubtractExact | app/scheduling/scheduler.py:493-508 | the pieces cover exactly the source instants outside the reservations |
| Subtraction.SubtractionsAgree | app/scheduling/scheduler.py:493-508 | on canonical inputs the scheduler's subtraction and the calculator's give the same list |
| SchedulerLoop.SubtractIntervals | app/scheduling/scheduler.py:493-508 | the nested loop computes the specified subtraction |
| SchedulerLoop.AvailableForTask | app/scheduling/scheduler.py:225-249 | clipping, cutoff and padded reservations, as specified |
| SchedulerLoop.BuildCandidates | app/scheduling/scheduler.py:266-318 | one candidate for each interval whose day is below the cap and which fits a session |
| SchedulerLoop.SchedulerRun.SelectBlock | app/scheduling/scheduler.py:160-185 | for a valid task, a block exactly when some available interval offers one, and then that of a best offer |
| SchedulerLoop.SchedulerRun.PlaceTask | app/scheduling/scheduler.py:144-222 | the loop with its reservation list, counter and remainder equals the specified placement |
| SchedulerLoop.SchedulerRun.PlaceAll | app/scheduling/scheduler.py:109-135 | the loop over the tasks equals the specified run |
| SchedulerLoop.ValidateAcceptedBlocks | app/scheduling/scheduler.py:407-471 | the nested loops raise exactly the specified warnings, in order |
| SchedulerLoop.ScheduleTasksLoop | app/scheduling/scheduler.py:50-141 | the whole call, with its three errors, equals the specified result |
| Scheduler.SelectIsBest | app/scheduling/scheduler.py:182-185 | the first candidate with the least key is selected: none is better, and none before it is as good |
| SlotChoice.CandidateIsOffer | app/scheduling/scheduler.py:266-358 | an interval below the day cap offers the longest legal session, at the earliest place in the time of day asked for or else at its start, with its weight |
| SlotChoice.BestOfferIsBooked | app/scheduling/scheduler.py:160-185 | the block booked is an offer no other comes before by time of day, minutes, spare minutes, unusable minutes and start; none only when nothing is offered |
| SlotChoice.PreferredIff | app/scheduling/scheduler.py:41-48 | it is in the time of day asked for iff some offer in it is not outweighed by one outside |
| SlotChoice.OutweighedIff | app/scheduling/scheduler.py:41-48 | by how much an offer outside must be better in minutes, spare time and rest |
| SlotChoice.PreferredTimeIsBooked | app/scheduling/scheduler.py:41-48 | a bound on the other offers' minutes under which it is booked in the time of day asked for |
| SlotChoice.ShortTasksGetTheirTime | app/scheduling/scheduler.py:41-48 | up to nine thousand minutes no bound is needed |
| SlotChoice.WholeSessionIsOffered | app/scheduling/scheduler.py:332-358 | for a task that may not be split, a place in the time of day asked for is always offered |
| SlotChoice.OtherThingsEqual | app/scheduling/scheduler.py:41-48 | between offers alike in the rest: the longer, the one with more to spare, the one that wastes less, the earlier; and what one weighs against another |
| SlotExamples.SplittableCanMissItsTime | app/scheduling/scheduler.py:321-358 | a session outside the time of day asked for, although a shorter legal one would be in it |
| SlotExamples.ShorterCanBeBooked | app/scheduling/scheduler.py:41-48 | a shorter session with more to spare booked before a longer one |
| Scheduler.CandidatesFit | app/scheduling/scheduler.py:266-318 | every candidate is a positive session of at most the remaining minutes inside its interval |
| Placement.SplittableIsLargest | app/scheduling/scheduler.py:321-329 | the session length is the longest that leaves nothing or enough for another; 0 iff there is none |
| Placement.AvailableIsSound | app/scheduling/scheduler.py:225-263 | an available interval is in one free interval, the task's window, before the cutoff, and the break away from everything booked |
| Placement.AvailableIsComplete | app/scheduling/scheduler.py:225-263 | every such place is part of one available interval |
| Placement.KeepsDayIff | app/scheduling/scheduler.py:332-358 | a zone keeps days iff every session of a minute or more is placed on the local day its interval starts |
| Placement.NextBlockIsLegal | app/scheduling/scheduler.py:160-208 | the block booked is in such a place, of a legal whole-minute length, on a day below the cap |
| Placement.NoBlockMeansNoFit | app/scheduling/scheduler.py:160-208 | when no block is booked, no legal session fits |
| PlaceLoop.PlaceShape | app/scheduling/scheduler.py:160-222 | the booked minutes and the remainder add up; a task that may not be split gets at most one block |
| PlaceLoop.PlaceLeavesSession | app/scheduling/scheduler.py:160-222 | a splittable remainder that starts at the effective minimum or above ends at 0 or at the minimum or above |
| PlaceLoop.PlaceRespectsCap | app/scheduling/scheduler.py:281-292 | in a zone that keeps days, no day is filled beyond the cap or beyond what it already held |
| SchedulerTheorems.PlacementIsSound | app/scheduling/scheduler.py:225-263 | every new block lies in one free interval, in its task's window, before the cutoff of the day its clipped interval starts, and the break from every other block |
| SchedulerTheorems.MinutesAreConserved | app/scheduling/scheduler.py:80-135 | accepted, new and reported minutes make up the greater of duration and accepted minutes; a shortfall is reported exactly once |
| SchedulerTheorems.InvalidIsReported | app/scheduling/scheduler.py:97-108 | a task without zoned times, id, positive duration, minimum session and cap, with a window that is none or a minimum it cannot reach gets no block and one report of its whole duration |
| SchedulerTheorems.SessionsPerDayCapped | app/scheduling/scheduler.py:281-292 | in a zone that keeps days, sessions of a task on a local day never exceed the greater of the cap and those accepted that day |
| SchedulerTheorems.RemainderFitsSession | app/scheduling/scheduler.py:321-329 | a reported remainder of a splittable task is long enough for a session if what was due was |
| SchedulerTheorems.ScheduleIsMaximal | app/scheduling/scheduler.py:144-329 | with each free interval inside one local day, no legal session of a task reported unscheduled fits the finished schedule |
| AcceptedChecks.OverlapWarningIsExact | app/scheduling/scheduler.py:442-462 | an overlap warning is raised iff two accepted blocks overlap |
| AcceptedChecks.QuietResultIsSeparated | app/scheduling/scheduler.py:442-462 | without an overlap or hard-constraint warning, any two blocks of the result, accepted ones included, keep the break |
| WarningMeaning.WarningsHaveCause | app/scheduling/scheduler.py:407-471 | a warning is raised iff a block is of an unknown task, outside free time or against its task, a pair overlaps or is too close, or a task has too many minutes accepted |
| WarningMeaning.WarningsAreOrdered | app/scheduling/scheduler.py:547-548 | the warnings of a call come in the order of their codes' texts, those of one code in that of their ids |
| SchedulerInvariance.ResultIgnoresInputOrder | app/scheduling/scheduler.py:63-66 | with unique task ids, reordering tasks, free intervals and accepted blocks leaves the whole result unchanged |
| SchedulerInvariance.LaterTasksDoNotInterfere | app/scheduling/scheduler.py:109-126 | adding tasks that sort after a task changes no block of it nor of any task not after it |
| SchedulerInvariance.LowerPriorityDoesNotInterfere | app/scheduling/scheduler.py:25-30 | tasks of lower priority, or of equal priority due later or never, change no block of a task |
| Preview.ValidatePreview | app/schedule_plans/service.py:90-160 | the loop with its previous end returns the stored blocks or the first objection, as specified |
| Preview.ValidatedIff | app/schedule_plans/service.py:90-160 | although only neighbours are compared: accepted iff versions and windows match, all blocks are good, any two are disjoint and the total fits; stores the sorted blocks |
| Preview.ValidatedStores | app/schedule_plans/service.py:124-160 | what is stored: each block with its own times and its positive whole minutes, in order of time, one beside another |
| Preview.GenerateSchedulePreview | app/services/scheduling.py:93-120 | the preview is the schedule, without accepted blocks, in exactly the free time; each of its two failures exactly when its cause holds |
| Preview.PreviewWithReservations | app/services/scheduling.py:67-90 | the same with the listed reservations added to the busy time; succeeds exactly when hours and preferences allow it |
| PreviewTheorems.PreviewBlocksAreClear | app/services/scheduling.py:93-120 | for any tasks, every block of a preview is inside planning and overlaps no busy interval |
| PreviewTheorems.PreviewAvoidsReservations | app/services/scheduling.py:67-90 | no block overlaps a busy interval passed in, nor any session of a plan of the user that reserves time |
| PreviewTheorems.PreviewPassesValidation | app/schedule_plans/service.py:90-160 | for one valid task, every non-empty preview passes validation for the same window, version and duration |
| PreviewTheorems.ValidatedIsStorable | app/schedule_plans/service.py:146-160 | what validation stores is at least one session, each of positive minutes |
| PreviewTheorems.UnloadedTasksDoNotMatter | app/services/scheduling.py:123-139 | leaving out the tasks whose window misses the planning window changes no block |
| PreviewMaximality.FreeIsOneLocalDay | app/availability/calculator.py:30-51 | free intervals stay on one local day, in a zone whose clock change lies inside one date |
| PreviewMaximality.PreviewIsMaximal | app/services/scheduling.py:93-120 | so no legal session of a task reported unscheduled fits beside the blocks of a preview |
| Policy.ProjectIntervals | app/domain/external_calendar_policy.py:180-204 | the loop computes the projected sessions in order |
| Policy.FindMoveConflicts | app/domain/external_calendar_policy.py:207-240 | one conflict of the changed session iff some instant of the interval is outside the planning window, then one for each two neighbours in order of time that overlap |
| Policy.OverlapReportIsExact | app/domain/external_calendar_policy.py:207-240 | a move reports an overlap iff some two projected sessions overlap, although only neighbours are compared |
| Policy.DeadlineIsLatest | app/calendar_sync/deadline_policy.py:4-18 | the deadline after a move is one of the ends or the old deadline, and none of them is later |
| Policy.MoveFollowsDeadlinePolicy | app/domain/external_calendar_policy.py:291-313 | the decisions of a move leave exactly the deadline the deadline policy gives for the projected ends |
| SyncService.SyncStore.PullCalendarEvent | app/calendar_sync/pull.py:157-303 | what it leaves of mapping and log, whether it fails, repeats a change or records one; keeps for every mapping the balance of open edges that decides when session and snapshot agree |
| SyncService.SyncStore.ApplyDecisions | app/calendar_sync/processing.py:292-362 | the decision loop has exactly the specified effects on session, mapping, deadline, history, findings and actions |
| SyncService.SyncStore.ProcessChange | app/calendar_sync/processing.py:130-396 | keeps the balance of every mapping; an error leaves every record as it was; success records what the change asks for in session, mapping, deadline, history, findings and actions |
| SyncConvergence.RecordKeepsBalance | app/calendar_sync/pull.py:241-288 | a pull appends exactly the edge from the old place to the new one, or no place changes; deletions included |
| SyncConvergence.ProcessEffect | app/calendar_sync/processing.py:292-362 | a processed move takes the session from the change's old interval to its new one, of positive whole minutes; any other change leaves it |
| SyncConvergence.RunKeepsBalance | app/calendar_sync/pull.py:242-288 | over any run at all, session place plus open edges is the snapshot's place, at every interval |
| SyncConvergence.AgreementIff | app/calendar_sync/pull.py:242-288 | in every state reached from agreement, session and snapshot agree iff the open edges cancel out |
| SyncConvergence.ProcessedAgreesIff | app/calendar_sync/processing.py:285-304 | over any run, deletions included, once all is processed they agree iff re-creations and deletions cancel out at every interval |
| SyncConvergence.ProcessingConverges | app/calendar_sync/processing.py:285-304 | from agreement, with the event never missing, once every pending move is stale (in particular all are processed) the session is at the last recorded snapshot, whatever the order |
| SyncConvergence.StuckMeansConverged | app/calendar_sync/processing.py:419-437 | if every pending move is stale and nothing went missing, session and snapshot already agree |
| SyncConvergence.ProcessedForGood | app/calendar_sync/processing.py:183-195 | a processed change keeps its result over any run, and processing it again changes nothing |
| SyncConvergence.StaleChangesNothing | app/calendar_sync/processing.py:419-437 | a stale move is refused and changes nothing |
| SyncMissing.PullIsRecorded | app/calendar_sync/pull.py:214-303 | a failed pull marks the mapping failed and keeps its snapshot; a repeated change stores nothing; else the mapping follows the snapshot found, deleted iff it is missing or cancelled, and one pending change of the fitting kind is appended iff something differs |
| SyncMissing.UntouchedIsQuiet | app/calendar_sync/pull.py:66-86 | the first pull of an event as it was made for the session, in UTC and the plan's zone, logs no change |
| SyncMissing.ProjectionIs | app/calendar_sync/processing.py:223-265 | a move takes along exactly the plan's mapped sessions not marked missing, each where the calendar last showed it, in order of time |
| SyncMissing.OutUntilBack | app/calendar_sync/pull.py:268-272 | a session marked missing stays so after a step iff the step is no pull of it that fails or finds the event |
| SyncMissing.MissingStaysOut | app/calendar_sync/processing.py:243-262 | over any run without such a pull no move takes it along |
| SyncEffects.ProcessRecords | app/calendar_sync/processing.py:292-362 | what a processed change records: a move its session, the latest deadline with its history, a finding iff it leaves the planning window and one for each clash; a missing event its mark and finding; anything else nothing |
| SyncEffects.ProcessAnswers | app/calendar_sync/processing.py:183-290 | how a request to process a change is answered: processed, or which error and when |
| SyncEffects.HistoryIsChain | app/calendar_sync/processing.py:305-322 | over any run the deadline history gains exactly the chain of deadlines taken, later with each |
| SyncOrder.MoveAppliesIff | app/calendar_sync/processing.py:419-437 | a pending move of a live mapping takes effect iff it is not stale and of whole minutes |
| SyncOrder.UpdateApplies | app/calendar_sync/processing.py:183-290 | a pending update of a session of the plan is always processed |
| SyncOrder.OldestFirstIsNeverStale | app/calendar_sync/processing.py:419-437 | once all changes before it are processed, a move is not stale |
| SyncInOrder.InOrderConvergesIff | app/calendar_sync/processing.py:419-437 | from any state reached with the log processed up to some index, processing the rest in order leaves all processed and in agreement iff every move among them is of whole minutes |
| SyncInOrder.PulledThenInOrder | app/calendar_sync/processing.py:419-437 | the same after any pulls: oldest first gets through and agrees iff every recorded move is of whole minutes |
| SyncOrder.ProcessedMoveDeadline | app/calendar_sync/processing.py:305-322 | a move that takes effect leaves the deadline policy's deadline for the projected ends |
| SyncOrder.DeadlineNeverEarlier | app/calendar_sync/processing.py:305-322 | over any run the task's deadline never moves earlier |
| SyncStuck.OnlyPullsFree | app/calendar_sync/processing.py:419-437 | once every pending move of a mapping is stale, over any run without a pull of it every such move stays pending and stale, the session stays where it is, and agreement is what it was |
| SyncExamples.SomeOrdersLeaveMovesPending | app/calendar_sync/processing.py:419-437 | an order after which session and snapshot agree and two moves are pending, stale and refused |
| SyncExamples.APullCanFree | app/calendar_sync/processing.py:419-437 | from that state, a further pull after which the first of the two is accepted |
| SyncExamples.FailedPullBringsBack | app/calendar_sync/pull.py:229-243 | a missing event, then a failed pull: the session is taken along again |
| SyncExamples.BrokenMinutesBlock | app/calendar_sync/processing.py:419-437 | a move of a minute and a half: not stale, refused all the same, session and snapshot disagree |
| SyncExamples.DeletionBreaksAgreement | app/calendar_sync/pull.py:89-101 | a deleted and re-created event: every change processed, session and snapshot disagree |
| Consistency.Latest | app/calendar_sync/consistency.py:112-118 | the session found ends no earlier than any other |
| Consistency.Check | app/calendar_sync/consistency.py:54-139 | a negative break raises; otherwise the issues in order, and consistent with sessions of one id ordered alike iff everything is separated, on time and present |
| Consistency.SeparatedIff | app/calendar_sync/consistency.py:54-139 | nothing deleted, every pair in (order, id) order separated by the break and all by the deadline iff no issue is found and sessions of one id are ordered alike by order and by time |
| Consistency.NoIssuesIff | app/calendar_sync/consistency.py:54-139 | with unique ids, consistent iff nothing is deleted, every pair in (order, id) order is separated, and all end by the deadline |
| Consistency.RepeatedIdsFool | app/calendar_sync/consistency.py:79-85 | two sessions of one id that swap places pass |
| PlanRuns.LatestIsLast | app/schedule_plans/repository.py:65-80 | the highest version of a group is its last plan, and counts the group's plans |
| PlanService.PlanStore.CreateSchedulePlan | app/schedule_plans/service.py:363-516 | a request whose key is stored is answered with that plan and changes nothing, or refused; a new key succeeds exactly when acceptable and then stores exactly the plan asked for; keys and versions stay unique, only the newest plan of a group lives, every plan follows the transition table |
| PlanService.PlanStore.ConfirmSchedulePlan | app/schedule_plans/service.py:519-619 | on success the plan is confirmed and its task's reserved minutes have grown by exactly its minutes; on an error nothing has changed |
| PlanService.PlanStore.RevalidateSchedulePlan | app/schedule_plans/revalidation.py:501-528 | the plan ends confirmed iff the result was valid, or the provider failed and it was confirmed; otherwise revalidation is required |
| PlanService.PlanStore.ObsoleteSchedulePlan | app/schedule_plans/service.py:622-642 | on success the plan is obsolete and reserves nothing; every plan follows the transition table; an error changes nothing |
| PlanService.PlanStore.AttemptSessions | app/schedule_plans/apply.py:194-308 | the loop over the sessions skips the mapped ones, leaves the specified state, and each outcome says what became of its session |
| PlanService.PlanStore.ApplySchedulePlan | app/schedule_plans/apply.py:149-346 | the whole apply equals the specified commits; its outcomes name every session exactly once and say what became of it, and the plan is applied iff none says not applied |
| Outcomes.ApplyIsRun | app/schedule_plans/apply.py:149-346 | a whole apply is a run of its single commits, so whatever runs keep holds for it |
| Outcomes.CompletedApplyIsExact | app/schedule_plans/apply.py:310-325 | after a completed apply: applied iff all sessions are mapped, partially applied iff some, failed iff none |
| Outcomes.OutcomesCover | app/schedule_plans/apply.py:172-208 | existing and attempted outcomes together are the sessions, each once |
| Outcomes.ApplyTells | app/schedule_plans/apply.py:172-308 | an outcome says not applied iff its session ends without a mapping, and failed; applied iff it had none and now has one of its own, with the event in the calendar; else already applied |
| Outcomes.AppliedIffNoneFailed | app/schedule_plans/apply.py:310-346 | a completed apply ends applied iff no outcome says not applied |
| PlanRuns.NextEvolves | app/schedule_plans/service.py:56-83 | every step moves every plan along the transition table and keeps its content and saved mappings, but for the minutes of sessions in the calendar |
| PlanRuns.RunPersists | app/schedule_plans/models.py:259-350 | over any run, external moves included, content and mappings stay, minutes change only of sessions in the calendar and stay positive, and applied, failed and obsolete plans keep their status |
| PlanRuns.GroupsStayInOrder | app/schedule_plans/service.py:429-451 | in every reachable state versions are exactly 1 to n, every plan but the newest is obsolete or failed, and at most one reserves time |
| PlanRuns.VersionsAreExact | app/schedule_plans/service.py:429-451 | each version from 1 to n is held by one plan |
| PlanKeys.KeysAreUnique | app/schedule_plans/models.py:59-71 | in every state reached from an empty store no two plans have one key |
| PlanKeys.RepeatChangesNothing | app/schedule_plans/service.py:411-417 | a request whose key is stored succeeds iff it is acceptable and the plan is its user's; then the answer is that plan and nothing changes |
| PlanKeys.SameAnswerLater | app/schedule_plans/service.py:411-417 | over any run, a request that succeeded once gets the same plan and changes nothing |
| PlanKeys.CreationSucceedsIff | app/schedule_plans/service.py:378-448 | with a new key: exactly for an acceptable request and a newest plan that is its user's and not being applied |
| PlanKeys.CreationStores | app/schedule_plans/service.py:429-500 | then the plan asked for is stored last, with the next version of its group, and the newest plan is retired |
| PlanEffects.ConfirmSucceedsIff | app/schedule_plans/service.py:519-619 | with valid entries: a confirmed plan always, a proposed one iff it has no entry or one of the user's, open, of its task, with that much work left |
| PlanEffects.ConfirmMeans | app/schedule_plans/service.py:572-619 | what is stored: the plan and its sessions confirmed, the entry with what is left as partly scheduled, or resolved; no other plan or entry changes |
| PlanEffects.ObsoleteMeans | app/schedule_plans/service.py:622-642 | any plan not applied, being applied or failed can be retired, with its sessions; no other plan changes |
| PlanEffects.OnlyTargetIff | app/schedule_plans/apply.py:82-94 | the stored targets collected for a session are one iff some target is its only one, and then that one |
| PlanEffects.BeginMeans | app/schedule_plans/apply.py:149-190 | an apply begins iff the plan is confirmed or partly applied and every unmapped session has one target, with a usable connection; then every session is applied or being applied |
| ApplyRuns.FinishIsExact | app/schedule_plans/apply.py:310-325 | the last commit sets the status that says which sessions are mapped |
| ApplyRuns.RunFits | app/schedule_plans/apply.py:310-325 | in every state reached from an empty store, every plan's status says what is mapped |
| ApplyRuns.PartialNeverFails | app/schedule_plans/apply.py:310-325 | a plan partially applied in some reachable state is failed in no later one |
| ApplyRuns.OneEventPerSession | app/schedule_plans/apply.py:61-111 | over any run, whatever the provider reported, events made for one session are one event |
| BacklogMinutes.ConfirmAccountsMinutes | app/schedule_plans/service.py:536-619 | confirming a linked plan lowers the remaining work by exactly its minutes, stores that in the entry, and resolves it iff nothing remains |
| BacklogMinutes.ConfirmNeverFailsClosing | app/schedule_plans/service.py:596-619 | the closing validation cannot fail for a valid entry |
| BacklogRoom.ReservedStaysWithinDuration | app/backlog/domain.py:113-130 | over runs of create, confirm, revalidate and obsolete on linked plans, reserved minutes never exceed the duration |
| BacklogRoom.RetryRevivesMinutes | app/schedule_plans/apply.py:178-190 | an apply that begins takes back exactly the failed sessions' minutes |
| BacklogRoom.MoveReserves | app/calendar_sync/processing.py:295-304 | an external move changes the reserved minutes by exactly what it adds to a session that holds time |
| BacklogRoom.ConfirmTakes | app/schedule_plans/service.py:536-619 | confirming reserves exactly the plan's minutes; those of a linked plan never exceed what remains |
| BacklogRoom.NextFitsIff | app/schedule_plans/service.py:536-563 | from a fitting state, a step of any kind, on linked plans or not, keeps reserved minutes within the duration iff there is room for what it takes |
| BacklogRoom.FitsIffRoom | app/backlog/domain.py:113-130 | over any run of all operations and external moves, on linked plans or not, reserved minutes stay within the duration throughout iff there is room for every unlinked confirmation, beginning apply and move |
| BacklogExamples.RetryCanExceedDuration | app/schedule_plans/apply.py:178-190 | a run from an empty store after which 120 minutes are reserved for a task of 90 |
| BacklogExamples.UnlinkedCanExceedDuration | app/schedule_plans/service.py:537-563 | two confirmations of unlinked plans, from an empty store, reserve 120 minutes for a task of 90 |
| BacklogService.BacklogStore.CreateBacklogEntry | app/backlog/service.py:139-187 | a healthy store stays healthy, with entries valid and one open per task, and entries only evolve; an error changes nothing |
| BacklogService.BacklogStore.DeferBacklogEntry | app/backlog/service.py:200-229 | a valid active entry can be deferred iff a date is given and a note remains where one is needed; the store stays healthy and entries only evolve; an error changes nothing |
| BacklogService.BacklogStore.ReactivateBacklogEntry | app/backlog/service.py:232-244 | a valid open entry can be reactivated iff it is deferred; the store stays healthy and entries only evolve; an error changes nothing |
| BacklogService.BacklogStore.UpdateRemainingDuration | app/backlog/service.py:247-259 | of a valid open entry, iff the minutes are positive and at most the duration; the store stays healthy and entries only evolve; an error changes nothing |
| BacklogService.BacklogStore.ResolveBacklogEntry | app/backlog/service.py:262-280 | a valid open entry can be resolved iff a note remains where one is needed; the store stays healthy and entries only evolve; an error changes nothing |
| BacklogService.BacklogStore.CancelBacklogEntry | app/backlog/service.py:283-300 | a valid open entry can be cancelled iff a note remains where one is needed; the store stays healthy and entries only evolve; an error changes nothing |
| BacklogService.BacklogStore.PreviewBacklogEntrySchedule | app/backlog/service.py:303-346 | refused exactly when the entry or task is closed or nothing remains; else previews the remaining work with reservations and stores one more attempt and nothing else |
| BacklogService.BacklogStore.CreateBacklogSchedulePlan | app/backlog/service.py:349-415 | a healthy store stays healthy and entries only evolve; an error changes nothing |
| BacklogRuns.ChangedEvolves | app/backlog/domain.py:133-153 | an operation that succeeds on a valid entry leaves it valid, along the transition table; a closed entry stays as it is |
| BacklogRuns.OperationsSucceedWhen | app/backlog/service.py:200-300 | exactly when each operation on a valid open entry succeeds |
| BacklogRuns.DeferThenReactivate | app/backlog/service.py:200-244 | deferring and reactivating gives the entry back apart from its dates |
| BacklogEffects.DeferMeans | app/backlog/service.py:200-229 | a valid active entry, or one deferred to the same dates, with a date and the note it needs; status, dates and note change, nothing else |
| BacklogEffects.ResolveMeans | app/backlog/service.py:262-280 | a valid entry, open and with the note it needs, is left with no minutes and a time of resolution; one resolved before is left as it is |
| BacklogEffects.CreationMeans | app/backlog/service.py:139-187 | for a task with an open entry: succeeds iff that entry is as asked for, and stores nothing; else stores the entry asked for iff it is valid and its id new |
| BacklogRuns.RunKeepsHealthy | app/backlog/domain.py:133-153 | over any run of both services entries stay valid, a task has at most one open entry, attempts never drop, and a closed entry never changes |
| BacklogRuns.ClosingValidationNeverFails | app/schedule_plans/service.py:587-619 | so in every reachable state no confirmation fails in its closing validation |
| BacklogRuns.OlderPreviewStaysRefused | app/backlog/service.py:372-375 | a preview older than the last attempt is refused in every later state |
| BacklogRuns.SelectedPreviewConfirms | app/backlog/service.py:349-415 | a plan created from a selected preview can be confirmed at once, and lowers the remaining work by exactly its minutes |
| BacklogRuns.BacklogPreviewToConfirmation | app/backlog/service.py:303-415 | a non-empty preview of an entry's remaining work, sent back unchanged, becomes a plan that can be confirmed |
| Revalidation.GroupsAreExact | app/schedule_plans/revalidation.py:204-234 | grouping gives each provider and origin once, with exactly its intervals in their order |
| Revalidation.SortOut | app/schedule_plans/revalidation.py:210-234 | the inner loop groups exactly the overlapping and the too near intervals, each provider and origin once |
| Revalidation.Detect | app/schedule_plans/revalidation.py:192-266 | the nested loops return exactly the specified conflicts, in order |
| Revalidation.ReportedIff | app/schedule_plans/revalidation.py:192-266 | a session is reported iff some busy interval overlaps it or is closer than the break |
| ConflictMeaning.SessionConflictsAre | app/schedule_plans/revalidation.py:192-266 | for each source one overlap iff some interval of it overlaps the session, one break violation iff some is too near; each lists exactly those intervals in their order, an overlap with their minutes rounded up |
| ConflictMeaning.DetectedConflictsAre | app/schedule_plans/revalidation.py:192-266 | the conflicts of a plan are those of its sessions, in their order |
| Revalidation.OutsideWindowIsIrrelevant | app/schedule_plans/revalidation.py:160-171 | dropping every interval outside the padded query window changes no conflict |
| Revalidation.MergingChangesNoReport | app/schedule_plans/revalidation.py:192-266 | positive intervals with the same busy instants report the same sessions, however they are cut |
| Revalidation.MapperMergeChangesNoReport | app/calendar_integration/mapper.py:23-42 | in particular the merged list of a provider's intervals does |
| Revalidation.ReservationQueryLosesNothing | app/schedule_plans/repository.py:107-149 | restricting the reservation query to the padded window loses no report |
| StillFree.ReservationsListed | app/schedule_plans/repository.py:107-149 | the query refuses an empty window; else it lists each session of the user's other plans that hold time and that meets the window, as often as stored, in order of start, end and id |
| StillFree.RevalidationIsExact | app/schedule_plans/revalidation.py:410-528 | the whole of a revalidation, query included: valid iff the provider answered fully and every session keeps the break from all it gave and from every stored session of the user's other plans that hold time; a session is reported iff it does not |
| Revalidation.RevalidatePlan | app/schedule_plans/revalidation.py:501-528 | which of the four results; valid iff the provider answered fully and no session is disturbed, and then the plan is confirmed |

## Left out

- Explanations: score components, reason codes, failure reasons and messages. Only the selection key is modelled; the warnings keep code and task ids.
- HTTP, OAuth, encryption, the Google client, AI intake, templates and migrations.
- Row locks, sessions and partial flushes: an operation between two commits is one atomic step, and a raised error rolls it back.
- SHA-256 digests: keys and transition hashes are compared by what they are computed from; plan, session and entry ids and keys are given to the model as fresh values.
- The time zone database: a zone is any pair of conversions, or a zone with one transition for the daylight-saving results.
- The provider: its answers are inputs. An event created for a session is in the calendar and under the id asked for; what the provider returns instead is not modelled.
- Calendar context of a plan (connections, selections, snapshots, hashes) beyond the write target of each session; the errors raised while it is captured.
- Revalidation's connection, records, validity period and its guard against sessions changed meanwhile; request-id replays.
- Overlap minutes are added up in whole microseconds; the source adds floating-point seconds.
- Naive datetimes: refused by a flag for tasks and previews, not represented elsewhere.
- The immutability guard of app/schedule_plans/models.py is not modelled as a check before a flush; what it protects is proved of every step instead (`PlanRuns.NextEvolves`).
- The result object of processing beyond the actions; identities of consistency findings.
- Timestamps that nothing depends on (entered, confirmed, applied, last attempt), titles and descriptions.
- Read models, lists and filters of the user interface; preferences parsing; task-draft confirmation.
- Global disjointness of reservations, and equality of reserved time with backlog minutes: the code does not keep these.
- SchedulerTheorems.ScheduleIsMaximal: assumes each free interval inside one local day, because the day cap and the cutoff are taken from the day an interval starts; `PreviewMaximality.PreviewIsMaximal` discharges it for previews in a zone whose clock change lies inside one date.
- BacklogRoom.ReservedStaysWithinDuration: leaves out unlinked plans, applies and external moves, because all three can take minutes without asking; `BacklogRoom.FitsIffRoom` says when they fit.
- An external move as a plan sees it is a step that rewrites the minutes of a mapped session to any positive number; that processing leaves positive whole minutes is `SyncConvergence.ProcessEffect`. Start and end of stored sessions are not part of the plan records.
- SyncConvergence.ProcessingConverges: assumes the event is never reported deleted or cancelled; `SyncConvergence.ProcessedAgreesIff` covers runs where it is.
