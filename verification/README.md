# A verified model of PiecesOfLife

PiecesOfLife runs newsletter loops: a group answers questions during a
collecting round, the round closes and is published, and the next one opens on
a cadence. Members also keep a private journal and attach snapshots of it to
rounds. This project models the parts of the server whose correctness spans
many operations and proves what they promise, for all inputs, states and runs.

`dafny verify dfyconfig.toml` checks everything.

## How it is laid out

- **Rounds.** `Calendar`, `RoundTiming` and `SchedulerPolicy` decide when;
  `RoundTables` holds the tables and their statements; `RoundHandlers` states
  each handler with its branches and store faults as a function from tables to
  tables; `RoundInvariants`, `RoundRuns` and `RoundSafety` prove the safety of
  every run; `RoundOpenings`, `RoundReconcile` and `RoundLabels` prove openings
  on time, self-stabilising repair and unique edition labels; `RoundDates` says
  of each handler, whole, what it refuses and on which dates and under which
  label rounds open and close after it; `RoundAnomalies` holds the rules the code
  breaks, with the exact condition under which each survives; `RoundServer` is
  the server as it runs, statement by statement, each method held to the function
  that specifies it.
- **Dispatch and mail.** `EventDispatch` is the scheduler's tick against stale
  readers; `EmailLedger` the log that makes retries safe; `CommentDigest` the
  queue and the daily digest that drains it.
- **Questions.** `QuestionPicker` picks from the bank under any random order;
  `IssueQuestions` keeps a round's set and its numbering.
- **Images.** `Orientation` moves pixels; `JpegExif`, `TiffIfd`, `BoxWalk` and
  `Heif` read metadata and are proved against writers. `Bytes` is shared.
- **Journal.** `Journal` is snapshots and refreshes; `UploadFiles` the files
  they share and every interleaving of cleanup; `JournalServer` the handlers.
- **Appearance.** `Appearance` is a circle's look, its restore point and photos.
- **Data directory.** `DataDirectory` is the boot guard under crashes, snapshots
  and restores.

Each stateful part has a specification in functions, a state machine whose runs
carry the theorems, and a class whose methods make the changes step by step and
are proved equal to the specification.

## Conventions

Instants are whole seconds and a loop's timezone is a fixed offset. A handler
runs as one step of its machine and reads one "now"; `EventDispatch`,
`UploadFiles` and `DataDirectory` interleave single statements instead. Sends,
removals, random orders, lookups and the store's failures are parameters: a
handler of rounds may lose any of its calls, whether it stops there or logs it
and carries on, and a transaction that fails leaves the tables as they were.
Where carrying on costs something, a mark on the row, in no column of the table,
remembers it, and a run says which of those outages it may meet. A row's id is
its index or a number never reused; a deleted event keeps its place as a
tombstone.

Lemmas over sequences and datatypes carry `{:induction false}` wherever the
verifier would otherwise bring in an induction hypothesis of its own: every
induction here is written out.

## Where code and comments disagree

The model follows the code.

- `internal/server/groups.go:333-337` says a restored loop is picked up by the
  daily repair. A loop archived while collecting is not: its round stays open
  (`RoundAnomalies.ArchivedMidRoundNeverCloses`,
  `RoundAnomalies.RestoredLoopResumesIff`).
- `internal/scheduler/scheduler.go:474-483` logs "leaving it pending" when an
  event cannot be revalidated, but the handler runs, and on success the event
  is consumed (`EventDispatch.UnreadableRoundIsHandled`).
- `internal/server/actions.go:863-890` leaves a failed opening for a retry; once
  the draft was re-anchored the retry consumes the event without opening it
  (`RoundAnomalies.RetryAfterFailedOpen`).
- `internal/server/issues.go:202-208` logs a failed draft lookup and starts a
  second round beside the draft (`RoundAnomalies.StartBlindToDraft`), and
  `internal/server/issues.go:474-549` publishes a draft beside a collecting
  round (`RoundAnomalies.PublishingADraft`).
- `internal/server/actions.go:52-54` returns a failed insert of a close "because
  a round without one never closes"; both callers log it and report success, so
  the round opens without one (`RoundAnomalies.OpenedWithoutAClose`).
- `internal/server/issues.go:427-431` counts on a draft having no close queued. A
  start whose status write is lost leaves one, which can end the round before
  its deadline (`RoundAnomalies.EndsEarlyIff`,
  `RoundAnomalies.HalfStartEndsEarly`).
- `internal/server/schedule.go:409-417` shares the label walk so that no edition
  becomes unreachable; on a failed lookup it takes a month that may be held
  (`RoundLabels.FailedLookupHidesAnEdition`).
- `internal/store/issue.go:124-140` has no order, so with a collecting round and
  a draft past its opening either may come back; the schedule editor is proved
  for both answers.
- `internal/store/dbstate.go:154-157` counts on the database never falling behind
  the sidecar. With `synchronous=NORMAL` (`internal/store/store.go:37`) a power
  failure can undo commits, and the guard then refuses with nothing restored
  (`DataDirectory.PowerLossRefuses`). A pre-migration backup can pass the guard
  without rows that a recorded boot held (`DataDirectory.BackUpIsSafeIff`).
- `internal/store/store.go:251-254` promises a rollback by restoring the
  pre-migration backup, which the guard refuses once the upgrade has booted,
  short of deleting the sidecar (`DataDirectory.RollbackAcceptedIff`,
  `DataDirectory.RollbackUntilRecorded`, `DataDirectory.RollbackRefused`).
- `internal/server/appearance_image.go:182-184` promises the largest extent; an
  area of 2^63 or more wraps and is passed over (`Heif.LargestOfAll`).

## Model

| member | source | states |
|---|---|---|
| `Calendar.MonthLength` | internal/server/actions.go:1022-1040 | consecutive calendar months tile the day numbers, leap years included |
| `Calendar.DateRoundTrip` | internal/server/actions.go:1022-1040 | building a date from year, month and day and taking it apart are inverse, for every year |
| `Calendar.AddMonthsLands` | internal/server/actions.go:1018-1040 | month stepping lands exactly that many months later, on the same day or the month's last |
| `Calendar.AddMonthsMonotone` | internal/server/actions.go:1018-1040 | a later date never lands earlier |
| `Calendar.AddMonthsTwice` | internal/server/actions.go:1018-1040 | two steps agree with one exactly when the first did not clamp below the final day |
| `Calendar.EndOfJanuary` | internal/server/actions.go:1018-1040 | 31 January steps to the end of February, and from there not back to the 31st |
| `RoundTiming.AtLocalHourPins` | internal/server/actions.go:167-170 | pinning to an hour keeps the local date and moves by less than a day |
| `RoundTiming.DefaultDeadlineWindow` | internal/server/actions.go:175-194 | a derived deadline is local 21:00, as many dates after the opening as the window has days when that is three or more, and seven otherwise; at least 2 days 21 hours ahead |
| `RoundTiming.CadenceOpensAtNine` | internal/server/actions.go:985-1016 | for every last opening and frequency the next round opens at local 09:00, at least 12 hours ahead, and within 9 hours of its slot or the two-day breather |
| `RoundTiming.CadenceKeepsTheDate` | internal/server/actions.go:985-1040 | a loop on a monthly or quarterly rhythm stays on its day of the month |
| `RoundTiming.CadenceDates` | internal/server/actions.go:985-1040 | in dates alone: the slot is two weeks, or one or three calendar months, after the last opening's date; the round opens at local 09:00 of it, or a day later if that would leave less than 12 hours; a slot less than 24 hours off gives way to the date 48 hours from now |
| `RoundTiming.BuildIssueEventSpecs` | internal/server/actions.go:90-127 | the loop returns the specified events and the matching reminder count |
| `RoundTiming.IssueEventSpecsShape` | internal/server/actions.go:90-127 | the close exactly once, last, at the deadline; every other event 12 hours away and 14 hours before the close; a slot is dropped only for want of notice |
| `RoundTiming.IssueEventDates` | internal/server/actions.go:90-127 | which events a round gets, exactly: reminders at local 10:00 three days and one day before its deadline, the admin summary with the second, and the close at the deadline |
| `RoundTiming.RescheduledDates` | internal/server/issues.go:690-727 | the events that replace them after a move: those of the new deadline, and a reminder at once exactly when the deadline moves earlier or is left without one and none went out lately |
| `SchedulerPolicy.DecidedByKind` | internal/scheduler/scheduler.go:459-512 | the whole decision, kind by kind: a close or a summary is skipped off a collecting round or more than 48 hours late, an opening off a draft at any lateness, a reminder off a collecting round or past its deadline, and nothing else |
| `RoundTiming.RescheduledReminders` | internal/server/issues.go:690-727 | a moved deadline keeps one close; moving it earlier reminds at once; exactly when a move leaves no reminder |
| `RoundTables.EarliestDraft` | internal/store/issue.go:167-228 | the earliest draft of a group, optionally among those opening after an instant |
| `RoundTables.PendingNextRoundAmong` | internal/store/scheduler.go:541-580 | the earliest unfired opening whose round is still a draft |
| `RoundTables.LatestPublished` | internal/store/issue.go:358-410 | the head of the published archive, the later row of two in one month |
| `RoundTables.LabelWalk` | internal/store/scheduler.go:284-308 | the first free label, with every earlier one taken; none only when all 1200 are taken |
| `RoundInvariants.ClearingKeeps` | internal/store/scheduler.go:490-605 | after dropping a group's queued openings it has none left, and every rule is kept |
| `RoundOpenings.RescheduleReplacesEvents` | internal/store/scheduler.go:115-154 | a committed reschedule takes exactly the round's pending events, keeps what fired and what is other rounds', and queues exactly the events handed over |
| `RoundHandlers.InsertAllKeeps` | internal/store/scheduler.go:144-153 | a transaction's inserts append exactly the wanted events, and agree with inserting one by one |
| `RoundRuns.QueueNextKeeps` | internal/server/actions.go:548-660 | queueing the next round keeps every rule, whichever store call fails, the label lookup included |
| `RoundRuns.PublishRoundKeeps` | internal/server/actions.go:489-546 | publishing a round with nothing else collecting, and queueing its successor, keeps every rule, and a success leaves it published |
| `RoundRuns.OpenWithEventsKeeps` | internal/server/actions.go:683-775 | opening a draft with its events, whichever inserts are lost, keeps every rule: its close is on file or marked as lost |
| `RoundRuns.OpenNextIssueKeeps` | internal/server/actions.go:817-911 | opening the next round keeps every rule in all its branches and with every store failure, survived or not |
| `RoundRuns.OpenDraftEarlyKeeps` | internal/store/issue.go:303-356 | the early-opening transaction keeps every rule |
| `RoundRuns.StartRoundKeeps` | internal/server/issues.go:88-345 | starting a round by hand keeps every rule when its draft lookup succeeds, whichever of its other calls fail |
| `RoundRuns.ApplyScheduleKeeps` | internal/store/scheduler.go:58-252 | the schedule transaction keeps every rule on its own overlap check alone, for every update it commits |
| `RoundRuns.RescheduleKeeps` | internal/server/issues.go:657-757 | moving a live deadline behind its guard keeps every rule, in UTC when the settings cannot be read |
| `RoundRuns.EditDeadlineKeeps` | internal/server/issues.go:351-470 | so do editing and extending a deadline |
| `RoundRuns.UpdateScheduleKeeps` | internal/server/schedule.go:51-300 | so does the schedule editor, whichever active round the unordered query hands it |
| `RoundInvariants.CancellingKeeps` | internal/server/groups.go:302-352 | cancelling an archived loop's events keeps every rule; failing to cancel them keeps them too |
| `RoundSafety.ReconcileKeeps` | internal/server/actions.go:913-983 | the repair sweep keeps every rule, with any failures |
| `RoundSafety.HandleEventKeeps` | internal/scheduler/scheduler.go:302-378 | every event handler keeps every rule, whatever fails, and a close that succeeds publishes |
| `RoundSafety.FireEventKeeps` | internal/scheduler/scheduler.go:223-394 | firing a listed event of any age keeps every rule |
| `RoundSafety.RunKeeps` | internal/scheduler/scheduler.go:178-394 | every run of steps keeps every rule |
| `RoundSafety.LoopSteps` | internal/server/groups.go:302-352 | archiving, restoring and settings change the loop's own row and, when it is archived, cancel exactly its unfired events |
| `RoundSafety.HandlersAreSteps` | internal/scheduler/scheduler.go:178-394 | every handler, called on a row there is, is a step of the machine, but for the two calls ruled out; so what is proved of runs is proved of it |
| `RoundSafety.EveryReachableStateIsSafe` | internal/store/scheduler.go:58-252 | from an empty instance, in every run: one draft and one collecting round a group, the collecting round closes before its queued successor opens, nothing fires early, and a collecting round's close is queued at its present deadline unless the lateness ceiling or archiving took it, or its insert was lost, which is marked, and then it has none; nothing else is queued to close it unless it began as a half start; without lost inserts every one has its close, and without lost status writes none began so |
| `RoundOpenings.OpenedByTransition` | internal/server/actions.go:683-775 | an opening files each slot with enough notice, its close among them, if and only if the insert was not lost or the slot was taken, and keeps the notice of the rest |
| `RoundOpenings.SchedulerOpensOnTime` | internal/server/actions.go:817-911 | a round the scheduler opens had a due event of its own group, was not before its pinned time and closes more than 12 hours later; its close is on file if and only if the insert was not lost or it was there, and once unless the draft came with one |
| `RoundOpenings.SchedulerClosesOnTime` | internal/scheduler/scheduler.go:223-394 | the scheduler publishes a collecting round if and only if the event is a due, unfired close of its own, confirmed, of a loop not read as archived, within the lateness ceiling as far as that is read, and the write succeeds; and never before its present deadline unless it began as a half start |
| `RoundOpenings.FiredAsDecided` | internal/scheduler/scheduler.go:223-394 | what firing a pending event comes to: left, marked or handled exactly as its kind, lateness, round and loop say |
| `RoundOpenings.StartClosesOnTimeIff` | internal/server/issues.go:202-345 | after an accepted start the round waits for no close but at its deadline if and only if none was queued for it before |
| `RoundOpenings.StartQueuesClose` | internal/server/issues.go:247-345 | an accepted start collects if and only if its status write was not lost, and has its close if and only if that insert was not; an early opening loses neither |
| `RoundOpenings.RescheduleRestoresClose` | internal/server/issues.go:729-757 | every accepted extension or edit of a collecting round leaves its close pending exactly once at the new deadline, also when it had been lost |
| `RoundOpenings.ScheduleRestoresClose` | internal/server/schedule.go:233-268 | and so does the schedule editor |
| `RoundDates.EditorRefuses` | internal/server/schedule.go:51-268 | the schedule editor refuses exactly the requests whose dates, round or loop are out of bounds, or whose next opening would not lie past the close |
| `RoundDates.EditorLeaves` | internal/server/schedule.go:51-300 | an accepted schedule change with next dates D and E leaves the group one draft that opens at local 09:00 of D and closes at local 21:00 of E, its one pending opening at that instant, the first free label from its month on, a window of E - D days and every other setting; a moved close is local 21:00 of its date with the events to match; and it fails exactly when a reminder has gone out this second or no label is left |
| `RoundDates.QueueNextDates` | internal/server/actions.go:548-660 | queueing leaves one draft and one opening on the cadence of the last, at local 09:00, due at local 21:00 after the window, or the draft as dated when it opens more than 12 hours from now |
| `RoundDates.PublishDates` | internal/server/actions.go:489-546 | publishing, whole: a no-op on a published round, nothing on a failed write, and otherwise the round is published and its successor queued on the cadence of its own opening if the loop goes on by itself |
| `RoundDates.RepairDates` | internal/server/actions.go:921-983 | the repair of one loop, whole: which loops it leaves alone, and that any other is queued on the cadence of its last edition |
| `RoundDates.OpenNextDates` | internal/server/actions.go:817-911 | opening the next round, whole: when nothing happens, and with which dates and label the draft or a new round opens |
| `RoundDates.StartDates` | internal/server/issues.go:88-345 | a start by hand, whole: what it refuses, which round it is about, and how that round is dated and labelled |
| `RoundDates.StartFails` | internal/store/issue.go:303-356 | an acceptable start fails if and only if its write does or the upcoming draft already has an event in a slot of its own new window |
| `RoundDates.ExtendOutcome` | internal/server/issues.go:566-655 | extending a deadline, whole: what is refused, the one way it fails, and what it leaves |
| `RoundDates.EditOutcome` | internal/server/issues.go:351-470 | editing one likewise; a draft's is only written down |
| `RoundReconcile.QueueNextQueues` | internal/server/actions.go:548-660 | queueing without failures leaves exactly one opening, on the draft's own date, at least 12 hours ahead |
| `RoundReconcile.QueueNextStaysInside` | internal/server/actions.go:548-660 | queueing changes nothing of any other group |
| `RoundReconcile.ReconcileStabilises` | internal/server/actions.go:913-983 | one sweep repairs every eligible group and leaves the groups that had not stalled as they were |
| `RoundReconcile.ReconcileIdempotent` | internal/server/actions.go:913-983 | sweeping again, at any later time, changes nothing |
| `RoundLabels.FreeLabelFound` | internal/store/scheduler.go:284-308 | the walk succeeds while there are fewer other editions than it is long |
| `RoundLabels.EveryEditionIsAddressable` | internal/store/scheduler.go:253-267 | in every reachable state two editions share a label only if one took it on a failed lookup or behind more than 1200 editions; so without failed lookups, up to 1200 editions, none do |
| `RoundLabels.QueueNextStaysDistinct` | internal/server/actions.go:600-640 | queueing keeps labels distinct if and only if the lookup worked or no other edition holds the slot's month |
| `RoundLabels.OpenNextStaysDistinct` | internal/server/actions.go:855-911 | so does opening, for the present month |
| `RoundLabels.StartStaysDistinct` | internal/server/issues.go:202-276 | so does a start by hand, for the month requested |
| `RoundLabels.FailedLookupHidesAnEdition` | internal/server/schedule.go:409-431 | a concrete state in which a failed lookup gives two editions one label |
| `RoundAnomalies.StartBlindToDraft` | internal/server/issues.go:202-245 | a start whose draft lookup failed keeps the rules if and only if the draft is no half start and the new deadline clears the queued opening, or, with the status write lost too, if there is no draft |
| `RoundAnomalies.BlindStartOverlaps` | internal/server/issues.go:202-245 | a concrete state in which it does not |
| `RoundAnomalies.PublishingADraft` | internal/server/issues.go:474-549 | publishing a draft keeps the rules if and only if nothing is queued or the cadence slot lies past the collecting deadline |
| `RoundAnomalies.PublishingADraftOverlaps` | internal/server/issues.go:474-549 | a concrete state in which it does not |
| `RoundAnomalies.RetryAfterFailedOpen` | internal/server/actions.go:849-890 | a failed opening succeeds on retry if and only if the draft had not been re-anchored to a later time |
| `RoundAnomalies.RepairAfterLostOpening` | internal/server/actions.go:913-983 | after such a retry nothing is queued, and one repair sweep queues exactly one opening for an eligible loop |
| `RoundAnomalies.ArchivedMidRoundNeverCloses` | internal/server/groups.go:302-352 | a loop archived mid-round and restored keeps collecting through any unattended run and refuses every new start |
| `RoundAnomalies.RestoredLoopResumesIff` | internal/server/groups.go:302-352 | after archiving and restoring a loop the sweep answers for, the next sweep leaves it one queued opening if and only if nothing was collecting, and otherwise none |
| `RoundAnomalies.LostCloseStrands` | internal/server/actions.go:748-757 | a round the scheduler opens is left with nothing to close it if and only if the insert of its close was lost, and its opening counts as handled |
| `RoundAnomalies.StrandedNeverCloses` | internal/server/actions.go:748-757 | such a round collects on through any unattended run and refuses every new start |
| `RoundAnomalies.OpenedWithoutAClose` | internal/server/actions.go:748-757 | a concrete state from which this happens |
| `RoundAnomalies.StrayCloseEndsTheRound` | internal/server/issues.go:276-322 | a close left on a draft by a half start stays queued when the draft is opened early, and publishes the round when due, whatever its new deadline |
| `RoundAnomalies.EndsEarlyIff` | internal/server/issues.go:276-322 | the scheduler can end a round that was opened early before its deadline if and only if a close queued for the draft comes due before that and is not past the lateness ceiling |
| `RoundAnomalies.HalfStartEndsEarly` | internal/server/issues.go:276-322 | a concrete run from an empty loop: a start loses its status write, is repeated, and the close of the first ends the second days before its deadline |
| `RoundServer.Server.NextAvailableIssueLabel` | internal/store/scheduler.go:284-308 | the loop returns the first free label, or nothing when a query fails |
| `RoundServer.Server.IssueLabelAt` | internal/server/schedule.go:409-431 | a failed walk falls back to the base month |
| `RoundServer.Server.CreateSchedulerEvent` | internal/store/scheduler.go:313-327 | appends the event, or fails on the unique constraint or for the store's own reasons |
| `RoundServer.Server.ScheduleIssueEvents` | internal/server/actions.go:55-83 | the insert loop, early return included, leaves exactly the specified events, whichever inserts fail |
| `RoundServer.Server.QueueNextIssueEvent` | internal/server/actions.go:548-660 | the statements refine the specification of queueing |
| `RoundServer.Server.Publish` | internal/server/actions.go:489-546 | the statements refine the specification of publishing |
| `RoundServer.Server.OpenIssueForCollecting` | internal/server/actions.go:683-775 | the statements refine the specification of opening |
| `RoundServer.Server.CreateNextIssue` | internal/server/actions.go:817-911 | the statements refine the specification of opening the next round |
| `RoundServer.Server.ReconcileAutoCreate` | internal/server/actions.go:921-983 | the loop with its continues refines the sweep |
| `RoundServer.Server.OpenDraftEarly` | internal/store/issue.go:303-356 | the transaction refines early opening, and rolls back to the old tables |
| `RoundServer.Server.StartRound` | internal/server/issues.go:88-345 | the statements refine starting a round |
| `RoundServer.Server.ApplySchedule` | internal/store/scheduler.go:61-252 | the transaction refines the schedule update, and restores loops, issues and events on any failure |
| `RoundServer.Server.UpdateSchedule` | internal/server/schedule.go:51-300 | the checks in order and the transaction refine the schedule editor |
| `RoundServer.Server.RescheduleIssueDeadline` | internal/server/issues.go:657-757 | the guard and the transaction refine moving a live deadline |
| `RoundServer.Server.ExtendDeadline` | internal/server/issues.go:566-655 | the checks refine extending |
| `RoundServer.Server.UpdateIssue` | internal/server/issues.go:351-470 | the checks refine editing, a draft's deadline included |
| `RoundServer.Server.SetGroupActive` | internal/server/groups.go:302-352 | archiving cancels the loop's events in a loop over the table; restoring brings none back |
| `RoundServer.Server.FireEvent` | internal/scheduler/scheduler.go:223-394 | the statements refine firing |
| `RoundServer.Server.FireOverdueEvents` | internal/scheduler/scheduler.go:178-221 | a pass over any overdue list is a run of the round machine, so its safety theorem covers it |
| `EventDispatch.FireOneIsSound` | internal/scheduler/scheduler.go:223-394 | one firing keeps: nothing after a mark, and every mark justified |
| `EventDispatch.NoHandlerAfterMark` | internal/scheduler/scheduler.go:178-394 | with lists and answers however stale: no handler runs after its event's mark, and a row turns fired only after its handler succeeded, on an archived loop, or by the skip policy |
| `EventDispatch.FailedLookupsConsumeNothing` | internal/scheduler/scheduler.go:459-512 | a mark resting on failed lookups follows a handler that succeeded |
| `EventDispatch.HandledUnlessOvertaken` | internal/scheduler/scheduler.go:223-394 | a confirmed event of a round runs its handler unless its loop is read as archived or its round has overtaken it, and is consumed if and only if one of those is so or the handler succeeds, and the mark lands |
| `EventDispatch.SummaryOnTimeRuns` | internal/scheduler/scheduler.go:485-512 | a summary of a collecting round no more than 48 hours late goes out |
| `EventDispatch.WithoutARound` | internal/scheduler/scheduler.go:302-394 | an event of no round is handled if it is a daily job, dropped if a close or summary more than 48 hours late, and otherwise errors and stays |
| `EventDispatch.PassReaches` | internal/scheduler/scheduler.go:178-221 | of a list, each event listed once comes to what it would come to alone |
| `EventDispatch.TickReaches` | internal/scheduler/scheduler.go:178-221 | and a cancelled pass leaves those it does not get to as they were |
| `EventDispatch.TickQueuesDailies` | internal/scheduler/scheduler.go:178-221 | after a tick a daily job is on file for the coming midnight if and only if it was before, or its insert was not lost and the pass did not fail, was not cut short and was not the one at startup |
| `EventDispatch.DailyOnFileIff` | internal/scheduler/scheduler.go:396-420 | through any ticks, restarts and concurrent writes a daily job is on file for a midnight if and only if it was at the start or some whole pass of the day before got its insert through |
| `EventDispatch.UnreadableRoundIsHandled` | internal/scheduler/scheduler.go:459-483 | an unfired event whose round cannot be read runs its handler unless its loop is read as archived, and is consumed if and only if that succeeds, or the loop is archived, and the mark lands |
| `EventDispatch.EnsureDailyKeeps` | internal/store/scheduler.go:329-349 | the insert-or-ignore keeps daily rows unique and present |
| `EventDispatch.Scheduler.FireEvent` | internal/scheduler/scheduler.go:223-394 | the statements refine one firing |
| `EventDispatch.Scheduler.FireOverdueEvents` | internal/scheduler/scheduler.go:178-221 | the pass refines a tick, when its query fails, it is cancelled or it is the one at startup too |
| `EventDispatch.Scheduler.ScheduleDailyCleanup` | internal/scheduler/scheduler.go:396-420 | the loop refines ensuring the three daily rows, whichever inserts fail |
| `EventDispatch.Scheduler.Start` | internal/scheduler/scheduler.go:108-128 | a start is a pass and then the daily rows, however the pass ended |
| `EmailLedger.BeginKeeps` | internal/store/email.go:55-126 | reserving keeps one row a key, changes no "sent", and says send exactly when the key is not sent |
| `EmailLedger.AttemptBalances` | internal/server/actions.go:261-335 | each attempt keeps sends equal to lost log writes plus one if the row says sent |
| `EmailLedger.RetriesDeliverOnce` | internal/server/actions.go:261-335 | across any retries and crashes a recipient gets at most one email plus one for each lost "sent", and has at most one log row |
| `EmailLedger.AttemptDelivers` | internal/store/email.go:52-126 | an attempt delivers exactly when it reserves, sends and was not sent before |
| `EmailLedger.BatchIsARun` | internal/server/actions.go:261-335 | a reminder batch, complete or cut short, is a run of attempts |
| `EmailLedger.AttemptRecords` | internal/store/email.go:52-126 | what an attempt leaves on the recipient's row, outcome by outcome |
| `EmailLedger.BatchDelivers` | internal/server/actions.go:204-343 | a batch over distinct members delivers one reminder to exactly those it reaches who want reminders, whose send goes through and who were not on record as sent, and nothing to anyone else |
| `EmailLedger.BatchRecords` | internal/server/actions.go:261-335 | and writes no row for anyone it does not attempt |
| `EmailLedger.Mailer.BeginSchedulerEmailAttempt` | internal/store/email.go:55-126 | the transaction refines the reservation |
| `EmailLedger.Mailer.SendReminder` | internal/server/actions.go:204-343 | the loop refines the batch, and fails exactly when cancelled |
| `EmailLedger.Mailer.SendReminderForIssue` | internal/server/actions.go:204-343 | the recipients are exactly the active members who have not answered |
| `CommentDigest.RunIsWhole` | internal/server/actions.go:1097-1105 | a run of the recipient-ordered list is all of its recipient's rows |
| `CommentDigest.ChangesQueue` | internal/store/comment_digest.go:63-152 | a queued pair is on the queue afterwards unless its comment goes, and nothing else appears or disappears |
| `CommentDigest.OneDigestEach` | internal/server/actions.go:1083-1115 | each listed recipient whose send succeeds gets exactly one email naming all of their rows, and nobody else any |
| `CommentDigest.BatchSpares` | internal/server/actions.go:1119-1238 | a turn drains its own rows and spares every other, late arrivals included |
| `CommentDigest.DigestLeaves` | internal/server/actions.go:1083-1238 | of the rows the digest started from exactly those stay whose recipient's turn did not end in an opt-out or a delivery with the drain written, less deleted comments |
| `CommentDigest.RowsGoOutOnce` | internal/store/comment_digest.go:63-152 | over any number of days a row goes out at most once plus once for each failed drain, and no pair is queued twice |
| `CommentDigest.Digests.SendCommentDigest` | internal/server/actions.go:1119-1238 | the statements refine one recipient's turn |
| `CommentDigest.Digests.SendCommentDigests` | internal/server/actions.go:1083-1115 | the nested loops refine the walk over whole runs |
| `CommentDigest.Digests.EnqueueCommentNotification` | internal/store/comment_digest.go:63-78 | a duplicate pair is ignored |
| `CommentDigest.Digests.DeleteCommentNotifications` | internal/store/comment_digest.go:125-152 | exactly the named rows go |
| `QuestionPicker.PickByCategory` | internal/store/question_curation.go:230-254 | one unused question from each of as many categories as count and bank allow |
| `QuestionPicker.LimitSuffices` | internal/store/question_curation.go:256-288 | a list cut at the count cannot run out below the count, so the over-fetch limit always suffices |
| `QuestionPicker.FillFrom` | internal/store/question_curation.go:256-317 | fills up to the count, or with every wanted question |
| `QuestionPicker.SelectRandomUnusedQuestions` | internal/store/question_curation.go:220-319 | for any random orders: min(count, bank) distinct questions of the bank, a used one only with every unused one, and as varied as the unused ones allow |
| `QuestionPicker.AvailableCounts` | internal/store/question_curation.go:230-254 | the category stage counts each category that has a fresh question, once |
| `QuestionPicker.FreshWhilePossible` | internal/store/question_curation.go:220-319 | nothing used is picked if and only if there are enough unused questions |
| `IssueQuestions.DenseNext` | internal/store/question_curation.go:184-218 | in a set numbered 0..n-1 the next order is n |
| `IssueQuestions.SuggestOutcome` | internal/store/question_curation.go:184-218 | a suggestion enters exactly a draft that has not opened and is not curated, last, as a friend's, one past the highest order |
| `IssueQuestions.PrepareOutcome` | internal/store/question_curation.go:29-177 | what preparing refuses and what it leaves alone |
| `IssueQuestions.PrepareCompletes` | internal/store/question_curation.go:29-177 | preparing keeps what was there, appends the defaults and then the picks in order, reaches the target as far as the bank goes, stays dense and freezes the set |
| `IssueQuestions.AddPickedMarks` | internal/store/question_curation.go:129-152 | exactly the picked bank questions turn used |
| `IssueQuestions.PrepareAfterDeletions` | internal/store/question_curation.go:86-152 | after deletions preparing keeps orders distinct if and only if no question sits in the range it numbers |
| `IssueQuestions.AcceptedIffPermutation` | internal/store/question.go:137-199 | a reorder is accepted if and only if its ids are the current ones in some order |
| `IssueQuestions.ReorderPlaces` | internal/store/question.go:151-199 | an accepted reorder puts the questions in that order, touches nothing else and leaves the numbering dense |
| `IssueQuestions.AlwaysDense` | internal/store/question_curation.go:33-218 | through any suggestions, preparations and reorders the orders are exactly 0..n-1 |
| `IssueQuestions.FrozenOnceCurated` | internal/store/question_curation.go:65-67 | once curated no suggestion enters, preparing is a no-op and only order changes |
| `IssueQuestions.CheckUniqueIDs` | internal/store/question.go:137-149 | accepts exactly the lists without repeats |
| `IssueQuestions.Questions.CreateSuggestedQuestion` | internal/store/question_curation.go:184-218 | inserts at the next order exactly while the draft accepts suggestions |
| `IssueQuestions.Questions.PrepareDraftQuestions` | internal/store/question_curation.go:33-177 | the transaction refines preparing with a good pick |
| `IssueQuestions.Questions.ReorderQuestions` | internal/store/question.go:155-199 | the loop refines reordering, and rolls back at an unknown id |
| `Orientation.UndoRestores` | internal/server/appearance_image.go:434-472 | 8 undoes 6 and 6 undoes 8; 2, 3, 4, 5 and 7 undo themselves |
| `Orientation.OrientedIsUpright` | internal/server/appearance_image.go:434-472 | for each of the eight tag values, byte by byte: the stored row 0 and column 0 lie on the visual sides that the Exif standard gives that value |
| `Orientation.TargetIsBijection` | internal/server/appearance_image.go:446-468 | every output pixel comes from exactly one source pixel |
| `Orientation.ComposeTargets` | internal/server/appearance_image.go:446-468 | orientations compose as the eight symmetries of a rectangle |
| `Orientation.OffsetApart` | internal/server/appearance_image.go:466-468 | distinct pixels or channels never share a byte offset |
| `Orientation.RoundTrip` | internal/server/appearance_image.go:434-472 | turning and undoing gives the same bytes, for all widths and heights |
| `Orientation.ApplyOrientation` | internal/server/appearance_image.go:434-472 | the pixel loop writes exactly the oriented image; other values return the image itself |
| `Orientation.ScaledFits` | internal/server/appearance_image.go:249-255 | a stored image fits the limit, never vanishes, and keeps its proportions to within a pixel |
| `JpegExif.ScanFindsAPayload` | internal/server/appearance_image.go:303-350 | on any bytes only an Exif payload that is part of the file comes back |
| `JpegExif.FindsFirstExif` | internal/server/appearance_image.go:303-350 | on any well-formed marker sequence, with fill bytes and standalone markers, the first Exif APP1 payload before the scan or end, and nothing when there is none |
| `JpegExif.NotAJpeg` | internal/server/appearance_image.go:303-350 | a file that does not start with the two bytes of a JPEG has no payload |
| `JpegExif.ReadAtMost` | internal/server/appearance_image.go:288-298 | reads a segment whole or returns nothing |
| `JpegExif.ReadMarker` | internal/server/appearance_image.go:313-323 | finds the next marker past its fill bytes, or the scan is over |
| `JpegExif.FindJpegExif` | internal/server/appearance_image.go:303-350 | the reading loop refines the scan; a failing seek only loses the payload |
| `TiffIfd.TiffOrientation` | internal/server/appearance_image.go:396-430 | an orientation from 1 to 8 whatever the bytes |
| `TiffIfd.ReadTiffOrientation` | internal/server/appearance_image.go:396-430 | the entry loop refines the scan of the directory |
| `TiffIfd.OrientationReadsBack` | internal/server/appearance_image.go:396-430 | recovers the orientation entry a directory writer stored, in either byte order, wherever the directory lies |
| `TiffIfd.ValueReadsBack` | internal/server/appearance_image.go:396-430 | a stored 1 to 8 comes back as it is, and any other value as upright |
| `TiffIfd.JunkIsUpright` | internal/server/appearance_image.go:396-430 | bytes that are no TIFF header count as upright |
| `TiffIfd.JpegOrientationReadsBack` | internal/server/appearance_image.go:268-281 | the whole chain from a JPEG file to the stored orientation |
| `TiffIfd.NoExifIsUpright` | internal/server/appearance_image.go:268-281 | a JPEG without Exif before its scan counts as upright |
| `BoxWalk.WalkBoxes` | internal/server/appearance_image.go:220-245 | the loop terminates on any bytes and refines the walk, 64-bit wrap-around included |
| `BoxWalk.WalkReadsBack` | internal/server/appearance_image.go:220-245 | on any serialised list of boxes, with 32-bit, 64-bit or to-end sizes, exactly those boxes are reported |
| `BoxWalk.RangesConsecutive` | internal/server/appearance_image.go:220-245 | reported ranges are consecutive and disjoint, each with its own payload |
| `Heif.LargestExtent` | internal/server/appearance_image.go:198-211 | the first of the largest extents whose area fits in 63 bits, or nothing |
| `Heif.LargestOfAll` | internal/server/appearance_image.go:198-211 | it is the largest of all if and only if no extent has 2^63 pixels or more |
| `Heif.FileReadsBack` | internal/server/appearance_image.go:185-216 | for any tree of boxes the extents visited are those its nesting reaches, at file level, in the top-level metadata and in the property boxes within, in order |
| `Heif.DimensionsOfFile` | internal/server/appearance_image.go:185-216 | so a written file's dimensions are its largest declared extent's |
| `Heif.Finder.Visit` | internal/server/appearance_image.go:187-213 | the recursive visitor, bounded in depth, refines picking from the extents visited |
| `Heif.HeifDimensions` | internal/server/appearance_image.go:185-216 | starts the visitor on the whole file |
| `Journal.AttachCopies` | internal/store/diary.go:75-131 | an attached section holds exactly the written days of its window |
| `Journal.RefreshAddsOnly` | internal/store/diary.go:133-182 | a refresh alters no day in the section, adds exactly the written days from the boundary on, never an older one; the boundary only grows and no day is empty |
| `Journal.RefreshAddsWhatWasOffered` | internal/store/ramble.go:477-501 | a refresh adds exactly the number of days that was offered |
| `Journal.RefreshFillsEmptyDays` | internal/store/diary.go:646-661 | a day keeps its blocks through a refresh if and only if it has some or its page has none |
| `Journal.RefreshTwice` | internal/store/diary.go:138-182 | refreshing again adds nothing |
| `Journal.TrimmedStaysTrimmed` | internal/store/diary.go:133-182 | through any review a day older than the boundary that is not in the section never enters it |
| `Journal.EditOutcome` | internal/store/diary.go:436-553 | what trimming a day or a block and changing a block leave of a section |
| `Journal.BoundaryDayReturns` | internal/store/diary.go:133-140 | a trimmed boundary day is offered again |
| `UploadFiles.ReferencedFilesStay` | internal/server/ramble.go:545-570 | no interleaving of uploads, edits, snapshots, deletions and cleanup, whichever handlers die, removes a file something points at |
| `UploadFiles.ZeroIsFinal` | internal/store/ramble.go:503-522 | a path at zero references that no upload is to bring in never regains one |
| `UploadFiles.NewRefs` | internal/store/ramble.go:341-364 | only the last statement of an upload brings in a reference, and only to its own file |
| `UploadFiles.FilesAreTheReferencedOnes` | internal/server/ramble.go:393-427 | run one at a time, handlers keep every referenced file on disk and no other but those whose clean-up failed; so without such failures exactly the referenced ones |
| `UploadFiles.HandlersAreARun` | internal/server/ramble.go:393-427 | handlers run one at a time are one of the interleavings of their statements |
| `UploadFiles.WriteOutcome` | internal/store/ramble.go:341-364 | writing appends the block to the member's page of the day, made if need be, keeps an upload's file and touches nothing else |
| `UploadFiles.JournalDeleteOutcome` | internal/server/ramble.go:393-427 | deleting a block takes out that block, its page with the last one, and its file when nothing shows it any more |
| `UploadFiles.SnapshotOutcome` | internal/store/diary.go:75-182 | attaching and refreshing write one section and no file |
| `UploadFiles.NeverTwoSections` | internal/store/diary.go:78-131 | through any interleaving no member has two sections on an issue |
| `UploadFiles.TrimOutcome` | internal/server/diary.go:265-297 | deleting a snapshot block trims that section, and its file goes when nothing shows it any more |
| `UploadFiles.SnapshotDeleteOutcome` | internal/server/diary.go:235-261 | deleting a day or detaching takes away that day or section alone, and the files that nothing shows any more |
| `JournalServer.Server.CopyDiaryDays` | internal/store/diary.go:621-664 | the two statements refine the copy, and the count is that of the days offered |
| `JournalServer.Server.AttachDiarySection` | internal/store/diary.go:78-131 | refuses a second section, or adds exactly the snapshot |
| `JournalServer.Server.RefreshDiarySection` | internal/store/diary.go:138-182 | the transaction refines the refresh and its count |
| `JournalServer.Server.RemoveUploadIfUnreferenced` | internal/server/ramble.go:548-570 | removes the file exactly when the count succeeds and says that nothing points at it and the removal does not fail |
| `JournalServer.Server.HandleDeleteDay` | internal/server/diary.go:235-261 | deletes the day, then the loop removes its unreferenced files |
| `JournalServer.Server.HandleDetach` | internal/server/diary.go:107-134 | deletes the section, then the loop removes its unreferenced files |
| `JournalServer.Server.HandleDeleteSnapshotBlock` | internal/server/diary.go:265-297 | deletes a snapshot block, its day when left empty, and its unreferenced file |
| `JournalServer.Server.HandleDeleteJournalBlock` | internal/server/ramble.go:393-427 | the same for a journal block |
| `Appearance.PublishReplacesExpected` | internal/store/setting.go:87-111 | a publish goes through if and only if the stored look is the expected one, replaces it, and remembers it unless it was the same |
| `Appearance.PublishOutcome` | internal/server/appearance.go:339-411 | publishing, whole: what refuses it, in order, the look and restore point stored, and the photos left |
| `Appearance.RestoreOutcome` | internal/server/appearance.go:413-436 | restoring, whole |
| `Appearance.DeleteOutcome` | internal/server/appearance.go:542-582 | deleting a photo, whole: refused exactly while a look shows it |
| `Appearance.FinishSpares` | internal/server/appearance.go:494-540 | a prune spares exactly the photos a look shows, those younger than a day and those whose removal fails |
| `Appearance.PublishThenRestore` | internal/store/setting.go:87-131 | publishing another look and restoring returns the earlier one, house look included, if and only if the column did not hold the JSON text null |
| `Appearance.RestoreTwice` | internal/store/setting.go:113-131 | restoring twice is the identity under the same condition |
| `Appearance.PublishReplacesWhatWasRead` | internal/server/appearance.go:339-411 | an accepted publish replaces exactly the look its editor read |
| `Appearance.PhotosStay` | internal/server/appearance.go:441-582 | in every run each photo named by the published look or the restore point is on disk |
| `Appearance.ReachableUndo` | internal/store/setting.go:87-131 | in every reachable state publish-then-restore is an undo and restore-restore the identity |
| `Appearance.Branding.BrandingInUse` | internal/server/appearance.go:494-511 | the nested loops collect exactly the photos of both looks |
| `Appearance.Branding.PruneBranding` | internal/server/appearance.go:513-540 | the loop removes exactly the unused photos older than the grace period |
| `Appearance.Branding.HandlePublish` | internal/server/appearance.go:339-411 | the statements refine publishing |
| `Appearance.Branding.HandleRestore` | internal/server/appearance.go:413-436 | the statements refine restoring |
| `Appearance.Branding.HandleDeletePhoto` | internal/server/appearance.go:542-582 | removes a photo exactly when no look uses it |
| `DataDirectory.AcceptedHoldsTheBaseline` | internal/store/dbstate.go:91-148 | in every run of boots, crashes, power failures, snapshots, restores, and backups and copies made where safe, at any stage and of any commit in the log, from any database, whatever the guard accepts, the present database, a snapshot or an earlier commit, holds everything the last recorded boot held, and the sidecar is never torn |
| `DataDirectory.BackUpIsSafeIff` | internal/store/store.go:251-306 | a pre-migration backup, or a copy of the file made at any stage, of the present database or without its log, never passes without the baseline, in any continuation, if and only if no image that can be brought back and is accepted is older than it; in particular at or behind the recorded generation, and whenever the server is up |
| `DataDirectory.UnsafeBackUpPasses` | internal/store/store.go:251-306 | otherwise there is a way to it: bring back the older image and boot |
| `DataDirectory.ServingHoldsTheBaseline` | main.go:66-84 | a server only serves on such a database, at the recorded generation |
| `DataDirectory.NoRestoreNoRefusal` | internal/store/dbstate.go:150-195 | with no restore and no power failure the guard never refuses, wherever boots crashed and whatever was backed up, copied or deleted |
| `DataDirectory.SameGenerationRestore` | internal/store/dbstate.go:91-148 | a restored snapshot, taken while serving, is accepted if and only if it is of the last recorded generation, and loses only rows committed since |
| `DataDirectory.SameGenerationRestoreGoesUnseen` | internal/store/dbstate.go:91-148 | a concrete run in which a committed row is lost to such a restore |
| `DataDirectory.EscapeHatchIsOneShot` | internal/store/dbstate.go:109-114 | deleting the sidecar accepts any database once; the next boot refuses older ones again |
| `DataDirectory.PowerLossRefuses` | internal/store/dbstate.go:150-157 | after a power failure the guard refuses if and only if the database fell back behind the recorded generation; what it accepts holds the baseline |
| `DataDirectory.PowerLossCanRefuse` | internal/store/dbstate.go:150-157 | a concrete run in which it refuses although nothing was restored |
| `DataDirectory.BackupCanPass` | internal/store/store.go:251-306 | a concrete run in which a pre-migration backup is accepted without the baseline |
| `DataDirectory.RollbackAcceptedIff` | internal/store/store.go:251-254 | the pre-migration backup, put back after an upgrade, is the database as it was, and the guard accepts it if and only if the upgrade failed before its boot was recorded; after that only once the sidecar is deleted |
| `DataDirectory.RollbackUntilRecorded` | internal/store/store.go:251-254 | however the upgrade goes, through crashes, failures and later boots, the backup is accepted if and only if no boot has been recorded since it was taken |
| `DataDirectory.RollbackRefused` | internal/store/store.go:251-254 | a concrete rollback that is refused |
| `DataDirectory.BootRecords` | main.go:66-84 | a whole boot on an accepted database serves, one generation on, with the sidecar to match |
| `DataDirectory.CrashWhileWriting` | internal/store/dbstate.go:197-247 | whenever a crash comes the old sidecar stays whole until the new one, synced, takes its place |
| `DataDirectory.Directory.VerifyDataDirectory` | internal/store/dbstate.go:115-148 | refuses exactly a failed read, a torn sidecar or an older database |
| `DataDirectory.Directory.RunMigrations` | internal/store/store.go:185-285 | backs up first when migrations are pending, and migrates nothing without the backup |
| `DataDirectory.Directory.WriteStateFile` | internal/store/dbstate.go:197-247 | write, sync and rename leave the trace of those steps, whichever fails |
| `DataDirectory.Directory.RecordDataDirectoryState` | internal/store/dbstate.go:150-195 | the header first, then the sidecar |
| `DataDirectory.Directory.StartUp` | main.go:66-84 | verify, migrate, record, whichever fails: a refused boot touches nothing, any other is a run of boot steps |

## Left out

- Publishing a draft beside a collecting round and starting a round with a failed draft lookup are outside the safety theorem's steps, because both can break its rules; `RoundAnomalies` gives the exact condition for each.
- The setup wizard, which may re-arm fired events and set a published round back to collecting: the rules do not hold through it.
- Round handlers that overlap one another in time: each runs as one step, as the single writer makes likely but does not enforce.
- Whether only due events are listed: `internal/store/scheduler.go:371-380` compares stored text with the present time in UTC, and openings are written in the loop's own zone, so it rests on how the driver writes times. The scheduler's list is taken to hold due events only.
- Questions stitched in while a round opens (`internal/server/actions.go:683-740`): they touch no status, date or event, and their numbering can have gaps when an insert fails.
- Real time zones with daylight saving, drift between two reads of the clock in one function, row-id reuse.
- Stale reads outside the event dispatcher: the digest's listing, the upload count and the appearance settings are taken as current. `UploadFiles.ZeroIsFinal` says what an older count is still good for.
- DataDirectory.AcceptedHoldsTheBaseline: about a sidecar nobody deletes and backups and copies made where that is safe, because it fails for others: `DataDirectory.EscapeHatchIsOneShot` says what a deletion does, and `DataDirectory.BackUpIsSafeIff` which backups and copies break it.
- DataDirectory.Directory.StartUp: takes the backup whether that is safe or not, as the code does.
- DataDirectory.ServingHoldsTheBaseline: holds for the same runs, and counts rows present at the last recorded boot, not rows an earlier same-generation restore had dropped.
- Whether a rename reaches the disk before the directory is synced.
- Orientation.ScaledFits: sizes only; resampling and JPEG coding are library code.
- PNG and WebP metadata, HEIC conversion, and the pixel limit on uploads.
- JpegExif.FindJpegExif: a read fails at one offset and from there on, so that the file ends there; a read that fails once and then works is not modelled.
- Journal block ids: a block is named by its page or day and its place, so two deletions of one block are two deletions of different blocks.
- Captions, covers and comments on snapshot blocks beyond being copied with the block.
- The wording of emails, the tokens in them, and the log rows of digest emails.
- Appearance.PublishReplacesWhatWasRead: for a revision fingerprint that tells the look read from the look stored; a truncated hash can collide.
- The operator's switch over appearance, membership, notification preferences, comments, bank maintenance, exports, HTTP and HTML: plumbing around the modelled state.
- Colour computations in `internal/theme/color.go`: floating point.
