# Verified model of RailServe

RailServe delivers food to train passengers: orders come in by email, kitchens cook them, riders
carry them to the platform. This project models the parts of it that are hard to get right by
reading them, and proves what they promise for all inputs and all runs. `dafny verify
dfyconfig.toml` checks the whole of it.

| file | models |
|---|---|
| LocationSharing, LocationBuffer, LocationModule | the rider's position sharing (mobile/src/location.ts) as a protocol over its awaits, with the phone's task as a separate party; the buffer of unsent fixes; the module's functions as methods of a class |
| MutationQueue, QueueProtocol | the offline write queue (mobile/src/storage.ts, mobile/src/api.ts): one flush against an adversarial network, and the whole protocol of phone, network and server |
| Runs, CallBoard, Sorting | train runs, their order, and the call board's sections (src/lib/runs.ts, src/lib/callBoard.ts) |
| Calendar, ServiceDates, DateFilter, Board | dates and instants in IST (src/lib/format.ts, activity.ts, riderRecords.ts, dateFilter.ts), and what the boards call today (src/lib/board.ts, liveDay.ts) |
| OrderStatus | the order state machine with its roles (src/lib/orderStatus.ts, rto.ts) |
| StationMigration, ListingMigration | the two database migrations in scripts/ |
| Arrival, Inbox | arrival records and bookings (src/lib/arrival.ts), the admin inbox's filters (src/lib/inbox.ts) |
| Options, Text, Places | optional values; strings; places in a list |

## How the code is modelled

**Position sharing.** Each call in flight is a process that runs from one await to the next. A call
to the operating system takes effect at a point of its own (`Carry`), after it was made and before
its caller hears of it (`Resume`). Starts, stops, sends, wake-ups and a death of the app may
interleave in any way. `LocationModule.Sharing` holds the module's variables, and each of its
methods is proved to take exactly the step that the state machine takes and to add it to a trace, so
that what is proved of runs holds of the variables (`SignedOutIsUntracked`).

**The queue.** `MutationQueue.Store` is the stored queue with the module's own functions; a request
may end in answers, in no signal or in an error, and more may be queued while it is out.
`QueueProtocol` splits `enqueue` and `removeFromQueue` into their load and their write, lets any
number of them and of flushes overlap, and lets requests arrive late, twice or never. The server
reports an effect it already had as such (README.md:216-222 of the repository).

**Where the code and its comments differ**, the code is modelled:

- A stop that the system refuses leaves the task registered, since the refusal is swallowed
  (mobile/src/location.ts:232-235 says there is nothing left running). A sign-out is safe from any
  such failure exactly when there was no task and none was being registered: `TaskStaysGoneExactly`,
  with `RefusedUnregistrationLeavesTask` and `RejectedRegistrationLeavesTask` as witnesses.
- A repeated start is said to be a no-op (mobile/src/location.ts:269-270); it restarts the task, and
  until that is over it is one of the calls that can cost a session its registration:
  `RegistrationSurvivesExactly`.
- What a stop forgets (mobile/src/location.ts:376) can come back, in the builds riders use as in Expo
  Go: `BufferStaysForgottenExactly`, `LateFailureReachesNextSession`, `LateWakeReachesNextSession`.
- A failed send is said to keep the newest fixes (mobile/src/location.ts:176). Where two sends overlap
  and the older one settles first, it is newer ones that are dropped:
  `OverlappingFailuresKeepOrderExactly`, `OlderFirstDropsNewer`.
- A flush sends in batches of 100, not in one (mobile/src/api.ts:105-109), and an error status in a
  later batch hides the refusals of the earlier ones: `ThrowAccountsExactly`.
- scripts/migrate-aggregator-listings.ts calls itself idempotent (23-24). A finished run is
  (`SecondRunChangesNothing`). A run that stops between the storefronts and the staff is not: started
  again, it takes the storefronts it has retired for dead rows and drops them from the staff who
  held them (`SightAfterRerunExactly`, `StoppedRunLosesSight`).
- `utcToIstLocal` undoes `istLocalToUtc` (src/lib/format.ts:37) unless midnight was written as
  24:00 or the month lacks the day: `LocalShowsBackExactly`. Likewise `ShiftBackUndoesExactly`.
- A run key reads back as its order unless a train is numbered NOTRAIN or LOCAL:
  `KeyRoundTripsExactly`.

## Model

| member | source | states |
|---|---|---|
| LocationSharing.NobodyTrackedAfterSignOut | mobile/src/location.ts:78-88 | Whatever was in flight at a sign-out, and in whatever order its steps and the system's fall, the send timer and the placed watcher are gone at once, and, the system doing what it is asked, no task, timer or watcher is left when the starts and stops have run out |
| LocationSharing.TaskStaysGoneExactly | mobile/src/location.ts:222-390 | In either build and whatever is in flight, when the system may refuse or fail anything: that no task is left once the calls have run out is certain if and only if, at the sign-out, there was no task and no start was having one registered |
| LocationSharing.CallsRunOut | mobile/src/location.ts:272-390 | Along every run of any steps at all, a call in flight moves at most sixteen times before it has ended |
| LocationSharing.CallsGetOn | mobile/src/location.ts:272-390 | A start or a stop in flight is never stuck: the step it waits for brings it nearer its end |
| LocationSharing.EveryRunCanSettle | mobile/src/location.ts:272-390 | From every state the starts and stops in flight can run out, by steps that they wait for |
| LocationSharing.StartComesTo | mobile/src/location.ts:272-373 | By its own steps and whatever else was there, a start that was turned down, by the rider or by the system, ends in denial with nothing switched on; any other ends, the permission granted and location on, with sharing on: the state saying so, one timer with the rider's token (or the one already set), and the watcher live or the task registered |
| LocationSharing.StartSharesWhenAllowed | mobile/src/location.ts:272-367 | With every answer yes and the system doing as asked, a start that has ended has sharing on |
| LocationSharing.StartCanFinish | mobile/src/location.ts:272-367 | From every state a new start can come to that end |
| LocationSharing.QuestionsComeInTurn | mobile/src/location.ts:276-309 | The rider is asked for the permission only where it is missing, then to switch location on, then for the background; a no to either of the first two ends the start in denial |
| LocationSharing.LooksBeforeUnregistering | mobile/src/location.ts:228-235 | In every step of any call, the task is unregistered only after the system has said that it is there, and what the system is said to have done it has done |
| LocationSharing.NothingIsHeardEarly | mobile/src/location.ts:222-373 | No call goes on before the system has answered it |
| LocationSharing.RefusalEndsTheCall | mobile/src/location.ts:232-235 | A refusal ends stopLocationTask and the call that ends with it, and changes nothing else |
| LocationSharing.SendsShowTheirOutcome | mobile/src/location.ts:147-180 | What a settled send leaves in the buffer and in the state shown |
| LocationSharing.DeathLeavesTaskAndSession | mobile/src/location.ts:120-131 | When the process dies, the registered task and the stored session are what is left |
| LocationSharing.WakePostsForTheSession | mobile/src/location.ts:137-148 | A wake-up posts its own fixes for the rider signed in when it looks, or goes on to unregister the task |
| LocationSharing.HeadlessWakeUnregisters | mobile/src/location.ts:137-144 | A restarted process that is woken with nobody signed in ends with the task unregistered |
| LocationSharing.WfRun | mobile/src/location.ts:238-390 | Every run keeps: the buffer within its bound, a start never from a later generation than the current one, each live watcher held by the module or by the start that asked for it, and each build on its own mechanism |
| LocationSharing.RefusedUnregistrationLeavesTask | mobile/src/location.ts:228-235 | A witness of a task that stays: refused at the first lookup, a stop leaves it with nothing in flight that would try again |
| LocationSharing.RefusalLeavesTaskExactly | mobile/src/location.ts:228-235 | Such witnesses for one stop alone: its own steps leave the task registered if and only if the system refused before it had unregistered, at whichever stage |
| LocationSharing.RejectedRegistrationLeavesTask | mobile/src/location.ts:336-372 | A second witness: a registration that took effect and was then rejected leaves the task, with no cleanup |
| LocationSharing.OvertakenStartIsInert | mobile/src/location.ts:275-372 | A start overtaken by a stop, going on or rejecting, changes no timer, watcher, buffer, state or registration by its own step |
| LocationSharing.TimerUsesLatestSession | mobile/src/location.ts:361-367 | After a sign-out the timer sends with the token of the session begun since, whatever is still in flight |
| LocationSharing.SendsUseLatestSession | mobile/src/location.ts:167-181 | So does every send begun since, by the timer or on coming to the foreground |
| LocationSharing.RegistrationSurvivesExactly | mobile/src/location.ts:328-363 | Under a session that is on, the task stays registered for every continuation if and only if no call in flight is a stop yet to look, a repeated start, an overtaken start yet to clean up, or a wake-up that found no session |
| LocationSharing.ThreatStrikes | mobile/src/location.ts:328-363 | From each such call there is a continuation that unregisters the session's task |
| LocationBuffer.IdleBufferIsNewestUnsent | mobile/src/location.ts:147-181 | In either build, with one send of the buffer at a time, the idle buffer is the newest 120 of everything that went to it, from the watcher or from wake-ups that could not post, since the last send that got through, in order, however many sends failed |
| LocationBuffer.BufferIsBounded | mobile/src/location.ts:154-178 | With any number of sends in flight neither the buffer nor a batch exceeds 120 |
| LocationBuffer.NewestOfParts | mobile/src/location.ts:178 | Cutting a part to the newest 120 first does not change which are kept in the end |
| LocationBuffer.OverlappingFailuresKeepOrderExactly | mobile/src/location.ts:167-181 | When two overlapping sends fail, with any fixes arriving between the two failures, the newest fixes are kept in order if and only if the newer send fails first or the buffer has filled up behind them |
| LocationBuffer.OlderFirstDropsNewer | mobile/src/location.ts:175-178 | Settled older send first, into an empty buffer, every older fix goes back and the newer ones only as far as there is room |
| LocationBuffer.BufferStaysForgottenExactly | mobile/src/location.ts:132-181 | In either build, what a stop forgot stays forgotten and the state stays off for every continuation without a new start if and only if the task is not registered, no send and no wake-up that may post is in flight, and no overtaken start holds or awaits a watcher or awaits its registration |
| LocationBuffer.LateFailureReachesNextSession | mobile/src/location.ts:167-181 | In either build, a send that fails after the stop hands the ended session's fixes to the next session's first send, under that session's token |
| LocationBuffer.LateWakeReachesNextSession | mobile/src/location.ts:147-155 | So does a wake-up of the task that fails to post after the stop, in the builds that have the task |
| LocationModule.Sharing.constructor | mobile/src/location.ts:72-88 | A fresh process begins with no timer, watcher, fixes or calls, whatever the phone still has registered; its trace of steps is empty |
| LocationModule.Sharing.Environment | mobile/src/location.ts:222-236 | What the phone does by itself, and the saving and clearing of the session, are steps of the same trace |
| LocationModule.StateIsWellFormed | mobile/src/location.ts:72-88 | Whatever was called and answered since the process began, the variables satisfy the protocol's invariant and the buffer its bound |
| LocationModule.SignedOutIsUntracked | mobile/src/location.ts:78-88 | After any trace with a sign-out and no start since, the module's own variables hold no timer and no watcher, and nothing is registered or live once the starts and stops have run out |
| LocationModule.TimerIsTheSessions | mobile/src/location.ts:361-367 | After a sign-out the module's timer, if set again, holds the token of the session begun since |
| LocationModule.Sharing.StartSharing | mobile/src/location.ts:272-276 | A new start is in flight, with the generation it began in |
| LocationModule.Sharing.ResumePermissions | mobile/src/location.ts:276-309 | The step the state machine takes after each of the questions about permissions and services |
| LocationModule.Sharing.ResumeSetUp | mobile/src/location.ts:311-364 | The step after the watcher runs, the channel is there or the task is registered |
| LocationModule.Sharing.ResumeUnregistering | mobile/src/location.ts:328-364 | The step within the unregistration that precedes registering, or that cleans up |
| LocationModule.Sharing.FinishStart | mobile/src/location.ts:360-367 | The end of a start: overtaken, it goes on to clean up; current, it sets the state and the one timer |
| LocationModule.Sharing.RejectStart | mobile/src/location.ts:368-372 | A rejected start reports denial only to its own session |
| LocationModule.Sharing.DropWatcher | mobile/src/location.ts:223-227 | The current watcher and no other is removed |
| LocationModule.Sharing.StopSharing | mobile/src/location.ts:382-390 | The generation moves on, timer and buffer go, and the unregistration is under way |
| LocationModule.Sharing.ResumeStop | mobile/src/location.ts:228-235 | The step within a stop's unregistration |
| LocationModule.Sharing.Flush | mobile/src/location.ts:167-173 | The buffer is taken for one send, or nothing happens when it is empty |
| LocationModule.Sharing.FlushNow | mobile/src/location.ts:392-398 | Coming to the foreground flushes with the session's token |
| LocationModule.Sharing.Tick | mobile/src/location.ts:367 | The timer's callback flushes with the timer's token |
| LocationModule.Sharing.SettleFlush | mobile/src/location.ts:172-180 | A send's success reports sharing; its failure puts the newest fixes back, oldest first |
| LocationModule.Sharing.TaskWakes | mobile/src/location.ts:132-137 | A wake-up with fixes begins; one without does nothing |
| LocationModule.Sharing.ResumeWakeUp | mobile/src/location.ts:137-148 | With a session the wake-up posts, without one it unregisters |
| LocationModule.Sharing.SettleWakeUp | mobile/src/location.ts:147-155 | Fixes that a wake-up could not post go to the end of the buffer |
| LocationModule.Sharing.WatcherCallback | mobile/src/location.ts:315-317 | A fix joins the end of the buffer |
| MutationQueue.Store.Enqueue | mobile/src/storage.ts:73-77 | The mutation joins the end of the stored queue |
| MutationQueue.Store.RemoveFromQueue | mobile/src/storage.ts:79-83 | Exactly the entries with a given id go; the rest keep their order |
| MutationQueue.Store.FlushQueue | mobile/src/api.ts:117-164 | How a flush ends, on every path: after which answers, with which queue stored, returning or throwing what; and that its requests carry the batches in order |
| MutationQueue.Store.QueueAndFlush | mobile/src/api.ts:167-173 | It ends, and sends, as the flush of the queue with the mutation added |
| MutationQueue.Store.QueueManyAndFlush | mobile/src/api.ts:181-187 | It ends, and sends, as one flush of the queue with all the mutations added in order |
| MutationQueue.NewlyRejected | mobile/src/api.ts:148-154 | The refusals to report are those settled and not applied, with the kind of the last entry queued under the id |
| MutationQueue.BatchesCoverQueue | mobile/src/api.ts:127-139 | The batches cover the queue in order without gap or overlap, none empty or over 100, all but the last full |
| MutationQueue.RequestsCoverQueue | mobile/src/api.ts:127-139 | What a flush's requests carry, joined, is the front of the queue in order and each mutation once, and the whole queue when every request was answered |
| MutationQueue.StoredIsKept | mobile/src/api.ts:141-144 | After any number of answers the stored queue is the snapshot without what they settled, in order, ahead of what was queued meanwhile |
| MutationQueue.KeepHoldsTheRest | mobile/src/storage.ts:81-82 | What is kept is the entries with no dropped id, each as often as it was there and in order |
| MutationQueue.FlushLeaves | mobile/src/api.ts:127-163 | However a flush ends, what is left is the queue without what was settled, in order, ahead of all that was queued meanwhile, the last request's time included |
| MutationQueue.ReportsNameTheRejected | mobile/src/api.ts:148-154 | The reports name exactly the refused ids |
| MutationQueue.CountAppliedCounts | mobile/src/api.ts:146-147 | The counts are the numbers of places with an applied and with a not applied answer |
| MutationQueue.ReportsTellTheRefusals | mobile/src/api.ts:150-154 | Each refusal is reported once, in order, with the kind queued under its id and the server's reason, or "Refused" |
| MutationQueue.KindIsOfTheLast | mobile/src/api.ts:124 | The kind is that of the mutation queued last under the id |
| MutationQueue.ReturnAccountsForEveryDrop | mobile/src/api.ts:146-160 | On every return, offline midway included, what is left is the queue without the applied and the reported, in order, ahead of what was queued meanwhile; `remaining` is its length, `synced` is how many answers say applied and `failed` how many say not |
| MutationQueue.ThrowAccountsExactly | mobile/src/api.ts:127-163 | Whatever the network answers, a flush that throws has accounted for all it dropped, if and only if the queue fits into one batch; for every longer queue some answers make it hide a refusal |
| MutationQueue.LongQueueMayHideRefusal | mobile/src/api.ts:158-163 | For every queue of more than one batch, answers under which the flush throws past a refusal |
| QueueProtocol.NothingLostNothingDoubled | mobile/src/storage.ts:54-57 | Over every interleaving of enqueues, overlapping flushes, lost, late and repeated requests: while no write was based on an overtaken load, each mutation ever queued is still stored or finally answered. That each takes effect at most once rests on the replay-safe server, which is assumed |
| QueueProtocol.AtomicQueueLosesNothing | mobile/src/storage.ts:73-83 | With `enqueue` and `removeFromQueue` as one step each, nothing is ever lost |
| QueueProtocol.AtomicRunNeverStale | mobile/src/storage.ts:73-83 | When each load is followed at once by its write, no write is ever based on an overtaken load |
| QueueProtocol.WriteCoversExactly | mobile/src/storage.ts:73-83 | A write keeps everything covered if and only if what it overwrites was loaded by it or is finally answered |
| QueueProtocol.NothingEverLostExactly | mobile/src/storage.ts:73-83 | Over a whole run, nothing queued is missing at any moment if and only if each write overwrites only what it had loaded or what is finally answered |
| QueueProtocol.OverlappingEnqueuesLoseOne | mobile/src/storage.ts:73-77 | Two enqueues that overlap between load and write lose the first one written |
| QueueProtocol.EffectsInQueueOrder | mobile/src/api.ts:117-164 | When the server settles what it is asked and no write was stale, effects happen in the order of queueing, even with overlapping flushes and repeated requests |
| QueueProtocol.RetryReorders | mobile/src/api.ts:141-144 | One retryable answer is enough for a later mutation to take effect before an earlier one |
| QueueProtocol.RetryReordersFromStart | mobile/src/api.ts:141-144 | A run from the start, without a stale write, on which this happens |
| QueueProtocol.QueueDrains | mobile/src/api.ts:105-109 | From every state at all, whatever is under way and whichever mutations the server applies or refuses, one flush that gets through empties the queue: nothing can wedge it |
| QueueProtocol.EveryMutationIsAnswered | mobile/src/storage.ts:54-57 | So as long as no write was stale, every mutation queued so far can get its final answer |
| QueueProtocol.FlushesEndQuietly | mobile/src/api.ts:118-160 | A flush of an empty queue sends nothing, and one that gets no answer ends and leaves all else as it was |
| Sorting.SortPermutes | src/lib/runs.ts:167 | Sorting keeps exactly the elements |
| Sorting.SortSorts | src/lib/runs.ts:167-208 | Sorting by a weak order leaves no pair the wrong way round |
| Sorting.SortIsStable | src/lib/runs.ts:182 | Elements that tie keep their order |
| Sorting.StableSortIsUnique | src/lib/runs.ts:167-208 | Every stable sort by a weak order gives this same result |
| Runs.GroupIntoRuns | src/lib/runs.ts:171-211 | Grouping with a map and sorting in place yields the runs of the specification below |
| Runs.BuildRuns | src/lib/runs.ts:180-206 | The loop over the map's entries yields one run per key, in the order the keys came |
| Runs.CountStatuses | src/lib/runs.ts:184-185 | The loop's counts are the counts of each status |
| Runs.RunsPartitionOrders | src/lib/runs.ts:170-211 | The runs' orders together are a permutation of the input |
| Runs.RunHoldsItsKey | src/lib/runs.ts:172-182 | A run holds every order with its key and no other, sorted by coach, ties in their first order |
| Runs.RunNamesItsOrders | src/lib/runs.ts:194-201 | A run's header and its key agree with every order on it |
| Runs.TogetherExactlyWhenKeysAgree | src/lib/runs.ts:42-45 | Two orders share a run if and only if their keys are equal |
| Runs.RunsHaveDistinctKeys | src/lib/runs.ts:172-181 | No key has two runs |
| Runs.RunCountsStatuses | src/lib/runs.ts:184-185 | A run lists exactly the statuses its orders have, each with its number |
| Runs.RunTakesEarliestArrival | src/lib/runs.ts:187-192 | A run's arrival is the earliest its orders know, and unknown only when none knows one |
| Runs.RunsComeSoonestFirst | src/lib/runs.ts:208 | Runs stand soonest first, unknown arrivals last |
| Runs.ByCoachIsWeakOrder | src/lib/runs.ts:72-87 | The coach comparator is a weak order, so that sorting by it means something |
| Runs.CoachesCompareByLetterThenNumber | src/lib/runs.ts:62-87 | Labels compare by their letters, and under the same letters by the value of the number they print |
| Runs.CoachIgnoresCaseAndBlanks | src/lib/runs.ts:78-81 | Neither case nor blanks around a label make a difference |
| Runs.RunWalksByCoach | src/lib/runs.ts:62-87 | Along a run the letters ascend, under each letter the numbers, and orders without a coach come last |
| Runs.RunNamesItsTrain | src/lib/runs.ts:194-199 | A run of train orders bears the first train name on it, a run of local orders none |
| Runs.ByRunArrivalIsWeakOrder | src/lib/runs.ts:111-116 | So is the comparator by arrival |
| Runs.KeyRoundTripsExactly | src/lib/runs.ts:42-60 | A key reads back as the order's train, date and station if and only if the train is not numbered NOTRAIN or LOCAL |
| Runs.KeysReadExactly | src/lib/runs.ts:47-60 | A key reads as something if and only if it has three parts, a date in the middle and a station at the end; what it reads as |
| Runs.KeysIdentify | src/lib/runs.ts:42-60 | Apart from those, two keys are equal if and only if train, date and station are |
| CallBoard.ByUrgencyIsWeakOrder | src/lib/runs.ts:138-144 | The urgency comparator is a weak order at every clock reading |
| CallBoard.SectionsHoldWhatTheySay | src/lib/callBoard.ts:97-113 | Each section holds the arrivals its heading names: within the hour, in one to three hours, later, already there, unknown |
| CallBoard.UrgencyRespectsSections | src/lib/callBoard.ts:94-113 | A run that may stand before another is in the same section or an earlier one |
| CallBoard.SortedRunsFollowSections | src/lib/callBoard.ts:94-95 | Sorting by urgency permutes the runs and puts the sections in display order |
| CallBoard.SectionsAreContiguous | src/lib/callBoard.ts:105-113 | Each section is one unbroken stretch of the sorted list |
| CallBoard.SectionsReadOutwardFromNow | src/lib/runs.ts:128-144 | Trains to come first, soonest first; then those that came, latest first; unknown last |
| Calendar.YearStartIsDayFromYear | src/lib/format.ts:22 | Counting days year by year agrees with the closed form of section 21.4.1 of ECMA-262 |
| Calendar.MonthsStartAsListed | src/lib/dateFilter.ts:25 | The months begin on the days that section 21.4.1 of ECMA-262 lists |
| Calendar.CivilRoundTrips | src/lib/format.ts:20-24 | Dates and day numbers undo each other |
| Calendar.DayNumbersOrderDates | src/lib/format.ts:20-24 | Day numbers order dates by year, month and day |
| ServiceDates.DatesRoundTrip | src/lib/format.ts:14-17 | A 'YYYY-MM-DD' string reads as a date if and only if the date is written as that string |
| ServiceDates.DaysReadExactly | src/lib/format.ts:21 | Which strings read as a day, and as which |
| ServiceDates.TextOrderIsDateOrder | src/lib/inbox.ts:63 | Date strings compare as text exactly as the dates do in time |
| ServiceDates.ShiftAddsDays | src/lib/format.ts:19-24 | A shift by n gives the date n days after the day read, through the UTC calendar and back |
| ServiceDates.ShiftsAdd | src/lib/format.ts:19-24 | Two shifts are one shift by the sum |
| ServiceDates.ShiftBackUndoesExactly | src/lib/format.ts:19-24 | A shift back undoes a shift if and only if the date it began from is one of the calendar (2026-02-30 is read as 2 March) |
| ServiceDates.DayRangesAgree | src/lib/riderRecords.ts:82-88 | The range of one day is the same from both functions that name it |
| ServiceDates.RangeHoldsDaysRead | src/lib/activity.ts:170-175 | An instant is in the range of two days, as V8 reads them, if and only if its IST day lies between them |
| ServiceDates.RangeHoldsItsDays | src/lib/activity.ts:170-175 | For dates of the calendar, an instant is in the range if and only if its IST date lies between them as text |
| ServiceDates.DaysTileTime | src/lib/riderRecords.ts:82-88 | Each instant is in exactly one day's range, that of the date `todayIST` gives |
| ServiceDates.LocalReadsBack | src/lib/format.ts:26-49 | An instant shown in a field and read back loses only what lies below the minute |
| ServiceDates.LocalTimesExactly | src/lib/format.ts:30-35 | Which 16-character values are instants, 24:00 being the midnight after |
| ServiceDates.LocalShowsBackExactly | src/lib/format.ts:26-49 | A field's value turned into an instant shows as itself if and only if the calendar has its day and it does not write midnight as 24:00 |
| DateFilter.LastDayIsMonthLength | src/lib/dateFilter.ts:25 | Day 0 of the next month is the last day of this one, leap years included |
| DateFilter.MonthBoundsHoldTheMonth | src/lib/dateFilter.ts:22-27 | A month's bounds contain exactly the dates of that month |
| DateFilter.ModesShow | src/lib/dateFilter.ts:35-64 | Each mode's range contains exactly the dates it is meant to show |
| Board.TodayMatches | src/lib/board.ts:42-49 | Which orders Today shows, by day number, status and arrival |
| Board.YesterdayMatches | src/lib/board.ts:55-62 | Which orders Yesterday shows |
| Board.UpcomingMatches | src/lib/repo/runRepo.ts:51-65 | Which orders Upcoming shows |
| Board.NeverOnTwoBoards | src/lib/board.ts:51-54 | No order is on two boards, whatever statuses each is asked for |
| Board.RecentOrdersAreOnABoard | src/lib/board.ts:31-62 | Asked for every status, the two boards together show exactly the orders of the two dates |
| Board.TodayIsAmongLiveDates | src/lib/liveDay.ts:56-63 | What Today shows was booked for one of the live service dates |
| Board.LiveDatesExactly | src/lib/liveDay.ts:56-63 | A date is one of the live service dates if and only if some order of it can be on Today |
| Board.RolloverIsTheSmallHours | src/lib/liveDay.ts:14-54 | The window is the six hours from midnight in IST, and the cutoff four hours back |
| Board.LiveIsThePipeline | src/lib/repo/runRepo.ts:10-13 | The live statuses are those of the shared pipeline |
| Board.StageByDay | src/lib/board.ts:21-62 | Where an open order stands, from its date and the clock alone |
| Board.OrdersNeverMoveBack | src/lib/liveDay.ts:14-54 | As the clock advances an open order goes Upcoming, Today, Yesterday, nowhere, and never back |
| OrderStatus.AllowedIsEdge | src/lib/orderStatus.ts:55-143 | The table, read target by target instead of source by source |
| OrderStatus.TerminalIsTheEnd | src/lib/orderStatus.ts:134-154 | In every run no step leaves a terminal status, and none reaches ENQUIRY or RATING_ORDER |
| OrderStatus.DeliveredRunsKeepThePipeline | src/lib/orderStatus.ts:73-132 | Every run from RECEIVED to DELIVERED passes ACCEPTED, KOT_PRINTED and PREPARED in that order, whatever its put-backs, and is not closed by the role that accepted it |
| OrderStatus.RunLengthBound | src/lib/orderStatus.ts:123-132 | A run with k put-backs has at most 7 + 2k steps |
| OrderStatus.RunLengthBoundIsMet | src/lib/orderStatus.ts:55-132 | For every k some run has that many |
| OrderStatus.EdgeRaisesRank | src/lib/orderStatus.ts:55-143 | Every step but the put-back moves down the pipeline |
| OrderStatus.RequestStaysAnswerable | src/lib/orderStatus.ts:219-236 | After a cancellation request, wherever the order has got to, a role may cancel if and only if it may decide the request and the order has not ended |
| OrderStatus.AskingExactly | src/lib/orderStatus.ts:219-231 | A role may ask for a cancellation if and only if it is a store manager's and the order is in the shared pipeline |
| OrderStatus.ReturnOpensExactly | src/lib/rto.ts:16-27 | A legal step opens a return if and only if it ends an order in the rider's hands other than as delivered, misdelivered or refunded |
| OrderStatus.ReturnOpensOnlyAtTheEnd | src/lib/rto.ts:16-27 | Only the last step of a run can open a return, and only out of the rider's hands |
| StationMigration.Commonest | scripts/migrate-station-printing.ts:40-52 | The two loops compute the best over the distinct values in insertion order |
| StationMigration.CommonestIsFirstMostFrequent | scripts/migrate-station-printing.ts:39-52 | The result is the most frequent value, the first of those as frequent, and none only for no values |
| StationMigration.Database.MigrateStationPrinting | scripts/migrate-station-printing.ts:54-125 | The whole new state and the report |
| StationMigration.Database.MigrateStations | scripts/migrate-station-printing.ts:66-108 | The loop over the codes yields the stations, creations, adoptions and warnings of the specification |
| StationMigration.Database.MigrateStation | scripts/migrate-station-printing.ts:67-107 | One code: one station created, given a token or left |
| StationMigration.Database.BackfillJobs | scripts/migrate-station-printing.ts:110-122 | Each job without a code takes its outlet's, or is counted an orphan |
| StationMigration.LiveTokensAreKept | scripts/migrate-station-printing.ts:21-22 | A station that had a token is left exactly as it was |
| StationMigration.TokenChangesExactly | scripts/migrate-station-printing.ts:92-107 | A token is set if and only if there was none and one active outlet there, with no other, holds one; it is that outlet's |
| StationMigration.NewStationIsNamed | scripts/migrate-station-printing.ts:94-99 | A new station's name is the one its outlets give most often |
| StationMigration.NamesAreGiven | scripts/migrate-station-printing.ts:67-68 | The names counted for a station are those its outlets give, each as often as given and in order |
| StationMigration.StationsKeepTheirNames | scripts/migrate-station-printing.ts:102-107 | A station that was there keeps its name |
| StationMigration.ReportNamesExactly | scripts/migrate-station-printing.ts:100-106 | A code is reported as created, or as adopting a token, if and only if its station was not there, or took a token |
| StationMigration.WarningsAreExact | scripts/migrate-station-printing.ts:75-90 | A warning is there if and only if several active outlets hold tokens, and says how many, or outlets disagree on the name, and says the commonest |
| StationMigration.JobsTakeTheirOutletsCode | scripts/migrate-station-printing.ts:110-122 | Jobs stay in place; one without a code takes the code of its own outlet if that has one, and no other job changes |
| StationMigration.BackfillIsCounted | scripts/migrate-station-printing.ts:114-121 | The two numbers reported are how many jobs without a code have an outlet with one, and how many have not |
| StationMigration.StationsAreComplete | scripts/migrate-station-printing.ts:64-99 | Afterwards the stations are the old ones and those some outlet trades at |
| StationMigration.JobsSettle | scripts/migrate-station-printing.ts:110-122 | Backfilling twice is backfilling once |
| StationMigration.SecondRunChangesNothing | scripts/migrate-station-printing.ts:21-22 | A second run changes no station and no job and reports nothing done but the same orphans |
| ListingMigration.Database.Migrate | scripts/migrate-aggregator-listings.ts:48-203 | Which check refuses; what is left unchanged by a dry run and by each refusal; the whole new state of a run that goes through |
| ListingMigration.Database.SetDefaults | scripts/migrate-aggregator-listings.ts:93-106 | The defaults are written one by one up to the first with no outlet; tokens stay |
| ListingMigration.Database.MoveStorefronts | scripts/migrate-aggregator-listings.ts:109-155 | The loop over the storefronts, each with listing, orders and retirement |
| ListingMigration.Database.Rescope | scripts/migrate-aggregator-listings.ts:174-189 | One user's new scope, in order and without repeats |
| ListingMigration.Database.RescopeUser | scripts/migrate-aggregator-listings.ts:173-198 | A scope is written unless it holds the same ids in the same number |
| ListingMigration.Database.RescopeStaff | scripts/migrate-aggregator-listings.ts:157-199 | Every user's scope becomes the specified one |
| ListingMigration.OrdersFollowTheKitchen | scripts/migrate-aggregator-listings.ts:148-150 | An order goes to the outlet behind its storefront; every other order is untouched |
| ListingMigration.RowsOnlyRetire | scripts/migrate-aggregator-listings.ts:151-153 | Rows keep place and content; exactly the storefronts that found an outlet are deactivated |
| ListingMigration.StorefrontsAreListed | scripts/migrate-aggregator-listings.ts:126-147 | The listings there were stay in front; every storefront that moved is listed at its station; each new listing is of one such storefront, with its name and aliases, points at the kitchen its orders go to, names the aggregator they all came from or none, and is the only one of its name there |
| ListingMigration.TargetIsTheFirst | scripts/migrate-aggregator-listings.ts:114-119 | The outlet behind a storefront is the first active kitchen in the list at the station, of the default's name if the station has one |
| ListingMigration.NormIsTheWords | scripts/migrate-aggregator-listings.ts:46 | Names are compared by their words in capitals: neither case nor blanks make a difference, and nothing else is lost |
| ListingMigration.ChecksPassExactly | scripts/migrate-aggregator-listings.ts:49-97 | When the checks let a run through, and what each refusal says |
| ListingMigration.DefaultsAreSet | scripts/migrate-aggregator-listings.ts:93-106 | Each station named gets its outlet by default, an active kitchen there of the given name; tokens and all other stations stay |
| ListingMigration.NoTokenIsStranded | scripts/migrate-aggregator-listings.ts:78-91 | No storefront is retired with its station's only print token |
| ListingMigration.RetiredHoldNoOrders | scripts/migrate-aggregator-listings.ts:23-24 | No order points at a retired storefront afterwards |
| ListingMigration.ScopeHolds | scripts/migrate-aggregator-listings.ts:174-190 | A user's scope afterwards, written or left, has no repeats and is as a set what its ids become |
| ListingMigration.SightIsKeptExactly | scripts/migrate-aggregator-listings.ts:121-187 | An order a user could see stays visible if and only if its row exists and, if that is a storefront, an outlet cooks for it |
| ListingMigration.NobodyLosesSight | scripts/migrate-aggregator-listings.ts:157-199 | With an outlet for every storefront and a row for every id in a scope, nobody loses sight of any order |
| ListingMigration.SecondRunChangesNothing | scripts/migrate-aggregator-listings.ts:23-24 | After a finished run the checks pass again and a second run changes nothing |
| ListingMigration.RerunCompletesTheListing | scripts/migrate-aggregator-listings.ts:109-155 | A run stopped at any storefront and started again ends with the listings, orders, rows and stations of one run |
| ListingMigration.StoppedRunPassesChecks | scripts/migrate-aggregator-listings.ts:66-106 | Wherever among the storefronts a run has stopped, the checks let it start again |
| ListingMigration.HalfDoneRowResumes | scripts/migrate-aggregator-listings.ts:136-154 | So does one stopped between the three writes of a storefront |
| ListingMigration.SightAfterRerunExactly | scripts/migrate-aggregator-listings.ts:163-187 | After such a stop and a second run, a user sees an order if and only if their scope held a row, not yet retired at the stop, with the order's kitchen behind it |
| ListingMigration.StoppedRunLosesSight | scripts/migrate-aggregator-listings.ts:163-178 | So someone scoped to a storefront that was already retired loses its orders, which one run would have kept |
| ListingMigration.StopAmongStaff | scripts/migrate-aggregator-listings.ts:173-199 | A run stopped anywhere in the staff loop and started again keeps the scopes it had written; every other user fares as after a stop just before the loop |
| Arrival.ClosedRecordIsFrozen | src/lib/arrival.ts:22-33 | A closed order's record depends on no live reading and no clock, and only an open one is expected or arrived |
| Arrival.RecordFollowsThePhase | src/lib/arrival.ts:26-33 | For each phase of an order, which time the record shows, how certain it is, whether it is past due, how old the reading is and whether it is measured against the booking |
| Arrival.RescheduleKeepsTheBooking | src/lib/arrival.ts:84-88 | A reschedule moves the time shown, never the booking it is measured against |
| Arrival.MoveShowsExactly | src/lib/arrival.ts:140-148 | From how many milliseconds a move counts as later, and from how many as earlier, rounding included |
| Arrival.ReschedulingMovesOneDay | src/lib/arrival.ts:171-176 | A booking is moved if and only if the railway has the train under six hours away on another day; it lands on the adjacent day, and a second time does nothing |
| Arrival.RunBookingIsEarliest | src/lib/arrival.ts:193-209 | The booking is the earliest not long gone, else the earliest, else none |
| Arrival.RunBookingIgnoresOrder | src/lib/arrival.ts:206-209 | It depends on which bookings there are, not on their order |
| Inbox.ReadPrinted | src/lib/inbox.ts:58-86 | Reading a printed filter changes nothing but white space at the end of `q` |
| Inbox.RoundTripsExactly | src/lib/inbox.ts:45-86 | For any raw input the filter survives the trip through the URL if and only if the cut to 200 characters did not leave `q` ending in white space |
| Inbox.SecondTripIsIdentity | src/lib/inbox.ts:58-86 | After one trip nothing changes any more |
| Inbox.FilterSelectsDaysRead | src/lib/inbox.ts:106-112 | The bounds on `createdAt` select exactly the emails whose IST day lies between the filter's days, as V8 reads them |
| Inbox.FilterSelectsItsDays | src/lib/inbox.ts:106-112 | For days of the calendar that is the order of the dates as text |

## Left out

- Expo, AsyncStorage and fetch are only their effects; awaits between which nothing shared changes are one step (the parts of the prompt for location services, the background permission and its prompt).
- LocationModule.Sharing.SettleFlush: the background permission that a successful send awaits before it reports is taken with the send; a prompt for background permission or for location services that rejects is an answer of no, as the code has it.
- LocationModule.Sharing.Environment: what the system does by itself (`Carry`, rejections that `stopLocationTask` swallows) has no code of the app, and is the state machine's step.
- LocationSharing.RefusalLeavesTaskExactly: for one stop with nothing else in flight; two stops at a sign-out (mobile/App.tsx:171, 185) and any other calls are in `TaskStaysGoneExactly`.
- LocationSharing.WfRun: an OS that goes on delivering fixes after an unregistration it confirmed is not modelled.
- QueueProtocol: client ids are fresh, so that mutations are named by the order they were stored in; a corrupt stored queue, which loads as empty, is not modelled.
- QueueProtocol.EffectsInQueueOrder: assumes a server that does not take back a refusal and asks for no retry; `RetryReorders` shows why.
- MutationQueue.FlushLeaves: what was queued during the flush is not among the ids it settled, as ids are fresh.
- Runs.ByCoachIsWeakOrder: letters compare by code instead of `localeCompare`, and coach numbers are exact integers.
- Runs.KeyRoundTripsExactly: for keys whose parts hold no `~`, as src/lib/runs.ts:19 demands.
- Text is ASCII for upper and lower case and for white space; no Unicode folding.
- ServiceDates: dates are written for the years 1000 to 9999 (`todayIST` does not pad earlier ones); days that a month lacks are read as V8 reads them, which ECMA-262 leaves open; a fixed +05:30, and hours 00 to 23 from the formatter; `istLocalToUtc` on values that are not 16 characters long, blank or missing values; V8's legacy formats.
- DateFilter.ModesShow: for a well-formed custom month of a year from 1000 on; the `month` that comes back with the bounds is not modelled.
- Board: the boards' queries as predicates over one order, with well-formed service dates; the limit of 500 orders, the scope by outlet and the train timings are not modelled.
- OrderStatus: `allowedNextStatuses` lists the same edges again; the admin's free-text override, RATING_ORDER, rider corrections and the completeness guard on quotes write or check status outside the table; who may collect a return.
- StationMigration: outlet names in the warnings; Mongo's own failures.
- ListingMigration.Database.Migrate: reading the command line and the printed plan; the flags `active` of a listing and of a new station, which are always true; the defaults are written in any order; ids are unique, as in Mongo.
- ListingMigration.SightIsKeptExactly: visibility is by restaurant id alone, which is how staff are scoped.
- Arrival: `timedByAdmin`; a service date whose year has not four digits.
- Inbox.FilterSelectsDaysRead: for days that read as one; an invalid date goes to Mongo and fails there.
- Inbox: the URL's own encoding, repeated parameters, the text search and the sender match as regular expressions, previews and sender names.
- Labels, money, phone masking, pagination, authentication, parsers, train providers, repositories and the screens: one branch each, or not about state.
