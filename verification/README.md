# Hopper client protocols in Dafny

Hopper is a job queue whose clients coordinate only through a shared database.
This project models the protocols its Go client runs and proves what they keep:
who leads, which queue state applies, which slots of a periodic job are
inserted, what becomes of every result, how a job's attempts are counted.

A protocol whose steps interleave is a state machine: a state, the steps enabled
in it, and theorems about every run of any length. Code that updates its own
variables is a class or a method with loops, proved against a function or a
relation that says what it computes. What the program does not control (the
database's replies, clocks, workers, other clients) is a parameter or a step that
may come at any time.

| file | what it models |
|---|---|
| `LeaderLease.dfy`, `LeaderTerms.dfy`, `LeaderSteps.dfy`, `LateResigns.dfy`, `LeaderLoop.dfy` | the lease row, any number of clients that take, renew, lose and resign it, what each step does to a term, resigns that land late, and one client's loop |
| `QueueState.dfy`, `QueueControl.dfy` | renewals, re-reads and `Queues().Add` racing to apply readings of the queues' state |
| `Calendar.dfy`, `Cron.dfy`, `CronMeaning.dfy` | the Gregorian calendar, cron fields, the search for the next matching second, and the dates and times an expression names |
| `Slots.dfy`, `Schedules.dfy` | the search for recent slots, for any schedule, and the two schedules there are |
| `PeriodicJob.dfy`, `PeriodicLoop.dfy`, `PeriodicTerm.dfy`, `PeriodicDue.dfy` | a periodic job across passes, the leader's pass over all its jobs, the passes of a term, and what each pass owes a job |
| `EffectivePeriodic.dfy`, `EffectiveChoice.dfy` | the leader's choice of definitions to schedule, and what it comes to name by name |
| `FinalizerDrain.dfy`, `FinalizerStops.dfy`, `FinalizerBudget.dfy`, `FinalizerLate.dfy`, `FinalizerRuns.dfy` | submits, the run loop, the final drain and its two counters, when its end is right, the log budget, results past the deadline |
| `FinalizerWrite.dfy` | writing a batch: retries, halving, held rows, reports |
| `SettleRetry.dfy` | the batches settled again |
| `JobAttempts.dfy`, `JobLife.dfy`, `JobOutcomes.dfy`, `RunningClaims.dfy` | the outcome of an attempt, one job through its claims, what the database makes of each outcome, the claims a client tracks |
| `InsertRounds.dfy`, `InsertMeaning.dfy` | the in-batch folding of unique keys, and what each input of a batch gets |
| `UniqueKey.dfy`, `UniqueKeyText.dfy` | the text of unique keys, and which inserts share one |
| `Steps.dfy`, `StepRecords.dfy` | resumable steps, and what their records keep from being run again |
| `Basics.dfy` | the option type, and facts about sequences and sets |

## What turned out not to hold

Each of these has a lemma with the input or the run that shows it, and one that
says exactly when the promise does hold.

- The forced test at the end of a drain can take the finalizer for idle while a
  result handed in on time is still to be sent: a submit that begins after the
  first counter is loaded and is done before the second is loaded makes up for it.
  The result is left in the buffer (`FinalizerRuns.OvertakenStopLosesResult`).
  A drain leaves every result settled, in whatever follows, exactly when all of
  them are handed in as its test decides (`FinalizerStops.FoundIdleIsRightIff`,
  `FinalizerStops.StopSettlesAllIff`). A test that is not overtaken so finds them
  handed in, and so does every unforced one and the one that sets the stop bit;
  one that is overtaken may still lose nothing
  (`FinalizerRuns.OvertakenStopCanSettleAll`).
- Tracking a claim compares no fences. If a claim is rescued before its client
  tracks it and a later claim of the job is tracked there first, the earlier one
  cancels the later, whose "retry" then applies on the job's last attempt
  (`JobLife.TrackedOutOfOrderExceedsMax`). A claim's tracking keeps the attempt
  bounds, in whatever follows, exactly when it does not cancel the attempt the job
  is running, on its last attempt (`JobLife.TrackIsHarmlessIff`).
- `recentSlots` misses a slot of a cron schedule whose gap is longer than the five
  years `Next` searches, such as 29 February from 2096 to 2104
  (`Schedules.RecentSlotsMissesLeapDay`). For any schedule it is exact for every
  start and count exactly when `Next` tells the slots right at each time
  (`Slots.ExactIffLawful`); from one start over a cron schedule, exactly when from
  each time since the first slot after it is within those years
  (`Schedules.CronRecentExactIff`).
- A period of a unique key shorter than a second collapses into the second it is
  in, since RFC 3339 text drops the fraction (`UniqueKey.ShortPeriodsCollapse`,
  `UniqueKey.PeriodTextTellsIff`).
- Inputs of one batch that repeat a key are folded, so a later replacing input
  does not replace, as it would if inserted alone
  (`InsertRounds.FoldedReplaceIsLost`). A key's live job has the content one at a
  time gives it exactly when the input that would write it last is not folded
  (`InsertRounds.InsertDirect`). Jobs and duplicate flags agree for every mix of
  actions.
- `appliedFrom` stays at zero on the very first application
  (`QueueState.FirstApplicationStaysAtZero`), and strictly increases on every other
  (`QueueState.AppliedFromIncreases`).
- A resign that reaches the database after its call has returned can give away the
  lease of a client that leads, and a second client is elected beside it
  (`LateResigns.LateResignBreaksExclusion`). It leaves one leader at a time, in
  whatever follows, exactly when no client leads under its ID or was granted the
  lease under it (`LateResigns.LateResignIsHarmlessIff`).
- A step that commits a record of itself and then fails or crashes is not run
  again: a later attempt starts after it and can succeed, though the step never
  returned nil (`Steps.SucceedsPastFailedStep`). A job that succeeds has had every
  step return nil exactly when none was left behind so
  (`Steps.EveryStepReturnedIff`).

## Model

| member | source | states |
|---|---|---|
| LeaderLease.AttemptKeepsLiveLease | driver/hoppersqlite/cluster.go:142-176 | through the very instant a lease expires, an attempt by anyone keeps its holder and term and never shortens it |
| LeaderLease.GrantCoversTtl | driver/driver.go:325-334 | a grant without a resign request leaves a lease of a full TTL, in the term it reports |
| LeaderLease.AttemptIff | driver/hoppersqlite/cluster.go:142-176 | an attempt is denied exactly while another client's lease is live, starts a term exactly when no lease is, and otherwise extends its own unless it was asked to resign |
| LeaderLease.RequestIff | driver/hoppersqlite/cluster.go:182-201 | a resign request marks exactly a lease with time left, of the holder it names if it names one |
| LeaderTerms.AtMostOneLeads | leader.go:62-183 | in every run of any number of clients, with attempts landing late, and resigns landing late that spare the leader, a client with an unexpired fence is the one the row names, in that term, for at least as long; so at most one leads |
| LeaderTerms.TermsAreSequential | leader.go:101-177 | in every run a client is leader exactly while it has a term, no term starts before the last one's loops have ended, and its events read elected, then lost or resigned, in turn |
| LeaderTerms.ExpiredFenceStays | leader.go:827-835 | in every run no step extends a fence that has expired; only a new election sets another |
| LeaderTerms.StopGivesUpLease | leader.go:37-40 | a stop ends the term and its loops without an event, and its resign, once it takes effect, frees the lease if the client still holds it and touches no other's |
| LeaderTerms.StepKeepsInv | leader.go:62-183 | every step of every client and statement, every late attempt, and every late resign that spares the leader, keeps the fence no later than the row's expiry, with holder and term |
| LeaderSteps.RenewalExtendsTerm | leader.go:101-110 | a leader's renewal that comes back in time sets its fence a TTL after it was sent, with no event and its loops running |
| LeaderSteps.LateRenewalStartsOver | leader.go:97-110 | one that comes back past the fence ends the term with its event and starts the next of the same lease |
| LeaderSteps.GrantElects | leader.go:164-170 | a grant elects a client that does not lead, under the ID and in the term granted, with one event |
| LeaderSteps.NewTermEndsOld | leader.go:111-122 | a grant of another term ends the term led, with its event, before it starts that one |
| LeaderSteps.DenialEndsTerm | leader.go:171-177 | a denial ends the term, with its event, if there is one |
| LeaderSteps.FailureKeepsTerm | leader.go:101-136 | a failed attempt leaves the term as it is before its fence, and ends it with its event from then on |
| LeaderSteps.RequestEndsTerm | leader.go:137-163 | a resign request ends the term's loops before the lease is given up; the event follows, and a hold-off of a TTL begins |
| LeaderSteps.HoldOffLasts | leader.go:147-163 | in every run a client that resigned on request sends no attempt until that hold-off has passed |
| LeaderSteps.LapsedTermEnds | leader.go:66-69 | an iteration that begins at a lapsed fence leaves no term and one lost event |
| LeaderSteps.MovedClientGivesUp | leader.go:70-81 | a leader moved to another ID loses its term with its event and gives the old ID's lease up |
| LeaderSteps.IterationSends | leader.go:82-96 | otherwise an iteration only sends an attempt, whose lease counts from then |
| LeaderSteps.LeaderGoesOn | leader.go:62-183 | a leader whose lease nobody asks for, renewing in time, goes on to a fence and a lease of a full TTL with no event |
| LateResigns.LateResignBreaksExclusion | leader.go:264-277 | a run with two leaders, in which a resign lands after its call returned |
| LateResigns.LateResignIsHarmlessIff | leader.go:264-277 | with another client free to be elected, a late resign leaves at most one leader in every continuation if and only if no client leads, or was granted the lease, under its ID |
| LeaderLoop.LeaseFence.Renew | leader.go:827-835 | a renewal extends the fence unless it has expired, and tells which |
| LeaderLoop.Loop.Begin | leader.go:62-82 | the top of an iteration does to the loop's variables what the machine's step does: it ends a term whose fence has lapsed, with one event, and leaves any other, unless the client has moved |
| LeaderLoop.Loop.Settle | leader.go:101-110 | after an attempt the loop's variables are as the machine's: a renewal in time sets the fence to its new expiry, a lapsed term ends with its event unless it is asked to resign, and anything else leaves it |
| LeaderLoop.Loop.HandleResponse | leader.go:101-177 | handling a response, or an error, does to the loop's variables what the machine's step does, and keeps the client's invariant |
| QueueState.AppliedVersionsNeverGoBack | control.go:672-680 | in every interleaving no queue's applied state goes back to an older database version, not even of a queue removed and added again |
| QueueState.RereadEndsFresh | control.go:709-732 | when a re-read ends, every worked queue's state is from a reading begun no earlier than the re-read |
| QueueState.ReadingsAreBounded | control.go:703-732 | a re-read begins at most two readings and one for each Add that overtakes a reading of its own |
| QueueState.AppliedFromIncreases | control.go:672-680 | appliedFrom strictly increases with each application if and only if it is not the very first |
| QueueState.FirstApplicationStaysAtZero | control.go:672-680 | a run to the very first application, which leaves appliedFrom at zero |
| QueueState.StepKeepsInv | control.go:415-439 | every step of renewals, re-reads, Adds and removes keeps the ordering of readings |
| QueueControl.Control.SetQueueState | control.go:736-751 | every worked producer's flags become those of the lists, and no other producer appears |
| QueueControl.Control.ApplyQueueState | control.go:672-680 | a reading applies exactly when nothing was applied since its counter was read, to every producer and no other; either way the client's fields go from the machine's state to its next |
| QueueControl.Control.RereadDone | control.go:709-732 | a re-read ends exactly when the machine's does, and leaves the client's fields in the machine's next state |
| QueueControl.Control.Add | control.go:415-439 | an Add takes the client's fields through the machine's step, starts its producer with the flags read, and changes no other |
| QueueControl.Control.Remove | control.go:443-448 | a removal takes the client's fields through the machine's step, counts as no application, and stops that producer alone |
| Calendar.WeekdayIsCounted | cron.go:287-294 | weekdays follow one another, and every day's is counted from 1 January 1970, a Thursday |
| Calendar.MonthsBegin | cron.go:227-250 | each month begins on its day of the common and the leap year |
| Cron.Steps | cron.go:153-198 | the stepping loop collects exactly start, start plus step and so on through the end |
| Cron.ParseField | cron.go:153-198 | a field parses exactly when every part is in range, and to exactly the values its parts denote |
| Cron.ParseExpression | cron.go:56-132 | an expression of five or six fields parses to exactly what its fields denote, 7 read as Sunday |
| CronMeaning.PartMeans | cron.go:153-198 | a part denotes its value, its range, or every step from its start through its end, the field's own without one |
| CronMeaning.PartValidIff | cron.go:153-198 | a part is taken exactly when its step is positive and its values run upwards within the field |
| CronMeaning.StarDenotesAll | cron.go:153-198 | an unrestricted field denotes every value it can hold |
| CronMeaning.FiveFieldsFireOnTheMinute | cron.go:97-103 | with five fields the second is 0 and the others are as given |
| CronMeaning.DayMatchesIff | cron.go:287-294 | a day matches exactly by its weekday where only that is restricted, by its date where only that is, and by either where both are |
| CronMeaning.MatchesIff | cron.go:213-294 | a parsed expression matches exactly the seconds whose date, weekday and time its fields name |
| Cron.SeekMonth | cron.go:227-236 | the month search skips no matching second, and wraps only past the year |
| Cron.SeekDay | cron.go:237-250 | the day search skips no matching second, and wraps only past the month |
| Cron.SeekUnit | cron.go:254-283 | the hour, minute and second searches skip no matching second, and wrap only past the unit above |
| Cron.Pass | cron.go:220-284 | a pass ends at the first match after its start, or strictly later than it began |
| Cron.Next | cron.go:213-284 | the search terminates and returns what a scan second by second finds: the least matching second after t, in a year at most five past that of the first second tried, or nothing where none within those years matches |
| Cron.NextIsLeastMatch | cron.go:213-284 | the scan returns x if and only if x is the least second after t that matches, in a year at most five past that of the first second tried |
| Cron.NextIsNone | cron.go:213-226 | the scan returns nothing if and only if no second through the year limit matches |
| Slots.WindowSlots | periodic.go:661-666 | the in-place trimmed buffer holds the latest of the chain, all or between n and 2n |
| Slots.RecentSlots | periodic.go:654-677 | the doubling search terminates, returns what the search as a function does, and, where Next tells the slots right, the latest n slots after last |
| Slots.RecentSlotsAreLatest | periodic.go:650-677 | every window the search can stop at gives the last n of a full scan of the slots, or all if fewer |
| Slots.ExactIffLawful | periodic.go:654-677 | the search returns the latest slots from every start and for every n if and only if Next tells the slots right at each time |
| Schedules.IntervalIsLawful | cron.go:18-28 | an interval schedule's slots are the multiples of the interval, and Next skips none |
| Schedules.CronLawfulIffGapsWithin | cron.go:213-226 | a cron schedule tells its slots right over a stretch if and only if from each time in it the first slot after is within the years searched |
| Schedules.CronRecentExactIff | periodic.go:654-677 | from any start, the search over a cron schedule returns the latest slots for every n if and only if from each time since the first slot after is within the years searched |
| Schedules.CronIsLawfulWithinHorizon | cron.go:213-226 | in particular over any stretch within the search's horizon of its start |
| Schedules.RecentSlotsMissesLeapDay | periodic.go:654-677 | from the slot of 2096 to that of 2104 a search for two or more slots finds none, though one is due |
| PeriodicJob.MissedSlots | periodic.go:631-644 | the missed slots are the latest after last, as many as the last lease TTL holds or CatchUp allows, at most 10000 |
| PeriodicJob.HandDue | periodic.go:538-544 | a job hands over exactly its slots from its next through now, up to the first not taken, and is left at the first after now |
| PeriodicJob.HandMissed | periodic.go:523-537 | a job held up past the TTL hands over exactly its missed slots, up to the first not taken |
| PeriodicJob.PassJob | periodic.go:518-554 | a pass over a job does one or the other, and leaves the slot not taken, or the first after now |
| PeriodicJob.StartJob | periodic.go:604-629 | a job starts by its missed slots since the last recorded one, then RunOnStart's, and is left at the first slot after now |
| PeriodicJob.FailureFreePassesHandEverySlot | periodic.go:518-554 | over any number of failure-free passes of one job the slots handed over are exactly the schedule's since the start, in order, none skipped or repeated |
| PeriodicJob.TakenSlotsIncrease | periodic.go:518-554 | over any passes, failures and stale stretches included, the slots taken strictly increase |
| PeriodicDue.MissedAreOwed | periodic.go:631-644 | the missed slots are exactly the latest of those since last, as many as CatchUp asks for or the last lease TTL holds, whichever is more, at most 10000 |
| PeriodicDue.DueIs | periodic.go:518-544 | a job is owed every slot from its next through now, or what one that starts is if it was held up past the TTL |
| PeriodicDue.StartDueIs | periodic.go:604-629 | a job that starts is owed the slots missed since the last one recorded, then RunOnStart's |
| PeriodicLoop.Loop.RunAllStarted | periodic.go:498-554 | a pass takes up exactly the started jobs not waiting to be tried again, and leaves the others as they were |
| PeriodicLoop.Loop.RunAllAdded | periodic.go:556-585 | the added jobs not waiting are started from their last recorded slots, and the rest left |
| PeriodicLoop.Loop.Sleep | periodic.go:587-601 | the sleep is exactly until the soonest slot or retry, never with neither, and the next pass is expected then |
| PeriodicLoop.Loop.RunPass | periodic.go:465-602 | what a pass does to every job, with a failed clock and an empty set: jobs dropped are forgotten and stay so, each started job is passed over or waits, each new one is started or tried again; when the next pass is expected, which is exactly a next slot or a retry; and no job's next slot is overslept |
| PeriodicTerm.TermHandsEverySlot | periodic.go:465-602 | once a pass has started a job, any number of passes after it, each reading the clock within a lease TTL of when it was expected and having its slots taken, hand over exactly the schedule's slots since then, in order, and leave the job at the first one after |
| PeriodicTerm.TermTakesSlotsOnce | periodic.go:465-602 | once a pass has started a job, the slots the database takes of it strictly increase over any passes of the loop, with the clock not read, the loop late, and inserts refused and tried again |
| PeriodicDue.PassHands | periodic.go:498-554 | a pass hands a started job that does not wait exactly what it is owed, up to the first slot not taken |
| PeriodicDue.LatePassSkips | periodic.go:498-537 | a pass more than a lease TTL late gives a job left behind what one that starts is owed |
| PeriodicDue.UnreadClockSkips | periodic.go:465-537 | so does one after a pass that could not read the clock |
| PeriodicDue.FailedJobSkips | periodic.go:498-554 | and one that takes up a job that failed |
| PeriodicDue.RefusedJobIsTriedAgain | periodic.go:498-554 | a job with a slot refused is taken up at that slot by exactly the passes a leader interval later or more |
| PeriodicDue.UnstartedJobIsTriedAgain | periodic.go:556-585 | a job that could not be started is tried after the same wait, and one whose owner was removed at the next pass |
| EffectivePeriodic.SortNames | periodic_shared.go:397-397 | the names come out in strictly increasing order, exactly those given |
| EffectivePeriodic.Choose | periodic_shared.go:393-436 | the names wanted and run directly are exactly those the newest live clients' definitions and the own set say, the ones run directly in the order visited |
| EffectivePeriodic.Leader.ResolveOne | periodic_shared.go:438-470 | a name is kept, built, or falls back to the leader's own job, as its digest and readability decide; a definition is remembered as unreadable exactly when it was looked at and is |
| EffectivePeriodic.Leader.DropStale | periodic_shared.go:471-476 | exactly the registrations of unwanted digests are dropped, and marked removed |
| EffectivePeriodic.Leader.Effective | periodic_shared.go:393-484 | exactly one registration for each name decided on, none twice: own jobs of stored names by name, own jobs of others as registered, own jobs fallen back to by name, then definitions by name; the names defined are exactly those wanted; dropped ones are marked removed, kept ones are the same objects; unreadable definitions are remembered and nothing else is; what holds of a registration with an empty digest, which no client records, is stated too |
| EffectiveChoice.ClaimIs | periodic_shared.go:408-419 | the claim on a name is its first row of another client, unless a row of the leader's own that it stands by comes before |
| EffectiveChoice.ClaimedOrNot | periodic_shared.go:408-436 | every name is claimed by one row, or nobody else claims it |
| EffectiveChoice.NewestRuns | periodic_shared.go:408-448 | a claimed name runs the claim's definition if it is registered or can be read, with the leader's own job as owner exactly where that is recorded under the same digest |
| EffectiveChoice.UnreadableGivesWay | periodic_shared.go:438-470 | a claim that cannot be read gives way to the leader's own job, from its definition exactly when that is registered, or is another and can be read |
| EffectiveChoice.OwnRuns | periodic_shared.go:420-470 | a name nobody else claims runs the leader's own job as the leader has it now, or nothing exactly when it has none |
| EffectivePeriodic.EmptyDigestIsBuiltIff | periodic_shared.go:438-476 | when a definition stored without a digest, as no client does, would be built |
| FinalizerDrain.UnforcedStopFlushesAll | finalizer.go:195-206 | when a drain ends unforced, every submit ever started is done and its result, through its retries, flushed; the buffer is empty and stays so |
| FinalizerStops.StopSettlesAllIff | finalizer.go:195-206 | whichever way a drain ends, every result of a submit not refused is flushed, or dropped for being handed in or tried again past the deadline, then and ever after, if and only if all are handed in as it ends; a test that was not overtaken, and any that did not find the stop bit set, finds them so |
| FinalizerStops.FoundIdleIsRightIff | finalizer.go:195-206 | a forced test that found the stop bit set and the finalizer idle leaves every result settled in every continuation if and only if all are handed in as it decides |
| FinalizerDrain.StoppingTestIsRight | finalizer.go:195-206 | only a forced test that found the stop bit set can be overtaken |
| FinalizerDrain.EqualCountersAreRightIff | finalizer.go:195-199 | with equal counters, the submits first counted are all done if and only if none that began later was done by the second load |
| FinalizerDrain.DrainNeverSleepsAlone | finalizer.go:298-308 | when the drain blocks with no result buffered and no wake-up pending, a submit is in flight that at most five steps of its own, each enabled as it comes, bring to its signal |
| FinalizerLate.LateIsNeverFlushed | finalizer.go:144-163 | in every run a result that needs a write and is handed in past the drain's deadline is never flushed or tried again |
| FinalizerLate.SubmitsEnd | finalizer.go:144-163 | once the drain has returned every submit under way ends by at most five steps of its own, with room in the buffer or without |
| FinalizerDrain.StepKeepsInv | finalizer.go:128-308 | every step of every submit, the run loop and the clock keeps what these rest on |
| FinalizerRuns.OvertakenStopLosesResult | finalizer.go:195-206 | a run in which a result handed in on time is left in the buffer of a finalizer that returned |
| FinalizerRuns.OvertakenStopCanSettleAll | finalizer.go:195-206 | a run in which the forced test is overtaken and every result is settled all the same |
| FinalizerRuns.DrainCanEndUnforced | finalizer.go:257-308 | a run in which a drain ends unforced with a result flushed |
| FinalizerBudget.BudgetIsExact | finalizer.go:330-378 | until the finalizer is done, the bytes used are those of the results between acquire and the end of their flush; before the drain they are within the bound, but for a single holder |
| FinalizerLate.AcquiresIff | finalizer.go:342-367 | until the finalizer is done a submit waits for the budget exactly while its log does not fit beside those of the results on their way, and the drain has not begun |
| FinalizerBudget.StepKeepsBudget | finalizer.go:396-403 | every acquire, flush, retry and late drop keeps the count exact |
| FinalizerWrite.AllAppliedIfAsMany | finalizer.go:569-577 | as many distinct results applied as were sent means all of them |
| FinalizerWrite.RowsTell | driver/driver.go:200-207 | the rows a statement returns tell exactly which of the results sent it applied, and the dependents it canceled |
| FinalizerWrite.SplitCascaded | finalizer.go:426-439 | applied results and canceled dependents are told apart, in order |
| FinalizerWrite.Finalizer.NotWritten | finalizer.go:609-637 | a result not applied is reported exactly when its job's own transaction committed it, handed in again exactly when the row is held and submits are open, and dropped otherwise |
| FinalizerWrite.Finalizer.AfterFlush | finalizer.go:569-595 | with or without the shortcut, each result is reported, tried again or dropped as the statement and the rows say, once |
| FinalizerWrite.Finalizer.Write | finalizer.go:456-504 | whatever the replies, each result of the batch reaches exactly one successful statement or one dropped report, in order, or is still being written where the replies end; what is reported was applied, what is tried again was not; statements that time out degrade into ones that skip held rows and then into smaller ones, never sent again as they were |
| FinalizerWrite.Finalizer.Flush | finalizer.go:390-421 | a flush routes each result once, and over any flushes and retries no result is reported applied twice; whatever the replies, each is still to be written, handed in again, seen committed or let go by a reply, every result a statement applied is reported, and no result a transaction may hold is in a statement that waits for held rows |
| FinalizerWrite.FlushLosesNone | finalizer.go:390-421 | each result of a flush is still to be written, handed in again, seen committed, or let go by a reply that applied it, told it lost or committed, gave it up or met closed submits; none leaves otherwise |
| FinalizerWrite.FlushReportsTrue | finalizer.go:569-595 | every result a successful statement applied is reported, and every report is of one told applied or seen to commit |
| FinalizerWrite.ReportedOnce | finalizer.go:456-504 | however a batch was halved, no result is reported twice, or both reported and tried again |
| SettleRetry.Retrier.Add | settleretry.go:63-96 | a batch added is held with its delay started over, due after the first delay or sooner if it already was, any other is as it was, and never more than 10000 are held |
| SettleRetry.Retrier.Begin | settleretry.go:153-170 | an attempt takes exactly the batches due, or all when it is the last |
| SettleRetry.EndsAs | settleretry.go:191-210 | a batch is let go exactly when the attempt is the last, or nothing was added since and its row was free or its delay would pass the longest; one kept starts over if it was added to, else doubles its delay, or is as it was where the stop cut the attempt short |
| SettleRetry.Retrier.EndOne | settleretry.go:191-210 | what becomes of one batch, and that no other changes |
| SettleRetry.Retrier.End | settleretry.go:185-215 | no batch is let go on the strength of an attempt begun before its latest add, but by the last attempt; delays stay the first one doubled |
| SettleRetry.Retrier.NextDue | settleretry.go:127-137 | the earliest due time of the batches held |
| SettleRetry.LeavesAfterTries | settleretry.go:200-209 | a batch whose row stays held leaves after exactly its number of tries |
| SettleRetry.TriesCountDoublings | settleretry.go:200-209 | that number is one more than the doublings within the longest delay |
| JobAttempts.Outcome | execute.go:216-308 | every outcome is one an engine takes, and leaves a job that goes on an attempt if and only if the attempt was not replaced on its last; in terms of what happened alone, exactly when the job is completed, canceled, discarded, snoozed, given its attempt back or tried again, and after how long |
| JobOutcomes.OrdinaryFailureIsRetried | execute.go:296-308 | an ordinary failure with attempts left, which the hook leaves to the policy, is tried again after the policy's delay |
| JobOutcomes.RescuedIff | leader.go:327-350 | a rescue tries a job again at once, with its attempt used, and discards it exactly on its last |
| JobOutcomes.ClaimCounts | driver/driver.go:569-575 | a claim uses one attempt and one fence, and is told both |
| JobOutcomes.AppliesIff | driver/driver.go:1195-1230 | a result changes the job exactly while it runs in the claim the result is of |
| JobOutcomes.ReturnEndsAttempt | execute.go:216-308 | a worker's return that arrives in its claim leaves the job finished or waiting, its attempt used or given back, as the outcome says |
| JobOutcomes.FailedJobRunsAgain | execute.go:296-308 | a job whose attempt fails in the ordinary way, with attempts left, waits and can be claimed for the next |
| JobOutcomes.RescueEndsAttempt | leader.go:327-350 | a rescue that arrives leaves the job waiting, or discarded exactly on its last attempt |
| JobOutcomes.ExpiryEndsAttempt | driver/driver.go:287-291 | an expired lease leaves its job canceled if that was asked for, discarded on its last attempt, and waiting otherwise |
| JobOutcomes.UnrunGivesBack | execute.go:31-40 | a claim the client never ran is given back whole |
| JobOutcomes.OperatorsDo | driver/driver.go:221-236 | a cancel finishes a waiting job and asks for a running one; a retry has a finished job wait again with an attempt to use |
| JobLife.AttemptsStayWithinMax | driver/driver.go:569-575 | in every run in which tracking cancels no attempt the job is running on its last, a waiting job has attempt < max and a running one attempt <= max, fences count up by one, and each claim ends at most once |
| JobLife.ReplacedNeverApplies | execute.go:237-243 | in every run in which tracking never cancels the job's latest claim, a replaced attempt's fence is stale, so its result never applies |
| JobLife.ReplacedIsHarmless | execute.go:237-243 | in every run that keeps the bounds' condition, a replaced attempt is stale, its job is not running, or it is not the last attempt |
| JobLife.TrackIsHarmlessIff | control.go:593-606 | tracking a claim leaves the attempt bounds kept in every continuation if and only if it does not cancel the attempt the job is running, on its last attempt |
| JobLife.InOrderSparesLatest | control.go:593-606 | tracking claims in the order they were made never cancels the latest |
| JobLife.TrackedOutOfOrderExceedsMax | control.go:593-606 | a run in which claims tracked out of order leave a waiting job with no attempt |
| JobLife.StepKeepsInv | leader.go:327-350 | every claim, result, rescue, lease expiry, cancel, retry and sparing track keeps the bounds |
| RunningClaims.Tracker.Track | control.go:593-606 | the latest claim of a job is its running one, and the one it replaces is kept until it returns |
| RunningClaims.Tracker.Untrack | control.go:609-617 | exactly the claim is removed, the latest or a replaced one, and no other claim of the job is lost |
| InsertRounds.SameStatesMeansEqual | insert.go:175-179 | without repeats, the comparison is equality of the sets of states |
| InsertRounds.Plan | insert.go:98-126 | each input is in its round under its action, once and in order, or folded into the last with its key |
| InsertRounds.NoKeyTwice | insert.go:98-126 | no round holds a key twice |
| InsertRounds.InsertDirect | insert.go:98-157 | every input gets the job and duplicate flag that inserting one at a time gives, and each key is left with the same jobs; its live job has the content one at a time gives it if and only if the last input that would write it is not folded |
| InsertMeaning.AloneIs | insert.go:98-102 | what an input with a key gets, by what the database held before the batch: the live job, the one the first input new to the key creates, the latest in history that counts, or its own |
| InsertMeaning.CreatesIff | insert.go:98-102 | of a key's inputs exactly the first new to it creates a job, and none if one is live |
| InsertMeaning.WritesIff | insert.go:128-147 | an input writes its key's live job exactly when it creates it, or replaces one that does not run |
| InsertRounds.ContentAgreesIff | insert.go:98-102 | the last writer of a key that is not folded, whose content the batch leaves, is the last of all if and only if that one is not folded |
| InsertRounds.FoldedReplaceIsLost | insert.go:98-126 | of two replacing inputs of one key the batch keeps the first's content |
| UniqueKey.KeyInjective | unique.go:78-107 | keys of newline-free parts are equal only if every part is, absent ones included |
| UniqueKeyText.KeyTextIs | unique.go:83-107 | the text of a key is its parts present, tagged, a line each in order, or a star |
| UniqueKeyText.StampOfMoment | unique.go:110-112 | a moment's text is its date and time as RFC 3339 sets them |
| UniqueKeyText.SameTextIff | unique.go:83-112 | two inserts have one key text if and only if they ask for the same parts and agree in each: args, queue, and the second their period begins in |
| UniqueKeyText.SameKeyIff | unique.go:83-122 | an insert is refused exactly for a key past the bound, and of two that are not, one duplicates the other's key exactly when they agree |
| UniqueKey.RebuiltIsDirect | periodic_shared.go:243-256 | the key rebuilt from a stored one at a slot is the key built directly, with the star case and the length check |
| UniqueKey.StampInjective | unique.go:110-112 | different seconds have different RFC 3339 texts |
| UniqueKey.PeriodTextTellsIff | unique.go:110-112 | a period's text tells it from every other if and only if periods are at least a second |
| UniqueKey.ShortPeriodsCollapse | unique.go:110-112 | where periods are shorter than a second, the first two have one text |
| Steps.Check | steps.go:125-135 | the steps are accepted exactly when each has a name, a function and a storable name, and none is listed twice |
| Steps.Job.RunStep | steps.go:145-160 | a step's run and record, however they go, take the job's progress and history where the specification does; the step is recorded exactly when it recorded itself, or returned nil with the job left to go on and its record was written; the attempt goes on exactly when it returned nil and any record it needs was stored |
| Steps.Job.RunSteps | steps.go:124-163 | an attempt, to its end or its crash, takes the job's progress and history, and its outcome, where the specification does |
| Steps.AttemptKeeps | steps.go:124-163 | no step at or before the recorded one is run, none before those ahead of it are done, the record never goes back, and success comes only once every step returned nil or was left behind |
| StepRecords.AttemptRunsInOrder | steps.go:136-163 | an attempt runs the steps from the one after the recorded one, each once and in order |
| StepRecords.AttemptSucceedsIff | steps.go:124-163 | it succeeds exactly when every step left returns nil and is recorded, or recorded itself, or comes after the job was completed in a transaction |
| StepRecords.SavedStepIsRecorded | steps.go:145-160 | a step whose record was saved stays recorded whatever becomes of the attempt |
| StepRecords.SavedStepIsNotRunAgain | steps.go:136-163 | no step whose record an attempt saved is run again in any attempts after it |
| Steps.EveryStepReturnedIff | steps.go:104-163 | over any attempts that fail or crash anywhere, one that succeeds leaves every step returned nil if and only if none was left behind by a committed record of its own followed by a failure |
| Steps.LeavesNone | steps.go:104-110 | attempts in which no step commits its own record and then fails leave none behind |
| Steps.SucceedsPastFailedStep | steps.go:61-63 | a step that commits its record and then fails is skipped by the next attempt, which succeeds |

## Left out

- SQL: the Postgres and SQLite statements; the driver's documented contract is the environment's step. The lease row follows the SQLite statement where the contract is silent.
- Batch settling, workflow promotion and follow-ups inside the engine, and the order in which held batches are settled.
- Time zones, daylight saving and `time.Location`: cron runs in UTC.
- Cron text: fields are given as parts already read; the `uint64` masks are sets of values.
- Retry jitter and backoff arithmetic: a delay is a parameter.
- Log stores and following, messaging, streams, listeners, middleware, hooks, JSON codecs and reflection on args.
- Clients of previous releases that reset fences, and replacing inserts that change a waiting job's max attempts: assumed absent.
- The test-only crash of the finalizer.
- LeaderTerms.AtMostOneLeads: assumes one shared monotone clock, and, of resigns that reach the database after their call returned, only those that spare the leader; the others break it, as `LateResigns.LateResignIsHarmlessIff` shows.
- LeaderTerms.TermsAreSequential: handling a response is one step, since it touches only the client's own variables.
- PeriodicJob.FailureFreePassesHandEverySlot: for a schedule trusted up to the last pass, as an interval always is, and a cron expression exactly where its gaps are within the years searched.
- PeriodicTerm.TermHandsEverySlot: says nothing of passes that come late, fail to read the clock or have a slot refused, over which missed slots may be skipped on purpose.
- PeriodicJob.StartJob: the database answers alike for a missed slot and a RunOnStart slot at the same instant.
- PeriodicLoop.Loop.RunPass: the time by the local clock at which a job failed is a parameter; a removal that comes within a pass shows only as an owner removed.
- FinalizerDrain.UnforcedStopFlushesAll: what a flush does to its results is left to `FinalizerWrite.dfy`; submits, the run loop and `stopIfIdle` are steps of a machine rather than methods, since they interleave at every atomic operation; a flush takes its results one by one, and a refused retry ends beside the run loop rather than within it, which only adds interleavings.
- FinalizerWrite.Finalizer.Write: the replies are a finite script, so a write that fails for ever is seen up to any reply; wakes, events and follow-ups are not modelled.
- SettleRetry.Retrier.End: which rows were still held is a parameter; the settle statements are not modelled.
- InsertRounds.InsertDirect: no other writer comes between the statements, as one at a time would allow too.
- UniqueKey.KeyInjective: text is bytes, and the args' canonical JSON is a given newline-free text.
- Steps.Job.RunSteps: steps record only their own names, cursors are not modelled, and attempts do not overlap.
- JobLife.AttemptsStayWithinMax: not of runs in which tracking a claim cancels the attempt the job is running on its last, where `JobLife.TrackIsHarmlessIff` shows it fails; one job, with its ordering key, TTL clock and queue limits left to the steps that may come at any time.
