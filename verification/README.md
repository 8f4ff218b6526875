# BillPiggy verification

BillPiggy records every change as an event. An outbox delivers the events to
projections with leases, retries and dead letters, and the projections keep read
models that must agree with an aggregation from scratch. A scheduler posts
recurring payments from several replicas that share one ledger. This project
models those two pipelines and four smaller cores, and proves what they keep over
every run.

`dafny verify dfyconfig.toml` checks everything.

## How the files fit together

| file | what it holds |
|---|---|
| `calendar.dfy`, `domain.dfy`, `sums.dfy` | a Gregorian calendar over UTC nanoseconds, the shared values, sums over finite sets |
| `periods.dfy`, `recurrence.dfy` | rollup, budget and report periods; month arithmetic with a permanent anchor day |
| `outbox.dfy`, `queue.dfy` | retry policy; the delivery queue, the blocker rule, lag, dead letters, draining |
| `rollups.dfy`, `analytics.dfy` | what analytics buckets should hold; the projection and its repository, loop by loop |
| `protocol.dfy` | the distributed delivery protocol: append, register, claim, commit, fail, crash, requeue, time |
| `event_store.dfy`, `engine.dfy` | the in-memory event store, its unit of work, the engine's step and drain loop |
| `agreement.dfy` | budget spend against analytics buckets: the two projections agree |
| `spending.dfy`, `budget_usage.dfy` | budget windows, exact usage rows, the alert ladder; the projection and its repository |
| `payments.dfy`, `posting.dfy`, `replicas.dfy` | one posting pass; repeated passes; any number of crashing replicas |
| `ratelimit.dfy`, `imageproc.dfy`, `report.dfy`, `tokens.dfy` | the fixed-window limiter, downscaling, report charts, refresh-token families |

Code that changes state in place is written as classes and methods with loops,
each tied by its `ensures` to a function of the old state; the lemmas are about
those functions. State machines (`Protocol`, `Replicas`, and the runs of `Spending`
and `Tokens`) carry the for-all-runs results.

## Where the code promises less than one might hope

- `complete` and `fail` of the PostgreSQL outbox do not check who holds the lease
  (internal/adapter/outbound/postgres/outbox_store.go:179-185, 216-224), and `Protocol`
  does not check it either. What is promised is that every stream stays in shape and that
  every read model reflects the last processed event of each expense. `Protocol.StepKeepsIff`
  and `Protocol.RunKeepsIff` give the exact condition: a run keeps both throughout if and
  only if every report is harmless (`HarmlessCommit`, `HarmlessFail`, both stated on the
  rows and messages before the report), and a report made under a live lease always is.
  `Protocol.LateReportsBreak` is a run, under any policy, after which one late failure
  report reopens a processed stream and one late commit puts an outdated amount into a
  bucket.
- Budget usage is exact after an expense event exactly when the stored contribution has
  a time, or no stored row misses it (`Spending.ExpenseKeepsExactIff`).
  `Spending.ZeroTimeExpenseGoesStale` is a contribution at the zero time, which is summed
  but whose window is never recomputed. The expense commands reject that time
  (internal/core/service/expenses.go:339), so only an event written by hand can carry it.
- Posting is at most once, never exactly once. `Replicas.LostExactlyByCrash` says when:
  a claimed occurrence ends without its expense for good, whatever anybody does later, if
  and only if the replica that won it stopped between its claim and its expense. For a
  payment that is created and never edited, the cursor then stays at that occurrence
  (`Replicas.LostCursorStays`); one that was edited may yet be moved on by a copy listed
  before the edit (`Replicas.EditFreesTheCursor`). A notice is lost when the winner stops
  before notifying, or notifies while notices are off (`Replicas.SilentExactlyByDrop`).
- `BudgetWindow` is documented to contain the instant it is asked for. For a custom budget
  it does exactly when the instant falls between the budget's creation day and its end
  (`Periods.WindowContainsIff`, with a miss in `Periods.CustomWindowCanMiss`), and without
  a due date that end is a hundred years on, not never.
- `AddMonthsClamped` drops nanoseconds. The one-jump form of an occurrence holds from the
  first step on (`Recurrence.OccurrenceIsOneJump`), and for the start date itself exactly
  when its clock is in whole seconds (`Recurrence.StartIsOneJumpIff`).

## Model

| member | source | states |
|---|---|---|
| Protocol.RollupsAreExact | internal/core/service/analytics_projection.go:42-103 | After any interleaving of append, register, claim, commit, fail, crash, requeue and the passing of time, late reports included as long as they are harmless, every bucket of every subscription holds, in amount and in count, the direct sum over expenses of what each expense's last processed event is worth to it |
| Protocol.StreamsAreSafe | internal/adapter/outbound/postgres/outbox_store.go:64-104 | In the same runs each stream is a processed prefix, at most one dead letter, then pending messages; a live lease sits only behind processed predecessors; no two workers hold one stream |
| Protocol.LateSubscriptionCatchesUp | internal/adapter/outbound/memory/event_store.go:114-125 | Two drained subscriptions have equal buckets whenever each was registered, and both equal the aggregation of the whole log |
| Protocol.CoarseBucketsAreSumsOfDays | internal/core/domain/projection.go:208-228 | In the same runs every week, month and year bucket of every subscription is the sum of its day buckets |
| Protocol.StepKeepsIff | internal/adapter/outbound/postgres/outbox_store.go:113-228 | One step of the code as it is leaves streams in shape and read models exact if and only if it is not a harmful late report |
| Protocol.RunKeepsIff | internal/adapter/outbound/postgres/outbox_store.go:113-228 | Over any run streams stay in shape and read models exact at every point if and only if every report is harmless when made |
| Protocol.LeaseMakesHarmless | internal/adapter/outbound/postgres/outbox_store.go:70-76 | A commit or failure reported while the worker holds its lease is harmless |
| Protocol.LeasedRunIsHarmless | internal/adapter/outbound/postgres/outbox_store.go:106-112 | A run whose workers outlive no lease is harmless throughout |
| Protocol.LateReportsBreak | internal/adapter/outbound/postgres/outbox_store.go:179-228 | Under every policy a run of timely reports reaches a state where one late failure breaks a stream's shape and one late commit makes a bucket wrong |
| Protocol.StalledWorker | internal/adapter/outbound/postgres/outbox_store.go:140-174 | A worker that stalls past its lease is still about after two others processed its message and the next |
| Protocol.ProcessIsClaimThenReport | internal/adapter/outbound/postgres/outbox_store.go:113-138 | Undisturbed, the separate claim and report come to the effect of the in-memory store's one call |
| Protocol.RequeueReturnsTheLetter | internal/adapter/outbound/postgres/outbox_store.go:317-335 | Exactly dead letters can be requeued; one comes back with a fresh budget and raises the lag by itself and what it held up |
| Protocol.AppendKeeps | internal/adapter/outbound/memory/event_store.go:90-110 | Queuing a new event for every subscription keeps the invariant |
| Protocol.RegisterKeeps | internal/adapter/outbound/memory/event_store.go:114-125 | Registering a subscription with the log as replay keeps the invariant |
| Protocol.ClaimKeeps | internal/adapter/outbound/postgres/outbox_store.go:77-104 | A claim, being a commit of its own, keeps the invariant |
| Protocol.CommitKeepsIff | internal/adapter/outbound/postgres/outbox_store.go:113-134 | A commit, on time or late, keeps both promises exactly when nothing earlier is outstanding and the message is new, still the latest of its expense, or a tombstone like the latest |
| Protocol.CommitKeepsModelsIff | internal/adapter/outbound/postgres/outbox_store.go:125-134 | A commit keeps the read models exact if and only if it is not an outdated repetition |
| Protocol.FailKeepsIff | internal/adapter/outbound/postgres/outbox_store.go:206-228 | A failure report, on time or late, keeps both promises exactly when everything later is waiting, a dead letter has nothing outstanding before it, and a processed message repeats the one processed before it for its expense or is a tombstone where nothing was counted |
| Protocol.FailKeepsModelsIff | internal/adapter/outbound/postgres/outbox_store.go:206-228 | With only waiting rows behind it, a failure report keeps the read models exact if and only if the message it takes back is retractable, as decided by the message processed before it |
| Protocol.LastOfItsExpense | internal/adapter/outbound/postgres/outbox_store.go:77-104 | A processed message with only waiting ones behind it is the latest of its expense |
| Rollups.RetractableFits | internal/core/service/analytics_projection.go:42-75 | A model that reflects a message fits its expense without it exactly when the message before says the same, or both are tombstones, or it is a tombstone of an expense never counted |
| Protocol.RequeueKeeps | internal/adapter/outbound/postgres/outbox_store.go:317-335 | Requeuing a dead letter keeps the invariant, even with stale workers about |
| Protocol.HoldersDiffer | internal/adapter/outbound/postgres/outbox_store.go:84-91 | Two workers with live leases never work on one stream |
| Protocol.LeaseKeepsOthersOut | internal/adapter/outbound/postgres/outbox_store.go:77-104 | While a worker holds its lease nobody can claim a message of its stream, the one it holds included |
| Protocol.RunKeepsReplays | internal/adapter/outbound/memory/event_store.go:105-125 | Over every run a subscription's replays are exactly the events logged before it was registered |
| Protocol.StepKeepsComplete | internal/adapter/outbound/memory/event_store.go:90-125 | Every subscription always has one delivery per stored event, in log order |
| Queue.OrderIsShape | internal/adapter/outbound/memory/event_store.go:155-215 | The ordering invariant is exactly the shape promised to handlers: processed, then one dead letter at most, then waiting |
| Queue.ClaimKeepsOrder | internal/adapter/outbound/memory/event_store.go:181-189 | Claiming an unblocked message keeps the stream order |
| Queue.CompleteKeepsOrderIff | internal/adapter/outbound/postgres/outbox_store.go:179-185 | Completing a row keeps the stream order exactly when nothing earlier is outstanding, whoever reports it |
| Queue.FailKeepsOrderIff | internal/adapter/outbound/postgres/outbox_store.go:206-228 | Failing any row, by the attempt count of the report, keeps the stream shape exactly when everything later is waiting and a dead letter has nothing outstanding before it |
| Queue.TouchedIsUnblocked | internal/adapter/outbound/memory/event_store.go:196-215 | A row that is claimed or settled has nothing outstanding before it |
| Queue.OnlyItsOwnStreamBlocks | internal/adapter/outbound/memory/event_store.go:194-215 | A message waits for exactly the outstanding earlier messages of its own subscription, aggregate type and aggregate |
| Queue.CompletedIsSettled | internal/adapter/outbound/memory/event_store.go:140-143 | A processed message is unlocked and never claimed again |
| Queue.ClaimLocksForLease | internal/adapter/outbound/memory/event_store.go:174-176 | A claim keeps everybody off the row for exactly the lease |
| Queue.RetryWaitsOutBackoff | internal/adapter/outbound/memory/event_store.go:146-152 | A failed message is due again exactly when its backoff has passed; one that failed its last attempt never is |
| Queue.QueuedIsDue | internal/adapter/outbound/memory/event_store.go:294-309 | A queued or requeued message is due at once to every subscriber that wants its type |
| Queue.BudgetIsSpentExactly | internal/adapter/outbound/memory/event_store.go:146-152 | A queued or requeued message is dead after exactly as many failures as the policy allows attempts |
| Queue.FilterTakes | internal/adapter/outbound/memory/event_store.go:396-406 | An empty filter takes every type, any other exactly those it names |
| Queue.AppendKeepsNumbered | internal/adapter/outbound/memory/event_store.go:101-104 | Appending keeps each event numbered by its place in the log and in its stream |
| Queue.VersionsAreGapless | internal/adapter/outbound/memory/event_store.go:101-104 | The versions of a stream are 1, 2, 3 and so on, without gap or repeat |
| Queue.RequeueKeepsOrder | internal/adapter/outbound/memory/event_store.go:294-309 | Requeuing a dead letter keeps the stream order |
| Queue.AtMostOneDead | internal/adapter/outbound/memory/event_store.go:155-215 | No stream has two dead letters |
| Queue.BlockedCountsAddUp | internal/adapter/outbound/memory/event_store.go:313-330 | The blocked counts of different dead letters count disjoint sets of messages |
| Queue.PendingIsLagPlusBlocked | internal/adapter/outbound/memory/event_store.go:236-253 | The pending count is always the lag plus the sum of the dead letters' blocked counts |
| Queue.RequeueRaisesLag | internal/adapter/outbound/memory/event_store.go:294-330 | Requeuing raises the lag by exactly one plus that letter's blocked count |
| Queue.LagIsClaimable | internal/adapter/outbound/memory/event_store.go:158-192 | With no live lease and every backoff elapsed, an unfiltered subscription with lag has something to claim |
| Queue.ProcessingLowersLag | internal/adapter/outbound/memory/event_store.go:128-144 | Processing one claimable message lowers the lag by exactly one, kills nothing and keeps the queue settled |
| Queue.OutcomesAreBounded | internal/adapter/outbound/memory/event_store.go:128-153 | Whatever handlers do, at most MaxAttempts outcomes per pending message happen before the queue is idle |
| EventStores.EventStore.Append | internal/adapter/outbound/memory/event_store.go:90-110 | The event gets the next global number and its stream's next version, and one pending row per subscription |
| EventStores.EventStore.EnsureSubscription | internal/adapter/outbound/memory/event_store.go:114-125 | A new subscription gets the whole log as replay; a known one changes nothing |
| EventStores.EventStore.BlockedRow | internal/adapter/outbound/memory/event_store.go:196-215 | True exactly when an earlier message of the stream is pending or dead |
| EventStores.EventStore.Candidates | internal/adapter/outbound/memory/event_store.go:167-180 | Exactly the due, unlocked rows of a wanted type, in increasing global order |
| EventStores.EventStore.Claim | internal/adapter/outbound/memory/event_store.go:158-192 | Takes the due, unlocked or lease-expired row of a wanted type with the lowest global number, counts the attempt, changes nothing else; none only when none is claimable |
| EventStores.EventStore.ProcessNext | internal/adapter/outbound/memory/event_store.go:128-153 | Success applies the handler and marks the row; failure restores every participant, keeps the counted attempt, and makes the row due after its backoff or a dead letter dated now |
| EventStores.EventStore.DeadBlockedRow | internal/adapter/outbound/memory/event_store.go:335-354 | True exactly when an earlier message of the stream is dead |
| EventStores.EventStore.CountLag | internal/adapter/outbound/memory/event_store.go:236-253 | The number of pending messages not behind a dead letter |
| EventStores.EventStore.CountBlocked | internal/adapter/outbound/memory/event_store.go:313-330 | The number of pending messages behind a row in its stream |
| EventStores.EventStore.RequeueDeadLetter | internal/adapter/outbound/memory/event_store.go:294-309 | Found exactly when such a dead letter exists; resets that one row and raises the lag by one plus its blocked count |
| EventStores.UnitOfWork.Within | internal/adapter/outbound/memory/unit_of_work.go:37-54 | On failure every participant equals its state before the callback; on success the handler's effect stands; a nested call restores nothing |
| Engines.Engine.Step | pkg/outbox/engine.go:111-119 | Counts exactly the outcome of at most one message |
| Engines.Engine.Drain | pkg/outbox/engine.go:126-162 | On a settled, unfiltered, succeeding subscription it processes exactly the lag, up to the drain bound, and leaves the dead letters; a pass under the bound ends with nothing claimable |
| Outbox.RetryDelay | pkg/outbox/outbox.go:96-112 | The early-stopping doubling loop computes min(max, base times two to the attempts minus one) |
| Outbox.BackoffGrows | pkg/outbox/outbox.go:96-130 | The delay is positive, never shrinks from one attempt to the next and stays within the cap |
| Outbox.BackoffDoubles | pkg/outbox/outbox.go:96-112 | The first delay is the base and every further one twice the one before, both cut at the maximum; a second and five minutes where the policy is silent |
| Outbox.NormaliseFills | pkg/outbox/outbox.go:91-130 | Missing fields become eight attempts, a second, five minutes and a minute; given ones stay, and normalising changes no delay |
| Analytics.AnalyticsRepository.AddRollupDelta | internal/adapter/outbound/memory/analytics_repository.go:88-121 | Adds one signed delta to the one bucket its key names |
| Analytics.AnalyticsRepository.Snapshot | internal/adapter/outbound/memory/analytics_repository.go:124-140 | Returns the whole state, buckets and contributions |
| Analytics.AnalyticsRepository.Restore | internal/adapter/outbound/memory/analytics_repository.go:124-140 | Puts exactly that state back |
| Analytics.AnalyticsProjection.Adjust | internal/core/service/analytics_projection.go:79-103 | The nested loops write exactly the signed contribution to category and tag buckets at all four granularities |
| Analytics.AnalyticsProjection.Handle | internal/core/service/analytics_projection.go:42-75 | Fails exactly on undecodable or invalid bodies; otherwise reverses the old contribution and applies the new one |
| Rollups.RefusesExactly | internal/core/service/analytics_projection.go:42-75 | Exactly undecodable bodies and active expenses without owner, category, currency or time are refused; what is no expense changes nothing |
| Rollups.AppliedAndReversedReads | internal/core/service/analytics_projection.go:79-103 | Applying adds a contribution's share to every bucket; reversing takes exactly that away |
| Rollups.HandledKeepsConsistent | internal/core/service/analytics_projection.go:42-75 | Handling any event keeps every bucket equal to the sum over stored contributions |
| Rollups.HandledReflectsNext | internal/core/service/analytics_projection.go:42-75 | After an event the model reflects it as that expense's latest |
| Rollups.ReflectedTotals | internal/core/service/analytics_projection.go:30-41 | A reflecting model reads as the direct sum over the last events |
| Rollups.HandledAgainIff | internal/core/service/analytics_projection.go:42-75 | Handling a message once more is harmless exactly when it is still its expense's latest or both are tombstones |
| Rollups.ReplayReflects | internal/core/service/analytics_projection.go:30-75 | Handling any whole schedule from empty reflects each expense's last event |
| Rollups.SchedulesAgree | internal/core/service/analytics_projection.go:30-75 | Two schedules that keep each expense's own order give the same bucket totals, however they interleave |
| Rollups.BucketIsSumOfDays | internal/core/domain/projection.go:208-228 | Every week, month and year bucket is the sum of the day buckets it contains |
| Rollups.ShareByDays | internal/core/domain/projection.go:214-228 | Of a period's day buckets a contribution counts in exactly the one of its own day |
| Agreement.SpendIsSumOfBuckets | internal/adapter/outbound/memory/budget_usage_repository.go:86-100 | The spend of a calendar window is the sum over currencies of the analytics category buckets of that period |
| Agreement.ProjectionsAgree | internal/core/service/budget_usage_projection.go:162-190 | Where both projections have seen the same expenses, an exact budget row equals what the analytics buckets read, summed over currencies |
| Periods.PeriodsPartitionTime | internal/core/domain/projection.go:214-228 | Two instants share a period exactly when one lies between the other's period bounds |
| Periods.PeriodContains | internal/core/domain/projection.go:214-228 | Every instant lies in its own period |
| Periods.PeriodsAreConsecutive | internal/core/domain/projection.go:214-228 | A period's end is the start of the next |
| Periods.DaysNest | internal/core/domain/projection.go:214-228 | No day straddles the bounds of a coarser period |
| Periods.PeriodMeans | internal/core/domain/projection.go:214-228 | The four periods in calendar fields: the same day, the same week from Monday, the same month, the same year |
| Periods.WeeksBeginOnMonday | internal/core/domain/projection.go:217-220 | Weeks begin at midnight on a Monday |
| Periods.WindowMeans | internal/core/domain/projection.go:233-255 | A daily, weekly, monthly or yearly window holds exactly the instants of that day, week, month or year |
| Periods.CustomWindowMeans | internal/core/domain/projection.go:245-250 | A custom window runs from midnight of the creation day to the due date, or to the same date a century on |
| Periods.CalendarWindowsPartition | internal/core/domain/projection.go:233-255 | A calendar budget window contains its query time, and windows partition the timeline |
| Periods.CustomWindowIgnoresTheInstant | internal/core/domain/projection.go:245-250 | A custom window is one and the same at every instant and reaches back only to the creation day |
| Periods.WindowContainsIff | internal/core/domain/projection.go:230-255 | A window contains the queried instant if and only if it is a calendar window or the instant lies between creation day and end |
| Periods.CustomWindowCanMiss | internal/core/domain/projection.go:245-250 | A concrete custom budget and instant outside its window |
| Periods.LastReportEndsAtCurrentStart | internal/core/domain/report.go:48-79 | The last completed report period is a period of its kind and ends exactly where the current one starts |
| Calendar.DecodeEncoded | internal/core/domain/scheduled_payment.go:157-183 | Encoding a valid date and decoding it gives the same month, day and clock |
| Calendar.MonthOfDayUnique | internal/core/domain/scheduled_payment.go:157-183 | Exactly one month contains a day |
| Calendar.AddDays | internal/core/domain/scheduled_payment.go:189-200 | Adding days is a shift by whole days, whatever months it crosses |
| Calendar.AddDateKeepsDay | internal/core/domain/report.go:52-79 | Adding years and months keeps the day of the month and the clock wherever the target month has such a day |
| Calendar.YearStartClosedForm | internal/core/domain/scheduled_payment.go:157-161 | Days before a year in closed form: 365 each, and a leap day every 4th, not every 100th, but every 400th |
| Calendar.MonthTable | internal/core/domain/scheduled_payment.go:157-161 | Where each month begins in its year, by the day counts of the calendar |
| Calendar.UnixEpoch | internal/core/domain/projection.go:217-220 | The first of January 1970 is day 719162 and a Thursday |
| Spending.UsageIsExact | internal/core/service/budget_usage_projection.go:64-158 | Over any run of expense events, limit edits and budget events, uncategorised expenses included, every stored row of a live budget equals the full sum over its window |
| Spending.ExpenseKeepsExactIff | internal/core/service/budget_usage_projection.go:70-135 | An expense event keeps every row exact if and only if the contribution has a time, or no row misses it |
| Spending.ZeroTimeExpenseGoesStale | internal/core/service/budget_usage_projection.go:100-112 | A concrete expense at the zero time leaves a stored row wrong |
| Spending.RowAfterExpense | internal/core/service/budget_usage_projection.go:70-135 | Row by row, exactly when a stored row is right after an expense event |
| Spending.RemovedBudgetsRest | internal/adapter/outbound/memory/budget_usage_repository.go:54-69 | Expense events leave a removed budget's rows as they are, give it no new ones and raise no alert for it |
| Spending.OtherBudgetsRest | internal/core/service/budget_usage_projection.go:100-135 | Expense events reach only the budgets of an owner and category the expense had or has |
| Spending.RecomputedRecord | internal/core/service/budget_usage_projection.go:162-190 | Recomputing many windows sets one row by its own sum alone and raises that row's alert alone |
| Spending.RecomputedIsExact | internal/core/service/budget_usage_projection.go:162-190 | A recomputed window holds the full sum, whatever was recomputed beside it |
| Spending.EndFollowsStart | internal/core/domain/projection.go:233-255 | A budget and a window start determine the window's end |
| Spending.LevelIsHighestRung | internal/core/domain/projection.go:294-307 | The stored level is the highest rung reached since spend was last below the threshold |
| Spending.AlertIffRecordRises | internal/core/domain/projection.go:263-307 | An alert fires exactly when the record rises |
| Spending.OneAlertPerRung | internal/core/domain/projection.go:257-307 | Between two alerts at one rung spend fell below the threshold |
| Spending.RecordFallsOnlyByReset | internal/core/domain/projection.go:292-307 | The record falls only to zero, and only when spend is below the threshold |
| Spending.TopRungIffOverLimit | internal/core/domain/projection.go:263-276 | The top rung is reached exactly when spend is at least the limit |
| Spending.PercentAtLeast | internal/core/domain/projection.go:263-276 | The percentage is the spend in hundredths of the limit, cut to a whole number |
| Spending.RungMeans | internal/core/domain/projection.go:263-307 | Which rung a spend reaches and when it clears the record, in amounts |
| Spending.AlertSaysWhatIsSo | internal/core/domain/projection.go:277-289 | An alert names the budget, its owner and period, what was spent of what, the percentage, and whether the limit is reached |
| Spending.StoredRecordIsLevel | internal/core/service/budget_usage_projection.go:139-190 | In every run each row's stored level follows its own spends since a budget event last dropped it, under the limits then in force, and while those are fixed it is the ladder's level |
| Spending.RecordIsLevel | internal/core/domain/projection.go:292-307 | Under a fixed limit and threshold the record of a history of recomputations is the ladder's level over its spends |
| Spending.CrossesIffRises | internal/core/domain/projection.go:257-307 | Under any limit and threshold a crossing is exactly a rise of the record |
| Spending.AlertQueuedIffRecordRises | internal/core/service/budget_usage_projection.go:162-190 | In every run the next change raises one alert for a row exactly when it raises the row's stored level, and none otherwise |
| BudgetUsage.BudgetUsageRepository.SumContributions | internal/adapter/outbound/memory/budget_usage_repository.go:86-100 | The loop totals exactly the active contributions of the half-open window, in any map order |
| BudgetUsage.BudgetUsageRepository.ListBudgetsForCategory | internal/adapter/outbound/memory/budget_usage_repository.go:54-69 | Exactly the live budgets of the owner and category, each once |
| BudgetUsage.BudgetUsageRepository.GetBudget | internal/adapter/outbound/memory/budget_usage_repository.go:72-83 | Finds a budget exactly when it is live |
| BudgetUsage.BudgetUsageRepository.DeleteUsage | internal/adapter/outbound/memory/budget_usage_repository.go:122-131 | Drops exactly the rows of one budget |
| BudgetUsage.BudgetUsageProjection.AffectedWindows | internal/core/service/budget_usage_projection.go:100-135 | The windows of every budget in scope of the old or the new contribution, each once and no others |
| BudgetUsage.BudgetUsageProjection.Recompute | internal/core/service/budget_usage_projection.go:162-190 | Each row gets the full sum and the new level; alerts are queued in order, and none on replay |
| BudgetUsage.BudgetUsageProjection.HandleExpense | internal/core/service/budget_usage_projection.go:70-95 | Stores the contribution and recomputes exactly the affected windows; replay changes state alike and queues nothing |
| BudgetUsage.BudgetUsageProjection.HandleBudget | internal/core/service/budget_usage_projection.go:139-158 | Recomputes the current window of a live budget, or drops the rows of one that is gone |
| Recurrence.DayZeroIsLastDay | internal/core/domain/scheduled_payment.go:157-161 | Day zero of the next month is this month's last day |
| Recurrence.ClampedLanding | internal/core/domain/scheduled_payment.go:171-183 | A jump lands in the right month on min(anchor day, month length), clock cut to whole seconds |
| Recurrence.ClampedJumpsCompose | internal/core/domain/scheduled_payment.go:171-183 | Two jumps with one anchor are one jump, however short the month between |
| Recurrence.OccurrenceIsOneJump | internal/core/domain/scheduled_payment.go:189-206 | The n-th occurrence is one jump of n times the frequency's months |
| Recurrence.StartIsOneJumpIff | internal/core/domain/scheduled_payment.go:171-183 | The start date is a jump of zero months exactly when its clock is in whole seconds |
| Recurrence.FrequencyMeans | internal/core/domain/scheduled_payment.go:145-206 | Monthly is a month on, quarterly three, yearly a year in the same month, a day interval that many days, per occurrence |
| Recurrence.ReminderMeans | internal/core/domain/scheduled_payment.go:214-221 | A notice is due exactly when the payment asks for one, that many whole days ahead |
| Recurrence.NoDrift | internal/core/domain/scheduled_payment.go:157-206 | Every later occurrence lands on min(anchor day, length of its month) |
| Recurrence.DayIntervalsAreEven | internal/core/domain/scheduled_payment.go:189-200 | Occurrences of a day interval are evenly spaced |
| Recurrence.NextDueIsLater | internal/core/domain/scheduled_payment.go:189-206 | Every scheduled frequency moves strictly forward |
| Recurrence.OccurrencesIncrease | internal/core/domain/scheduled_payment.go:189-206 | Occurrences strictly increase |
| Recurrence.RescheduleFrom | internal/core/service/scheduled_payments.go:372-381 | Returns the first occurrence after the last posting, or the 1000th |
| Payments.ScheduledPaymentRepository.CollectDue | internal/adapter/outbound/memory/scheduled_payment_repository.go:99-112 | Exactly the active payments due by the horizon, oldest first |
| Payments.ScheduledPaymentRepository.ListDueScheduledPayments | internal/adapter/outbound/memory/scheduled_payment_repository.go:99-117 | The oldest payments due, as many as the limit allows, oldest first; nothing cut off is older than anything kept |
| Payments.ScheduledPaymentRepository.ClaimPosting | internal/adapter/outbound/memory/scheduled_payment_repository.go:121-130 | Wins exactly when the row is new, and a loss changes nothing |
| Payments.ScheduledPaymentRepository.AdvanceSchedule | internal/adapter/outbound/memory/scheduled_payment_repository.go:133-144 | Moves the cursor of a payment that is not deleted, and of no other |
| Payments.ScheduledPaymentService.ClaimAndNotify | internal/core/service/scheduled_payments.go:294-309 | Queues the notice exactly when it wins the ledger row |
| Payments.ScheduledPaymentService.RunOccurrence | internal/core/service/scheduled_payments.go:242-289 | Reminder, pause at the end date, lost claim, posting, or an error at a deleted payment's cursor: the whole new state for each branch |
| Payments.ScheduledPaymentService.PostDue | internal/core/service/scheduled_payments.go:220-237 | One pass runs the batch of oldest due payments in order, past failures, and returns how many occurrences it posted and which payments failed |
| Payments.ReminderWindowMeans | internal/core/service/scheduled_payments.go:246-253 | A reminder is sent in the whole days before the due date that the payment asks for, and not from the due date on |
| Payments.WantedMeans | internal/core/service/scheduled_payments.go:220-224 | A pass asks for exactly the active payments due within 60 days |
| Payments.RemindersAreListed | internal/core/service/scheduled_payments.go:24-28 | So it overlooks no due date and no reminder of up to 60 days |
| Payments.TurnCounts | internal/core/service/scheduled_payments.go:269-288 | A turn counts one exactly when it wins the due row of a payment that is not gone; a lost claim leaves the books as they were |
| Payments.TurnFailsIff | internal/core/service/scheduled_payments.go:258-287 | A turn fails exactly when it has to move the cursor of a payment that is gone |
| Payments.TurnMovesOnly | internal/core/service/scheduled_payments.go:258-287 | A won due row moves the cursor to the next occurrence and stops the payment exactly when that is past its end date; other payments are untouched |
| PostingRuns.PassAddsOnly | internal/core/service/scheduled_payments.go:242-338 | A pass only adds: rows dated now for listed payments whose reminder or due date has come, and expenses of the payment's amount under the id their row records |
| PostingRuns.PassKeepsBooks | internal/core/service/scheduled_payments.go:294-338 | Passes keep one notice per ledger row and one expense per row that names one |
| PostingRuns.PassesPostExactlyTheDue | internal/core/service/scheduled_payments.go:214-289 | However many payments are due and whatever the batch cuts off, repeating the pass at a fixed time comes to a pass that returns zero, and by then exactly the occurrences due by then and by the end date are posted, once each, in order, at the payment's amount, with one ledger row each |
| PostingRuns.PassShortensBacklog | internal/core/service/scheduled_payments.go:214-237 | Each pass, cut or not, works off some of the backlog of overdue time until nothing is overdue |
| PostingRuns.BatchHoldsOverdue | internal/adapter/outbound/memory/scheduled_payment_repository.go:99-117 | However short the batch, an overdue payment puts an overdue one on the list |
| PostingRuns.PassOnPayment | internal/core/service/scheduled_payments.go:220-289 | A pass, cut or not, is exactly one turn of each payment it lists and leaves the others alone |
| PostingRuns.NothingDueMeansAllPosted | internal/core/service/scheduled_payments.go:220-289 | Whenever no cursor is due after some passes, every active payment has been posted for exactly its due occurrences |
| PostingRuns.ZeroMeansAllPosted | internal/core/service/scheduled_payments.go:220-289 | While the first batch is not cut, a pass that returns zero means the same |
| PostingRuns.ZeroIffNothingDue | internal/core/service/scheduled_payments.go:220-237 | A pass returns zero if and only if nothing it lists is due; uncut, if and only if no payment's cursor is |
| PostingRuns.NothingStaysDue | internal/core/service/scheduled_payments.go:220-289 | After as many passes as the backlog is long no cursor of the book is due |
| PostingRuns.PassKeepsReady | internal/core/service/scheduled_payments.go:220-289 | A pass, cut or not, keeps every active cursor at the occurrence its ledger rows say and makes no new payment wanted |
| PostingRuns.NoPassIsCut | internal/adapter/outbound/memory/scheduled_payment_repository.go:99-117 | A first batch within the limit leaves no later pass of the run cut |
| PostingRuns.NewPaymentHasCursor | internal/core/service/scheduled_payments.go:90-93 | A new payment, placed at its start date with an empty ledger, starts at occurrence zero |
| PostingRuns.PassIsTurn | internal/core/service/scheduled_payments.go:220-289 | A whole pass over all payments is, for each payment, exactly one turn of its own |
| PostingRuns.TurnMovesCursor | internal/core/service/scheduled_payments.go:260-289 | A due turn takes the cursor's row, posts it and moves to the next occurrence; any other moves nothing |
| PostingRuns.CursorIndexIsRowCount | internal/core/service/scheduled_payments.go:260-289 | The cursor is the occurrence whose index is the number of due rows |
| PostingRuns.TurnsPostTheStretch | internal/core/service/scheduled_payments.go:220-289 | k turns post a stretch of occurrences without gap or repeat, short of k only when nothing is due |
| PostingRuns.PassesRunOut | internal/core/service/scheduled_payments.go:220-289 | Enough turns of one payment always reach one with nothing due |
| Replicas.AtMostOnce | internal/core/service/scheduled_payments.go:239-338 | Under any interleaving, crashes and edits, each payment and due date has at most one auto-posted expense and one notice per kind, and each expense id is on exactly one due ledger row |
| Replicas.StepKeeps | internal/core/service/scheduled_payments.go:242-338 | Every step of every replica keeps the ledger, the expenses, the notices and who may still write them |
| Replicas.LostExactlyByCrash | internal/core/service/scheduled_payments.go:266-289 | In every run a claimed due row ends without its expense, and with nobody to write it, if and only if the replica that won it stopped between claim and expense |
| Replicas.LostStaysLost | internal/core/service/scheduled_payments.go:272-276 | A lost occurrence is never posted by any later step, edits of its payment included |
| Replicas.LostOnlyByCrash | internal/core/service/scheduled_payments.go:272-282 | The only step that loses an occurrence is the crash of the replica that owes its expense |
| Replicas.LostCursorStays | internal/core/service/scheduled_payments.go:272-276 | For a payment created and never edited, a lost occurrence at the cursor keeps the cursor there however the run goes on |
| Replicas.StrandedRun | internal/core/service/scheduled_payments.go:272-289 | The same for any claimed row at the cursor whose winner is gone, whether or not its expense was written |
| Replicas.UneditedRun | internal/core/service/scheduled_payments.go:242-289 | While a payment is not edited, whoever is posting it is at the cursor, and copies left behind are of occurrences already claimed |
| Replicas.CursorFollowsOccurrences | internal/core/service/scheduled_payments.go:242-338 | Whatever replicas do and wherever they crash, a payment created at its start date and never edited has its cursor at an occurrence, due rows for exactly the ones before it and perhaps the one at it, and only expenses of its amount |
| Replicas.RowsAreDated | internal/core/service/scheduled_payments.go:294-302 | A ledger row carries the clock of the step that won it and is never rewritten |
| Replicas.AloneIsATurn | internal/core/service/scheduled_payments.go:220-289 | Undisturbed, the separate steps of one replica on a listed payment come to exactly that payment's turn in the sequential pass |
| Replicas.ReplicasActOnlyWhenDue | internal/core/service/scheduled_payments.go:242-268 | A replica lists what a pass asks for and acts only in the reminder window, once due, or past the end date |
| Replicas.EditFreesTheCursor | internal/core/service/scheduled_payments.go:242-289 | After an edit a copy listed before it can still move the cursor of a lost occurrence |
| Replicas.SilentExactlyByDrop | internal/core/service/scheduled_payments.go:294-309 | In every run a claimed row ends without its notice, and with nobody to queue it, if and only if its winner stopped before notifying or notified while notices were off |
| Replicas.SilentOnlyByDrop | internal/core/service/scheduled_payments.go:294-309 | Those are the only two steps that lose a notice |
| Replicas.ClaimThenCrashStrands | internal/core/service/scheduled_payments.go:266-289 | For every due payment, creating, listing, claiming and crashing strands the cursor and loses the expense |
| RateLimit.FixedWindow.Allow | pkg/ratelimit/fixed_window.go:39-58 | Answers each call of a trace exactly as a limiter that never evicts |
| RateLimit.FixedWindow.EvictExpired | pkg/ratelimit/fixed_window.go:68-77 | Drops exactly the entries whose window has closed |
| RateLimit.SweepKeepsOpenWindows | pkg/ratelimit/fixed_window.go:68-77 | Sweeping and time keep agreement on the open windows |
| RateLimit.SweepKeepsExactlyTheOpen | pkg/ratelimit/fixed_window.go:68-77 | The sweep forgets exactly the windows that have closed |
| RateLimit.AnswersAgree | pkg/ratelimit/fixed_window.go:39-58 | Tables that agree on open windows answer alike and still agree afterwards |
| RateLimit.OpeningsAreSpaced | pkg/ratelimit/fixed_window.go:39-58 | A key's windows start at least one interval apart |
| RateLimit.WindowAdmitsCapacity | pkg/ratelimit/fixed_window.go:39-58 | Each window admits at most max(1, limit) calls |
| RateLimit.ShortSpanAdmitsTwice | pkg/ratelimit/fixed_window.go:39-58 | Any span shorter than the interval admits at most twice that |
| RateLimit.OpensIff | pkg/ratelimit/fixed_window.go:39-58 | A call opens a window exactly when none of its key was opened within the last interval |
| RateLimit.WindowAdmitsTheFirst | pkg/ratelimit/fixed_window.go:39-58 | Within a window exactly the first max(1, limit) calls are admitted |
| ImageProc.AverageColor | pkg/imageproc/imageproc.go:184-205 | The loops compute the mean of each channel, brought to a byte without wrapping; an empty block is transparent black |
| ImageProc.Resize | pkg/imageproc/imageproc.go:149-181 | Keeps an image within the bound; otherwise fills a fresh target of the promised size, each pixel the average of its own block |
| ImageProc.TargetSize | pkg/imageproc/imageproc.go:152-162 | The longest edge becomes exactly the bound and no edge grows or vanishes |
| ImageProc.ProportionsAreKept | pkg/imageproc/imageproc.go:156-162 | The shorter edge keeps the proportions, cut to whole pixels and to no less than one |
| ImageProc.BlocksAreEven | pkg/imageproc/imageproc.go:164-175 | Blocks share an edge evenly, to within a pixel |
| ImageProc.SourceIsTiled | pkg/imageproc/imageproc.go:164-178 | Every source pixel feeds exactly one target pixel |
| ImageProc.TargetShowsItsSource | pkg/imageproc/imageproc.go:163-205 | A target pixel shows the colour of exactly the source pixels that feed it |
| ImageProc.BlocksAreNonEmpty | pkg/imageproc/imageproc.go:164-175 | No block is empty when the edge does not grow |
| ImageProc.BlocksNeedNoWidening | pkg/imageproc/imageproc.go:167-175 | The widening of empty blocks never applies, so widened blocks tile as well |
| ImageProc.EmptyEdgeTakesOnePixel | pkg/imageproc/imageproc.go:164-175 | No block is ever empty: one that would be takes a single pixel |
| ImageProc.MeanBetweenExtremes | pkg/imageproc/imageproc.go:184-205 | Each averaged channel lies between its block's extremes |
| ImageProc.PlainBlockKeepsItsColour | pkg/imageproc/imageproc.go:184-205 | A block of one colour averages to that colour, each channel in its own place |
| ImageProc.MeanBelowAlpha | pkg/imageproc/imageproc.go:184-205 | With premultiplied input no averaged channel exceeds the averaged alpha |
| Report.BucketBoundaries | pkg/report/pdf.go:421-442 | Exactly the bucket starts before the end, in closed form, or the start alone when there is none |
| Report.BoundsIncrease | pkg/report/pdf.go:421-442 | Boundaries strictly increase and there is at least one |
| Report.ReportBucketCounts | pkg/report/pdf.go:416-442 | A weekly report has 7 bars, a yearly one 12, a monthly one 4 or 5 |
| Report.FirstAfter | pkg/report/pdf.go:468 | The first bound after a row's time, or their number |
| Report.BuildTimeBuckets | pkg/report/pdf.go:458-477 | Each bucket holds exactly the categories spent on in it, each with exactly what the rows of the currency add up to |
| Report.RowsAreEnclosed | pkg/report/pdf.go:458-477 | Every row lands in exactly one bucket, and inside the period that bucket's boundaries enclose its time |
| Report.ChartTotalsAgree | pkg/report/pdf.go:454-477 | The chart's total over all buckets and categories is the row total in that currency |
| Report.NiceCeiling | pkg/report/pdf.go:479-496 | The least value 1, 2 or 5 times a power of ten at or above a positive maximum; 1 otherwise |
| Tokens.FamiliesAreChains | internal/adapter/outbound/memory/identity_repository.go:178-207 | In every run with fresh ids a family is one chain linked by replacement, with at most one live token, its last |
| Tokens.ChainIsUnique | internal/adapter/outbound/memory/identity_repository.go:189-207 | A family's tokens and links determine its chain |
| Tokens.RotationExtendsChain | internal/adapter/outbound/memory/identity_repository.go:189-207 | A successful rotation appends to the family's chain and revokes what was its last token |
| Tokens.RotationHandsOver | internal/adapter/outbound/memory/identity_repository.go:189-207 | When each outcome happens, and that a rotation kills and links the old token and makes the new one live in its family |
| Tokens.CreationStores | internal/adapter/outbound/memory/identity_repository.go:178-187 | A new token is stored as given and found by its hash, or refused |
| Tokens.RevokedIsDead | internal/adapter/outbound/memory/identity_repository.go:209-220 | A revoked token is not live, keeps its other fields, and nothing else changes |
| Tokens.RevokeAllReachesExactlyTheUser | internal/adapter/outbound/memory/identity_repository.go:222-234 | Exactly the user's live tokens are revoked |
| Tokens.StepKeeps | internal/adapter/outbound/memory/identity_repository.go:178-234 | Every operation keeps the hash index exact and every family a chain |
| Tokens.SpentStaysSpent | internal/core/service/auth.go:144-156 | A token once rotated or revoked is never accepted for rotation again |
| Tokens.RevokedUserStaysOut | internal/adapter/outbound/memory/identity_repository.go:222-234 | After revoking all of a user's tokens none is live until the user signs in anew, and nobody else's is touched |
| Tokens.IdentityRepository.GetRefreshTokenByHash | internal/adapter/outbound/memory/identity_repository.go:168-176 | Finds the token with a hash exactly when one is stored |
| Tokens.IdentityRepository.CreateRefreshToken | internal/adapter/outbound/memory/identity_repository.go:178-187 | Stores and indexes a token, or refuses a known hash and changes nothing |
| Tokens.IdentityRepository.RotateRefreshToken | internal/adapter/outbound/memory/identity_repository.go:189-207 | Revokes, links and replaces in one step, or refuses and changes nothing |
| Tokens.IdentityRepository.RevokeRefreshToken | internal/adapter/outbound/memory/identity_repository.go:209-220 | Revokes a live token; anything else is left alone |
| Tokens.IdentityRepository.RevokeAllRefreshTokens | internal/adapter/outbound/memory/identity_repository.go:222-234 | The loop revokes exactly the user's live tokens |

## Left out

Deliberate limits of what is stated:

- Protocol.RollupsAreExact: holds of runs whose reports are harmless, which `Protocol.RunKeepsIff` shows to be necessary too; every subscription runs the analytics handler with the filter `expense`, and events are filed under the id of the expense they carry (internal/core/service/expenses.go:367).
- Protocol.StreamsAreSafe: the same runs, for the same reason.
- Protocol.LateSubscriptionCatchesUp: the same runs, for the same reason.
- EventStores.EventStore.ProcessNext: one atomic step with a constant clock; in the original the processed mark follows the unit of work and other goroutines may run between.
- EventStores.EventStore.Candidates: list order is already event order, so the original's sort by global number is the identity and is not repeated.
- EventStores.EventStore.RequeueDeadLetter: the outbox id string is the pair of subscription and global number it is printed from.
- EventStores.UnitOfWork.Within: participants are analytics repositories, and the callback is the analytics handler followed by a step that may fail.
- Engines.Engine.Step: error texts and a failing store are left out; the in-memory store never returns an error.
- Engines.Engine.Drain: exact draining is stated for an empty type filter, because lag counts types the subscription never claims; the exit on a store error, polling, cancellation and health are left out.
- Spending.UsageIsExact: edits of a budget reach its limit and threshold, not its category, period or due date; active expenses have a time, as the commands require (internal/core/service/expenses.go:339); sums ignore currency as the code does (internal/adapter/outbound/memory/budget_usage_repository.go:86-100).
- Spending.TopRungIffOverLimit: integers are unbounded, so the original's overflow of spend times one hundred is not modelled.
- PostingRuns.PassesPostExactlyTheDue: nobody edits the payments between passes and no step fails.
- Payments.ScheduledPaymentService.RunOccurrence: the one error modelled is a cursor that cannot be moved; failures of storage, notices and posting are `Crash` steps of `Replicas`.
- Payments.ScheduledPaymentService.PostDue: the same errors as `RunOccurrence`.
- PostingRuns.PassAddsOnly: of a posted expense the model keeps id, payment, due date and amount; title, category, tags, currency and group are copied along in the original.
- Replicas.AtMostOnce: expense ids are drawn from a counter instead of random UUIDs; notifications and the expense repository are taken to be wired.
- RateLimit.FixedWindow.Allow: the clock is positive and does not go back.
- ImageProc.Resize: pixels outside an image, read only when an edge is empty, are the zero colour for every image type.
- Report.FirstAfter: Go's `sort.Search` is written out as a binary search from its documentation.
- Report.BuildTimeBuckets: bucket labels are left out.
- Tokens.FamiliesAreChains: new tokens carry fresh ids, a new session carries a fresh family, and a rotation keeps the user, as the session service issues them (internal/core/service/auth.go:297-309).

Not modelled:

- Aliasing of delivery rows: rows are values in a sequence, where the original shares pointers to structs.
- JSON decoding of events: handlers start from decoded bodies, and an undecodable one is the body `Malformed`.
- Error texts (`last_error`), worker names, event metadata and rollup descriptors that repeat the bucket key.
- The PostgreSQL checkpoint table, which the code itself calls informational.
- Time zones and daylight saving: times are UTC nanoseconds since year 1.
- Snapshot of the event store itself: it does not restore the subscription set, so subscriptions are registered outside units.
- HTTP, SSE, metrics, SQL text, object storage, mail, JWT and password hashing: I/O and foreign libraries.
- CRUD services, validation, caches, audit log and retention: single branches with no property across operations.
- Notification delivery: it repeats the lease and retry pattern with weaker ordering; alerts and notices are queues here.
- Drawing of PDF pages and encoding of images.
