# Keeping time in upag

upag probes monitors, turns the stream of probe results into states and incidents, writes a timeline of
status intervals per monitor, and reads availability back from that timeline while old probes are compacted
underneath it. This project models that path and proves what has to hold along it: what every step keeps,
what whole runs guarantee, and that the fast in-place forms mean what simple pointwise definitions say.

Times are integer ticks of one nanosecond; the zero time is an absent option. Tables are sequences whose row
ids are positions. Steps that update rows or fields are methods, each proved to leave exactly what a
specification function says; the properties are then proved about those functions.

| file | contents |
|---|---|
| `Basics`, `Sequences`, `Intervals` | times and statuses; selection and sorting; intervals as sets of instants |
| `Accounting`, `Daily` | downtime over windows and over UTC days, against counting bad instants |
| `Observer` | the observer machine and its replay into down intervals |
| `Monitor`, `Storage` | the transition function, a probe's processing, the transactions on one tenant's tables |
| `AlertRules` | what one save, delivery or deletion does to alerts and incidents, row by row |
| `Timeline`, `StateHistory`, `IncidentOrder`, `StreakStarts` | invariants over every run of probes and deletions |
| `OutcomeRuns`, `Rollups`, `Compaction` | run-length encoding, rollups, the retention pass |
| `WindowCounts`, `Retention` | what the uptime query reports of the saved probes, and what a pass leaves in which table |
| `Backfill`, `OnlineOffline`, `LiveBackfill` | the timeline rebuilt from outcome runs, its agreement with the live one, and probes that go on from it |
| `Projection`, `ProjectionView`, `ProjectionUnique`, `StoredProjection` | the displayed history: cut, merged and filtered in one array, and determined by what is stored |
| `AlertQueue`, `Dispatch`, `Dispatcher`, `Alternation`, `Overtaken`, `DispatchTimeline` | the alert queue, and the timeline, under any interleaving |
| `RetryChain`, `RetryOutcomes`, `AlertDelivery` | retries of failed notifications: the chains, what their rows say of the sends, and both together with the queue |
| `TransferGuard`, `GuardMemory` | the slow-transfer guard, its restoration after a restart, and what it samples and remembers |
| `Calendar` | elapsed time in calendar units |

Five promises hold only under a condition. Each condition is exact, and a failing input stands beside it. The
reported downtime is the measure of bad instants exactly when no unexcluded instant of the window lies in two
outages or every instant is bad (`CappedExactly`, `OverlapReportedTwice`); every stored timeline has disjoint
outages, so it meets the condition. `failure_free_since` is the earliest time since which a monitor was UP exactly
when no nonempty UP row ends where the open one starts (`FailureFreeEarliest`, `EqualTimesSplitStreak`).
`downtime_free_since` is the earliest time of the timeline from which nothing is flagged exactly when it is the
timeline's start or a nonempty flagged row ends there (`DowntimeFreeEarliest`, `EqualTimesHideOutage`). Delivered
alerts of a monitor that stays configured alternate exactly when no record call delivers an alert that announces
the status already stored as last announced (`AlternateExactly`, `OvertakenRepeats`); queueing no alert of it
between the claim and the record of another is enough (`DeliveriesAlternate`). A guard that misses a stored sample,
because its save reported failure, goes on to claim no more than one that saw every sample exactly when the sample
was harmless by the guard's own fields: slow, or with no streak to break and nothing to forget (`HarmlessExactly`,
`MissedRecovery`, `MissedStatus`).

## Model

| member | source | states |
|---|---|---|
| Accounting.ExcludedIntervals | internal/storage/storage.go:1471-1487 | merging covers exactly the instants the groups cover together, in ordered pieces that neither overlap nor touch |
| Accounting.ClippedInterval | internal/storage/storage.go:1796-1803 | present exactly when the interval meets the window, and then their common instants |
| Accounting.OverlapDuration | internal/storage/storage.go:1785-1794 | the summed measure of each interval inside the window |
| Accounting.CappedDowntime | internal/storage/storage.go:1767-1779 | the capped sum of guarded net durations, never less than the bad instants, and equal to them exactly under the condition of CappedExactly |
| Accounting.ApplyAvailabilityWindow | internal/storage/storage.go:1753-1783 | with disjoint outages, or whenever that condition holds, downtime is the number of instants of the window in an outage and in no excluded interval, in whole seconds |
| Accounting.CappedExactly | internal/storage/storage.go:1767-1779 | the reported duration is the measure of the bad instants iff no unexcluded instant lies in two outages or the whole window is bad, and never less |
| Accounting.OverlapReportedTwice | internal/storage/storage.go:1768-1779 | two outages over the same four seconds of ten are reported as eight |
| Accounting.AddStrictAvailability | internal/storage/storage.go:1562-1575 | all four windows are exact against maintenance and observer-down time, however those two overlap |
| Intervals.NetTimeExact | internal/storage/storage.go:1767-1776 | summed net time never undercounts the bad instants, and is exact just when no counted instant is in two outages |
| Daily.OneDay | internal/storage/storage.go:1505-1532 | one day's entry: its reportable instants and its bad instants, in whole seconds |
| Daily.MaintenanceByMonitor | internal/storage/storage.go:1497-1500 | grouping gives each monitor exactly its own windows |
| Daily.WindowInstants | internal/storage/storage.go:1497-1500 | those windows hold exactly the instants some stored window of the monitor holds |
| Daily.DailyUptime | internal/storage/storage.go:1489-1538 | one entry per day and monitor, each counting that day's instants |
| Daily.DaysPartitionWindow | internal/storage/storage.go:1505-1530 | unrounded, reportable and downtime durations of n days add up to those of the whole span |
| Daily.TruncatedDays | internal/storage/storage.go:1529-1530 | truncated daily seconds fall short of the truncated whole by at most n - 1 |
| Daily.DailyAgreesWithWindow | internal/storage/storage.go:1489-1538 | daily seconds against the window from the first midnight: sum <= window <= sum + n - 1 |
| Observer.Quorum | internal/observer/observer.go:33-53 | healthy exactly when enough results succeeded |
| Observer.TransitionsAlternate | internal/observer/observer.go:117-154 | transitions emitted from an unknown start alternate beginning with DOWN, and the status is their parity; when they are emitted is EmitsExactly |
| Observer.EmitsExactly | internal/observer/observer.go:117-154 | over every check list: DOWN exactly when not down and the unhealthy checks in a row reach that check's failure threshold, UP exactly when down and the healthy ones reach its recovery threshold, thresholds below one read as one |
| Observer.StateReadsOff | internal/observer/observer.go:117-154 | the state's counters are the checks of one outcome since the last of the other, its times those of the last ones |
| Observer.ObserverDownIntervals | internal/storage/storage.go:1451-1467 | the loop computes the pairing of transitions that the replay lemmas are about |
| Observer.ReplayMatchesStatus | internal/storage/storage.go:1451-1467 | replaying what was emitted recovers the status after every check |
| Observer.ObserverReplay | internal/storage/storage.go:1447-1467 | an instant is in a down interval iff the last check at or before it left the observer down |
| Monitor.IncidentsFollowState | internal/monitor/transition.go:16-47 | UP exactly on the success that ends a confirmed outage, DOWN exactly on entering DOWN, and at once after maintenance |
| StateHistory.ProbesAreLogged | internal/app/runner.go:594-734 | every probe leaves one row, marked by exactly what held it back, in the order the checks are made; a suppressed failure changes nothing else |
| StateHistory.StateFromLog | internal/app/runner.go:923-947 | over every run, deletions included, the stored state is what the probe log says since it was last deleted: times, failure count and kind of status |
| StateHistory.StateShowsTimeline | internal/storage/storage.go:809-816 | over every run the status before maintenance is the one the monitor's timeline ends with, UNKNOWN while it has not been judged since its state was deleted |
| StateHistory.FirstAlert | internal/storage/storage.go:875-898 | a monitor's first incident, or the first since its state was deleted, queues an alert exactly when it differs from what is shown |
| Storage.LatestOpen | internal/storage/storage.go:909-912 | the monitor's open row that is latest by start and then by id, and none only when there is none |
| Storage.Store.FindOpen | internal/storage/storage.go:909-912 | the query's row is the specified one |
| Storage.Store.WriteStatusInterval | internal/storage/storage.go:905-936 | the timeline after the write is the specified one |
| Storage.Store.CancelAlerts | internal/storage/storage.go:857-860 | exactly the monitor's pending alerts that do not match are cancelled |
| Storage.Store.Save | internal/storage/storage.go:803-903 | all seven tables after the transaction |
| AlertRules.AlertsAfterSave | internal/storage/storage.go:857-900 | from any state read: all pending alerts of the monitor that no longer match are cancelled; an incident is stored with the probe's time, and an alert with it exactly when its status is not the one last announced, or stored before the save if none was |
| AlertRules.DeliveryRecords | internal/storage/storage.go:2089-2137 | which rows can be recorded, which are already, and what recording stores |
| AlertRules.DropsForget | internal/storage/storage.go:2476-2516 | a dropped monitor loses its state, its pending alerts and what was last announced of it; the others keep theirs |
| Storage.Store.RunProbe | internal/app/runner.go:594-734 | all seven tables after one processed probe |
| Storage.Store.FinishProbe | internal/app/runner.go:640-734 | the same when the state was read earlier and may have been replaced since |
| Storage.Store.ClaimPendingMonitorAlert | internal/storage/storage.go:2076-2087 | a claim succeeds iff the row is pending and the stored status is the one announced |
| Storage.Store.RecordPendingMonitorAlertDelivery | internal/storage/storage.go:2089-2137 | the tables after a record, its idempotence on delivered rows and its two errors |
| Storage.Store.DropStatesExcept | internal/storage/storage.go:2476-2516 | the tables after monitors leave the configuration |
| Timeline.SaveExtendsChain | internal/storage/storage.go:905-936 | a write extends its monitor's chain of rows and touches no other's |
| Timeline.ExtendKeepsChain | internal/storage/storage.go:923-936 | the extension keeps the chain: gap-free, only the last row open, neighbours different, downtime exact |
| Timeline.TimelineInvariant | internal/storage/storage.go:852-940 | the chain holds after every run with nondecreasing times, maintenance, suppression and deletions included |
| DispatchTimeline.TimelineThroughout | internal/storage/storage.go:852-940 | and under any interleaving with claims and records in which probes are saved from states others have replaced since |
| Timeline.ListDowntimeIntervals | internal/storage/storage.go:1603-1631 | each monitor's outages in order, an open one lasting until now |
| Timeline.OutagesDisjoint | internal/storage/storage.go:1603-1631 | outages of a stored timeline never overlap |
| Timeline.OutagesAreFlagged | internal/storage/storage.go:1603-1631 | below now they cover exactly the instants flagged as downtime |
| IncidentOrder.IncidentsOrdered | internal/app/runner.go:657-734 | over every run: each UP answers a DOWN with no UP and no deletion of the state between; two DOWNs with neither between are separated by a maintenance probe; the incident table is that order |
| IncidentOrder.RememberedSinceDrop | internal/storage/storage.go:875-885 | over every run something is remembered as announced of a monitor exactly when an incident of it was raised since its state was last deleted |
| StreakStarts.DowntimeFree | internal/storage/storage.go:1871-1897 | downtime-free-since <= failure-free-since, and nothing from it on is flagged |
| StreakStarts.NotUpHasNone | internal/storage/storage.go:1871-1897 | a monitor whose timeline does not end UP has neither |
| StreakStarts.DowntimeFreeIs | internal/storage/storage.go:1871-1897 | it is the end of the last DOWN row, or the start of the first row when there is none |
| StreakStarts.DowntimeFreeEarliest | internal/storage/storage.go:1871-1897 | it is the earliest time of the timeline from which nothing is flagged iff it is the timeline's start or a nonempty flagged row ends there |
| StreakStarts.DowntimeFreeEarliestWhenStrict | internal/storage/storage.go:1871-1897 | earliest whenever row starts strictly increase |
| StreakStarts.FailureFreeEarliest | internal/storage/storage.go:1871-1897 | UP throughout from failure-free-since, which is earliest iff no nonempty UP row ends where the open one starts |
| StreakStarts.FailureFreeEarliestWhenStrict | internal/storage/storage.go:1871-1897 | earliest whenever row starts strictly increase |
| StreakStarts.StoredStreakStarts | internal/storage/storage.go:1871-1897 | all of this on every stored timeline that ends UP; both are the earliest when the monitor's clock advances |
| StreakStarts.EqualTimesSplitStreak | internal/storage/storage.go:1872-1877 | three probes, two of them with one timestamp, store a timeline whose failure-free-since is later than it could be |
| StreakStarts.EqualTimesHideOutage | internal/storage/storage.go:1872-1877 | with a threshold of one the same three probes flag nothing, yet downtime-free-since is later than it could be |
| Rollups.RollupConserves | internal/storage/storage.go:2622-2704 | moving old rows into coarser buckets and deleting them keeps every aligned window's counts and first/last times |
| Rollups.MovedAndKept | internal/storage/storage.go:2649-2671 | at an aligned boundary moved and kept rows add up exactly; at any other, nothing is gained |
| Rollups.MidnightSplitsBuckets | internal/storage/storage.go:2694-2704 | a UTC midnight never falls inside a minute, hour or day bucket |
| Retention.BucketsHold | internal/storage/storage.go:2694-2704 | a bucket is the start of the minute, hour or day holding its time |
| Retention.PassLeaves | internal/storage/storage.go:2524-2571 | after a pass a table holds just what is no older than its own retention, what was too old for it having moved to its minute, hour or day in the next |
| Rollups.PruneSum | internal/storage/storage.go:2560-2567 | pruning loses no count of a window that starts no earlier |
| Compaction.ProbeStore.RollupAndPruneProbeResults | internal/storage/storage.go:2524-2571 | all five tables after a retention pass |
| Compaction.ProbeStore.AppendRun | internal/storage/storage.go:2600-2620 | the run table after one appended probe |
| Compaction.ProbeStore.CompactRaw | internal/storage/storage.go:2573-2598 | the run table after compaction of all old reportable rows |
| Compaction.ProbeStore.RollupTable | internal/storage/storage.go:2649-2671 | the target table after one rollup statement |
| Compaction.WindowsConserved | internal/storage/storage.go:1383-1422 | after any probes and passes no window counts too much, and windows from a midnight beyond what was pruned count what the probes saved add up to |
| WindowCounts.WindowReportsProbes | internal/storage/storage.go:1383-1422 | over every run, from a midnight or no cutoff beyond what was pruned: total is the number of saved probes with no maintenance and no suppression, successful that of those that were ok, the maintenance and observer-down counts likewise, and the first and last times are the least and greatest of the total's probes |
| WindowCounts.WindowReportsBetween | internal/storage/storage.go:1383-1422 | from any other moment each number lies between those of the probes from the next midnight and of the probes from that moment |
| Compaction.RetainedCountsConserved | internal/storage/storage.go:2524-2571 | with daily retention forever the retained totals and first/last times are what the probes saved add up to, whatever the passes |
| Compaction.WindowBetweenMidnights | internal/storage/storage.go:1383-1422 | a window from any moment lies between the exact counts from it and from the next UTC midnight |
| OutcomeRuns.RleEncodes | internal/storage/storage.go:2600-2620 | the encoding is maximal: blocks cover the history and neighbours differ |
| OutcomeRuns.EncodingUnique | internal/storage/storage.go:2600-2620 | there is only one maximal encoding |
| OutcomeRuns.LatestRun | internal/storage/storage.go:2603-2606 | the monitor's run that is latest by start and then by id |
| OutcomeRuns.AppendMerges | internal/storage/storage.go:2600-2620 | an appended probe merges into its own monitor's runs only |
| OutcomeRuns.CompactionTracks | internal/storage/storage.go:2573-2598 | compaction and the delete after it keep history as encoded prefix plus raw rest, equal times in the order they were saved |
| Compaction.HistoryTracked | internal/storage/postgres.go:1923-1983 | for every number and placement of compactions, runs and raw rows hold a monitor's full reportable history, its times not decreasing |
| Backfill.ForMonitor | internal/storage/storage.go:253-261 | a positive override, else a positive default, else one |
| Backfill.MergeListed | internal/storage/storage.go:1690-1702 | merging adjacent rows of the list collapses each monitor's rows in order |
| Backfill.SortedListEncodes | internal/storage/storage.go:1668-1676 | whatever order the query gives to equal starts, each monitor's rows collapse to the encoding of its history |
| Backfill.ListReportableUptimeRuns | internal/storage/storage.go:1667-1705 | the list holds each monitor's maximal run-length encoding, monitors in order |
| Backfill.BackfillStatusIntervals | internal/storage/storage.go:1707-1729 | one row per run, closed by the next run of the same monitor |
| Backfill.BackfillPerMonitor | internal/storage/storage.go:1716-1719 | a monitor's rows are the backfill of its own runs |
| Backfill.BackfillTimeline | internal/storage/storage.go:1633-1665 | the rebuilt timeline depends on the reportable history alone |
| Backfill.ScheduleDoesNotMatter | internal/storage/storage.go:1667-1729 | two schedules of retention passes over the same probes rebuild the same timeline |
| OnlineOffline.OnlineFlagsConfirmed | internal/storage/storage.go:905-940 | whatever other monitors do, the live timeline flags exactly the instants from the first failure of a streak reaching the threshold to the next success |
| OnlineOffline.OfflineFlagsConfirmed | internal/storage/storage.go:1707-1729 | the rebuilt timeline flags exactly the same |
| OnlineOffline.OnlineEqualsOffline | README.md:516-519 | both timelines of a monitor without maintenance flag the same instants, those of the definition |
| OnlineOffline.DowntimeIsConfirmedOutage | internal/storage/storage.go:1753-1783 | what availability counts in a window is the confirmed outages outside excluded time |
| LiveBackfill.BackfilledChain | internal/storage/storage.go:1707-1729 | rebuilt rows form a chain as stored ones do |
| LiveBackfill.BackfillsGoUnnoticed | internal/storage/storage.go:1633-1665 | wherever retention passes, and backfills of the tables they leave, fall among a monitor's probes, the timeline flags exactly the confirmed outages of all probes ever saved |
| Projection.GroupWindows | internal/storage/storage.go:1165-1176 | each monitor's usable windows, ordered by start |
| Projection.CutInterval | internal/storage/storage.go:1208-1227 | the pieces tile the interval, each wholly inside or outside the windows, overlapping windows included |
| Projection.CutAll | internal/storage/storage.go:1195-1228 | the segments are pointwise right and apart before sorting |
| ProjectionView.MergeInPlace | internal/storage/storage.go:1239-1253 | the in-place pass equals the merge of what was there and overwrites no unread element |
| ProjectionView.FilterInPlace | internal/storage/storage.go:1255-1261 | the in-place pass equals selecting the segments that reach since and overwrites no unread element |
| ProjectionView.MergedProjection | internal/storage/storage.go:1239-1253 | merging is invisible pointwise and leaves no two touching segments alike |
| ProjectionView.ProjectStatusIntervals | internal/storage/storage.go:1154-1281 | a canonical projection reads maintenance exactly under uncancelled windows and the stored status elsewhere; the rows are its newest that reach since, up to the limit, each with the id of the stored row at its start |
| ProjectionView.ShowsNewest | internal/storage/storage.go:1255-1281 | the rows are of segments that reach since, newest first, as many as asked for or fifty; none that reaches it and is missing starts after one shown |
| StoredProjection.StoredDisjoint | internal/storage/storage.go:1105-1146 | every run stores the disjoint intervals the projection relies on |
| StoredProjection.ShownDowntime | internal/storage/storage.go:1154-1281 | after any run with the monitor's clock forward, a returned row shows downtime only where the timeline flags it outside windows, and all of it from since on unless the limit cuts rows off |
| StoredProjection.ShownOnce | internal/storage/storage.go:1154-1281 | after any run with clocks forward there is one answer: the same rows in the same order |
| ProjectionUnique.ProjectionDetermined | internal/storage/storage.go:1154-1253 | there is one canonical faithful projection, row ids included |
| AlertQueue.ProbeEffect | internal/storage/storage.go:857-900 | what the queue proofs use of a save, from whatever state it had read: it cancels what no longer matches and queues at most one alert, which replaces all pending ones and differs from the last announced; when it queues one is AlertsAfterSave |
| AlertQueue.SavedSafe | internal/storage/storage.go:857-900 | that effect keeps one current pending alert per monitor and moves rows only forward |
| AlertQueue.ClaimSafe | internal/storage/storage.go:2076-2087 | a claim keeps the queue safe |
| AlertQueue.RecordSafe | internal/storage/storage.go:2089-2137 | a record keeps the queue safe |
| AlertQueue.DeleteSafe | internal/storage/storage.go:2476-2516 | deleting states keeps the queue safe |
| Dispatch.QueueSafety | internal/storage/storage.go:852-900 | under any interleaving, saves from outdated states included: at most one pending alert per monitor, announcing its stored status; rows move only pending to cancelled or sending, and sending to delivered |
| Dispatch.SentAtMostOnceRecordedExactlyOnce | internal/app/runner.go:775-821 | under any interleaving, lost answers, retried records, retry attempts and restarts: no alert is sent twice, and its notifications are stored exactly once, as the first attempts of its incident, exactly when it is delivered |
| Dispatcher.AlertDispatcher.RetryPendingMonitorAlertWrites | internal/app/runner.go:812-821 | whatever others write between the tries, each kept delivery is tried once, recorded whenever the call commits and dropped exactly when it also says so |
| Dispatcher.AlertDispatcher.TakeTurn | internal/app/runner.go:787-809 | one turn sends at most its own alert, surely if it was pending and undisturbed; all sent stays delivered or kept |
| Dispatcher.AlertDispatcher.DispatchDue | internal/app/runner.go:786-810 | whatever others write meanwhile, every committed claim empties its row from the queue and everything sent is delivered or kept |
| Alternation.DeliveriesAlternate | internal/storage/storage.go:857-898 | while no alert of a monitor is queued during the claim-to-record window of another, its delivered transitions strictly alternate and nothing is pending when the stored status is the last announced |
| Alternation.AlternateExactly | internal/storage/storage.go:2131-2134 | over every run that keeps the monitor configured, its delivered transitions alternate iff no record call delivers the transition stored as last announced |
| Overtaken.OvertakenRepeats | internal/storage/storage.go:886-898 | a run in which a probe queues while an alert is in flight delivers two DOWN announcements in a row |
| RetryChain.DueListed | internal/storage/storage.go:2225-2260 | only due rows are listed, once each, earliest retry first and older rows first among equals, and a due row is left out only by the limit, all listed being sooner |
| RetryChain.NotificationLog.RetryAlertNotifications | internal/app/runner.go:856-901 | a pass attempts every listed row, in order, and writes what the chain lemmas reason about; what the rows say is RowsTellSends |
| RetryChain.RetryChainsTerminate | internal/app/runner.go:968-1012 | attempts are numbered 1..k with k <= the maximum, all but the last failed and were not final, and attempt k waits for the sum of the first k - 1 configured delays, the last one repeated |
| RetryOutcomes.RowsTellSends | internal/app/runner.go:976-1012 | over every run each row numbers its send by its place in the chain and says whether it succeeded; it is exhausted iff the send failed and was the last allowed or its provider not configured; otherwise a failed one is due after the configured delay of its number |
| RetryOutcomes.DueWhenWaited | internal/storage/storage.go:2242-2259 | a row is due iff its send failed with the provider configured and attempts left, no later send is of its incident and provider, and the configured delay since the send is over |
| RetryOutcomes.EnoughPasses | internal/app/runner.go:856-901 | from every reached state, as many passes as the rows can have attempts, none before a retry is due, end every chain; one whose sends all fail with the provider configured has exactly the maximum of rows |
| AlertDelivery.NothingStored | internal/storage/storage.go:2089-2137 | no notification of an alert's incident is stored before the alert is delivered |
| AlertDelivery.RunRefines | internal/app/runner.go:856-901 | queue and retry loop over one notification table: every run is at once a run of the dispatcher and a run of the retry chains |
| AlertDelivery.DeliveredThenRetried | internal/app/runner.go:775-901 | a provider has a chain of attempts exactly when the alert is delivered and its one send had a result for it, and the chain is numbered, bounded and waits |
| RetryChain.DueExactly | internal/storage/storage.go:2242-2259 | a row is due iff it ends a chain that is neither successful nor exhausted and its delay is over |
| TransferGuard.Runner.SampleTransfer | internal/app/runner.go:440-487 | a sample reaches the guard exactly when it is due, finished and its save reports success, and then changes it as specified; a save that commits without saying so stores it unseen |
| TransferGuard.Runner.RestoreTransferGuard | internal/app/runner.go:372-423 | the loop over the newest-first samples computes the replay of the recent ones |
| GuardMemory.RestartRemembers | internal/app/runner.go:376-387 | with clocks running forward a restart has the guard of exactly the samples of the last two intervals, or half an hour, that are among the newest thousand |
| GuardMemory.RestartDegraded | internal/app/runner.go:372-423 | and is degraded exactly when those hold as many slow samples in a row as configured, or two, with no gap over the interval, or a quarter of an hour, and no fast sample since |
| GuardMemory.SamplesApart | internal/app/runner.go:445-456 | samples seen are apart by the interval configured for the later one's kind, or 30 seconds, and a finished call is passed over only when it comes too soon |
| TransferGuard.RestoredIsFold | internal/app/runner.go:398-401 | the staleness return never fires on what the query returns |
| TransferGuard.RecentIsSuffix | internal/storage/storage.go:1986-2005 | with clocks running forward the query returns a suffix of what was stored |
| TransferGuard.DegradedExactly | internal/app/runner.go:470-484 | degraded iff since the last fast sample some block of at least the limit consecutive slow samples has no gap beyond the maximum |
| TransferGuard.SuffixSound | internal/app/runner.go:402-422 | replaying any suffix never overstates streak or degradation, and is equal when it holds a fast sample or is the whole |
| TransferGuard.Runner.PruneConnectivitySamples | internal/storage/storage.go:2028-2031 | exactly the samples before the cutoff are deleted |
| TransferGuard.RestartsSound | internal/app/runner.go:372-487 | over any run with restarts and pruning the guard never claims more than one that saw every sample ever stored, none missed since the last restart or fast sample |
| TransferGuard.MissesSound | internal/app/runner.go:463-466 | the guard is degraded only if all samples ever stored say so, as long as what it missed since the last restart or fast sample was harmless to it |
| TransferGuard.StaysSoundExactly | internal/app/runner.go:440-487 | after any run the guard stays sound whatever samples follow iff it is behind the one that saw all |
| TransferGuard.HarmlessExactly | internal/app/runner.go:463-466 | a guard that misses a sample stays sound whatever follows iff the sample is harmless by the guard's own streak, degradation and last sample |
| TransferGuard.MissedRecovery | internal/app/runner.go:463-466 | two slow samples and a missed fast one leave the guard degraded, against the stored samples |
| TransferGuard.MissedStatus | internal/app/runner.go:463-466 | a missed unexpected status between two slow samples degrades the guard, against the stored samples |
| Calendar.AddCalendarMonthsClamped | internal/cli/output.go:113-123 | the month is exactly that much later, the clock the same, and the day kept or the month's last |
| Calendar.MonthsAfterIncreases | internal/cli/output.go:113-123 | adding more months always gives a later instant, clamped days included |
| Calendar.CountMonths | internal/cli/output.go:74-77 | the largest month count that does not pass now, found by stepping back at most once |
| Calendar.WholeMonthsUnique | internal/cli/output.go:74-77 | that count is unique |
| Calendar.FormatElapsedSince | internal/cli/output.go:67-111 | the text is the decomposition: days <= 30, hours < 24, minutes < 60, reaching now to less than a minute |
| Calendar.DecompositionUnique | internal/cli/output.go:78-88 | no other months, days, hours and minutes do |
| Calendar.DigitsRead | internal/cli/output.go:101-103 | the printed digits read back as the number |
| Calendar.TextRead | internal/cli/output.go:91-111 | reading the text gives back the non-zero units, largest first, each with its own letter |
| Calendar.TextTellsApart | internal/cli/output.go:91-111 | different decompositions have different texts |
| Calendar.CivilUnique | internal/cli/output.go:71-72 | an instant has one year, month, day and clock |
| Calendar.MonthLengths | internal/cli/output.go:117 | the twelve month lengths, February's by the Gregorian leap rule |
| Calendar.YearStarts | internal/cli/output.go:71-72 | a year starts after 365 days for each year before it and one for each leap year |
| Calendar.CalendarRepeats | internal/cli/output.go:71-72 | 400 years are 146097 days, month by month, and 1 January 1970 is day 719528 |

## Left out

- Names, URLs, error texts, status codes and latencies of rows; HTTP probing, transfer downloads, email and Telegram sending, whose results are arbitrary inputs.
- int64 saturation of time.Duration and years outside 0 to 9999: times are unbounded integers.
- SQLite compares stored times as text with variable fractions; every comparison here is chronological and every bucket UTC, as TIMESTAMPTZ does in Postgres.
- Monitor identifiers are integers, of which only equality and order are used; the tables are those of one tenant.
- SQL statements that update or select sets of rows appear as loops or functions over rows; GROUP BY followed by an upsert is one upsert per source row.
- ListDueAlertNotificationRetries and ListConnectivitySamples are functions of the tables; ListDuePendingMonitorAlerts is left out, so the dispatcher takes any list of existing alerts in any order, due or not.
- ListStatusIntervals filters rows in its query before projecting; the projection is modelled on the rows it is given.
- ProjectStatusIntervals: requires stored intervals disjoint per monitor, which StoredDisjoint proves of every run.
- NotificationLog.RetryAlertNotifications: requires that the clock does not run backwards within a pass; chains are proved for one pass at a time, with other incidents' first attempts between its steps.
- DeliveredThenRetried: results of a send name each provider once, as the sender lists at most one of each kind (internal/alert/email.go:42-58); observer alerts, which bypass the queue, are not modelled.
- StateFromLog: in its runs, as in those of StateShowsTimeline, IncidentsOrdered and OnlineFlagsConfirmed, a probe reads its state and saves in one step, as a monitor's own loop does; saves from outdated states are covered for the timeline and the alert queue.
- AlternateExactly: for a monitor that is never dropped from the configuration, since that deletes what was last announced.
- ScheduleDoesNotMatter: needs a monitor's reportable probes saved in strictly increasing time, since the list query leaves the order of equal starts open; compaction alone does not.
- OnlineEqualsOffline: for a monitor without maintenance, since the threshold drops to one after maintenance online and not in the backfill, and not dropped from the configuration, since its failure count then starts over.
- Eventual notification is not a property of the code: a FAILING save cancels a pending UP, and FAILING to UP raises no incident.
- CompletePendingMonitorAlert and PruneProbeResults, which the runner does not call; percentages and percentiles; configuration, CLI flags, API conversions, migrations.
