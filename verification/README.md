# Bastion Tracker: a verified model

Bastion Tracker ingests security events from the modules of a pipeline, keeps
several views of them in memory, raises anomalies, and lets an operator hold
requests at a checkpoint. This project models the stateful core of the service in
Dafny and proves what its views, protocols and encodings promise.

Times are integers (nanoseconds since the Unix epoch), means and deviations are
exact reals, an HMAC is an uninterpreted function of key and message, and a map may
be ranged over in any order. Each region under a lock is one atomic step. Go objects
that are updated in place are classes with arrays, maps and loops, each method
proved against a function of its inputs or of the old state; the properties are
lemmas about those functions, over every input, run or interleaving. Protocols
between goroutines are step systems, and a run is any sequence of enabled steps.

| files | subject |
|---|---|
| `Models`, `Seqs`, `Slices`, `Channels` | events and queries; sequences and iteration orders; slices pruned in place; buffered channels |
| `Gate`, `GateProperties`, `Monitor`, `Sessions` | checkpoints: the protocol, its properties, the manager object that takes its steps; observe-mode sessions |
| `EventRing`, `Paging`, `TopK`, `Activity`, `Dashboard`, `Lineage` | the event ring and what is derived from it |
| `Traces`, `TraceTable` | trace assembly, as a fold and through record pointers |
| `Stats`, `Spike`, `Windows`, `Honey`, `Rules`, `Patterns`, `Detector`, `Feedback` | anomaly detection, and the loop that feeds anomalies back into it |
| `Bypass` | pipeline downgrades per tenant |
| `Hub`, `HubLoop` | the broadcast hub, as a step system and as the loop over its consumer sets |
| `Float`, `Codec` | timestamps through JSON numbers |
| `Fields`, `Audit`, `Intake`, `Processor` | the signed string, and the path of an event from submission to ring, trace and audit |
| `Replay` | the merge of events and annotations in a demo replay |

## What the proofs show about the code

Some promises hold only under a condition, which is proved exact where it is stated
as an equivalence in the table below.

- A mode switch rejects a waiting caller but leaves the checkpoint pending, so it can
  be recorded as approved afterwards (`DeliveredMatchesRecord`, `ApprovedButTurnedAway`).
  Of two callers on one checkpoint at most one ever returns (`StuckForever`).
- The comment on `EventsPage` says that a limit is capped at 200; a larger one becomes
  50 (`PageLimit`). A cursor that has been overwritten restarts the scan at the newest
  event (`StaleCursor`).
- Under a frozen clock the anomalies of one event feed back into the detector, each
  recorded as an event of the detector's own. Spikes of these records aside, an event
  raises at most four anomalies; the feedback of a detector that is on is bounded if and
  only if the last of their records is no spike, whatever the windows hold
  (`ExpectedAtMostFour`, `FeedbackEndsIff`). At the default threshold a spike takes eleven
  distinct minutes, and eleven own events can be enough for an endless loop
  (`DefaultIsQuiet`, `EndlessExample`).
- Expiry in the honey tracker compares with the time the sender put on a hit. Another
  trace's hit can therefore drop what is held for a trace; exactly when is stated for
  any order of times (`HoneyClosedForm`, `InterferenceIff`), and while times do not
  decrease it makes no difference (`NonInterference`, `BackwardsTimesInterfere`).
- The counters of busy and of blocked users are kept under tenant and user joined by a
  colon, so a tenant whose ID continues another one's after a colon can share a counter
  with it (`TenantsApartIff`). Active hours that span midnight are never met
  (`OvernightAlwaysReported`).
- The high-frequency rule compares with `==`, yet misses no burst (`NoBurstMissed`).
- The early exit of the dashboard scan is exact if and only if no current event lies
  behind a stale one (`EarlyExitExactIff`, `EarlyExitMisses`).
- A broadcast consumer, however it changes its filter, gets every message that passes the
  filter of the moment if and only if none of these finds its channel full
  (`NothingLost`, `FilteredLog`).
- The activity feed cuts each severity in the order of writing and sorts by timestamp
  afterwards, so it can miss the newest alarm; exactly when is stated for any order of
  timestamps (`FeedIsTopIff`, `FeedMisses`).
- A pipe in one of five signed fields, or a number after a pipe in the event ID, lets
  an altered event keep its seal (`CanonicalInjectiveIff`).
- JSON numbers carry 53 bits: a timestamp is off by up to 128 ns after the first hop
  and stable after that; the zero time does not survive at all. An event decoded over an
  earlier one keeps what is not sent, its signature for one (`CleanHopIff`).

## Model

| member | source | states |
|---|---|---|
| GateProperties.ChannelDiscipline | internal/monitor/monitor.go:172-186 | in every interleaving an entry of pendingCh has an empty channel and a pending checkpoint, no channel is ever sent to twice, and outside gate mode pendingCh is empty |
| GateProperties.SendsNeverBlock | internal/monitor/monitor.go:367-377 | whatever step sends finds the channel empty, so no send blocks while the lock is held |
| GateProperties.LeavingGateReleases | internal/monitor/monitor.go:179-185 | leaving gate mode puts a rejection on the channel of every waiting checkpoint and leaves its recorded status pending |
| GateProperties.DecisionIsFinal | internal/monitor/monitor.go:353-382 | a settled checkpoint is the same record in every continuation of the run |
| GateProperties.DecidedAtIffSettled | internal/monitor/monitor.go:360-373 | the decision time is recorded if and only if the status is no longer pending |
| GateProperties.LetThroughOnlyIfApproved | internal/monitor/monitor.go:331-349 | a caller is let through only if the record says approved, or timed out under auto-approval, and it says so ever after |
| GateProperties.LetThroughIff | internal/monitor/monitor.go:331-349 | a caller that has received a value is let through if and only if no mode switch released its checkpoint and the record says approved, or timed out under auto-approval; with the reason it is given in each case |
| GateProperties.OthersAreTold | internal/monitor/monitor.go:332-337 | a caller that found no channel is told so, and one that waits has not been told anything |
| GateProperties.ApprovedIsLetThrough | internal/monitor/monitor.go:331-382 | once a waiting checkpoint is approved its sole holder can return at once and is let through, and so it is if it returns at any later time |
| GateProperties.CreatedWaits | internal/monitor/monitor.go:299-326 | in gate mode a new checkpoint waits with an empty channel and a deadline the configured seconds ahead, five minutes by default; in other modes nothing happens |
| GateProperties.StartsInMode | internal/monitor/monitor.go:135-155 | a manager starts in the configured mode, off if none is |
| GateProperties.ModeIsSet | internal/monitor/monitor.go:174-186 | the mode is the one that was set last, and nothing else changes it |
| GateProperties.TimeoutRecorded | internal/monitor/monitor.go:421-437 | a timer settles an undecided checkpoint as timed out, and puts that into its channel unless a mode switch has released it |
| GateProperties.DecisionRecorded | internal/monitor/monitor.go:357-373 | a decision on an undecided checkpoint records who took it, when and why, and changes nothing else of the record |
| GateProperties.DeliveredMatchesRecord | internal/monitor/monitor.go:179-185 | a settled checkpoint has sent exactly one value, which is the recorded status if and only if no mode switch released it first or the record is a rejection too |
| GateProperties.DecisionDelivered | internal/monitor/monitor.go:374-377 | a decision on a pending checkpoint becomes the one value in its channel if no mode switch has released the checkpoint, and otherwise neither the channel nor what was sent on it changes |
| GateProperties.ApprovedButTurnedAway | internal/monitor/monitor.go:179-185 | a legal run in which the caller is rejected while the record says approved |
| GateProperties.LateCallerTurnedAway | internal/monitor/monitor.go:332-337 | a caller that looks up after the decision gets `checkpoint not found`, even if the decision was an approval |
| GateProperties.NoDeadlock | internal/monitor/monitor.go:323-349 | a blocked caller whose value nobody else took can receive at once, or its timer has not fired and its checkpoint still waits |
| GateProperties.RankNeverRises | internal/monitor/monitor.go:331-349 | no step of anyone moves a sole holder further from returning |
| GateProperties.TimerReadies | internal/monitor/monitor.go:407-437 | once its deadline has passed, the timer makes a sole holder ready |
| GateProperties.ReadyReturns | internal/monitor/monitor.go:338-349 | a ready caller returns by its own next step |
| GateProperties.StuckForever | internal/monitor/monitor.go:331-349 | of two callers on one checkpoint the one that loses the value blocks in every continuation |
| GateProperties.SecondCallerStuck | internal/monitor/monitor.go:331-349 | such a pair of callers exists in a legal run |
| GateProperties.WorkOfStep | internal/monitor/monitor.go:323-349 | a firing or a receive uses up one unit of unfired timers and blocked callers; only a creation or a lookup adds one |
| GateProperties.WorkBounded | internal/monitor/monitor.go:323-349 | over any run firings and receives are bounded by creations and lookups |
| Gate.RunKeepsInv | internal/monitor/monitor.go:299-437 | the invariant over slots and waiters holds after every legal run |
| Monitor.Manager.SetMode | internal/monitor/monitor.go:174-186 | the method is one SetMode step of the protocol: the loop over pendingCh releases exactly the waiting checkpoints |
| Monitor.Manager.CreateCheckpoint | internal/monitor/monitor.go:299-326 | one Create step; refused outside gate mode; otherwise a fresh capacity-1 channel of its own |
| Monitor.Manager.LookUpChannel | internal/monitor/monitor.go:331-337 | one LookUp step: the channel of a waiting checkpoint, or none |
| Monitor.Manager.Await | internal/monitor/monitor.go:338-349 | one Receive step, and the verdict that belongs to the received value |
| Monitor.Manager.Decide | internal/monitor/monitor.go:353-382 | one Decide step; found only if the checkpoint was pending |
| Monitor.Manager.FireTimeout | internal/monitor/monitor.go:421-437 | one Fire step |
| MonitorMaps.DecideStep | internal/monitor/monitor.go:353-382 | what a decision does to the two maps when they represent a protocol state |
| Sessions.SessionTable.ObserveEvent | internal/monitor/monitor.go:192-243 | the session of the event's trace gets one more numbered step, every other session stays, and the indices by ID and by trace keep agreeing |
| Sessions.SessionTable.DeleteSession | internal/monitor/monitor.go:265-275 | a record leaves both indices together |
| Sessions.SessionsAreOwnSteps | internal/monitor/monitor.go:192-275 | after any run a trace's session holds exactly its own observations since its last deletion, numbered from zero, and is completed once one of them is terminal |
| EventRing.Store.AddEvent | internal/store/memory.go:54-60 | the ring keeps the last maxEvents items of the write history |
| EventRing.Store.At | internal/store/memory.go:74-75 | the slot arithmetic yields the i-th newest retained event |
| EventRing.Store.GetEvent | internal/store/memory.go:63-79 | the newest retained event with the ID, or none if there is none |
| EventRing.Store.Scan | internal/store/memory.go:95-107 | the slot loop collects the first matches of the newest-first view |
| EventRing.Store.RecentEvents | internal/store/memory.go:82-108 | the newest matches, newest first, at most the limit, or a hundred; a query for a tenant returns nothing of another one |
| EventRing.Store.EventsPage | internal/store/memory.go:731-777 | the page specified on the newest-first view, cursor search included; a query for a tenant returns nothing of another one |
| EventRing.PageLimit | internal/store/memory.go:731-735 | a limit from 1 to 200 is kept and every other one becomes 50 |
| EventRing.PageHolds | internal/store/memory.go:731-777 | a page holds the first matches behind the cursor, as many as the limit allows, and says how many; a full one names its last event as the next cursor and any other none |
| EventRing.SlotOf | internal/store/memory.go:74-75 | counting back i slots from the head modulo the capacity is write position count - 1 - i |
| EventRing.UnsetSelectsAll | internal/store/memory.go:110-136 | a query with no field set selects every event that has an ID |
| EventRing.TraceAndUserNarrow | internal/store/memory.go:116-127 | setting the trace or the user of a query leaves exactly the events that hold this value in it |
| EventRing.TenantAndModuleNarrow | internal/store/memory.go:111-116 | the same for tenant and module |
| EventRing.SeverityAndStatusNarrow | internal/store/memory.go:120-125 | the same for severity and status |
| EventRing.BoundsNarrow | internal/store/memory.go:129-134 | setting a bound leaves exactly the events on this side of it, the bound included |
| EventRing.OwnTenantOnly | internal/store/memory.go:110-116 | nothing of another tenant and nothing without an ID is ever selected |
| Paging.CompleteSession | internal/store/memory.go:731-777 | following cursors under arbitrary writes, none of the cursors overwritten before use, yields without duplicates a prefix of the first snapshot's filtered view that misses exactly the overwritten events |
| Paging.QuietSession | internal/store/memory.go:731-777 | with no writes in between the pages concatenate to the whole filtered view |
| Paging.FollowingCursorsEnds | internal/store/memory.go:731-777 | from the first request on, following NextCursor from empty to empty terminates with the whole filtered view |
| Paging.SessionLength | internal/store/memory.go:731-777 | a session takes no more pages than the first snapshot fills |
| Paging.NextCursorRetained | internal/store/memory.go:767-770 | a cursor just handed out is still in the ring |
| Paging.StaleCursor | internal/store/memory.go:743-752 | a page goes back only below its cursor if and only if the cursor is still retained or nothing matches; otherwise the scan restarts at the newest event |
| Paging.StaleCursorExample | internal/store/memory.go:743-752 | a one-slot ring on which the second page starts over |
| TopK.SortDescending | internal/store/memory.go:219-226 | the exchange sort permutes its input into descending order |
| TopK.TakeIsTop | internal/store/memory.go:227-230 | truncating a descending list leaves a selection that nothing omitted exceeds |
| TopK.TopOf | internal/store/memory.go:219-230 | sort and truncate: a descending top selection of the input |
| TopK.MergeTop | internal/api/rest/handlers.go:913-935 | a list may be cut to its own top k before it is merged |
| Activity.FeedIsTop | internal/api/rest/handlers.go:913-935 | with any writes between the three queries, any top selection of the three truncated severity lists is a top selection of all the alarms the queries could see |
| Activity.RetainedAlarmSeen | internal/api/rest/handlers.go:913-935 | an alarm that was stored before the first query and is retained after the last is among those |
| Activity.QuietAlarms | internal/api/rest/handlers.go:913-935 | with no write in between they are all the alarms in the ring |
| Activity.AlarmsPartition | internal/api/rest/handlers.go:914-923 | the three severity queries partition the alarms |
| Activity.RecentActivity | internal/api/rest/handlers.go:913-935 | with whatever others write between the three queries the feed is descending, and it is a top selection of the alarms that were seen if and only if none of those cut off by its own query is newer than a listed one; so it is while events are written in time order |
| Activity.FeedIsTopIff | internal/api/rest/handlers.go:913-935 | the same of any top selection of what the queries return, for timestamps in any order |
| Activity.FeedMisses | internal/api/rest/handlers.go:913-935 | behind twenty later writes an alarm with a newer timestamp is missed |
| Traces.TraceClosedForm | internal/store/memory.go:141-192 | after any run each trace is the fold of its own events alone: spans in order, start at the first, pipeline of the first that names one, status of the last decisive event, end and total of the last event once there is one |
| Traces.SettledTrace | internal/store/memory.go:182-191 | the status of a trace is that of its last blocked or failed event, or completed if its last decisive event comes from the model or the anchor; its end is its last event and its length is in whole milliseconds, clamped to 64-bit nanoseconds |
| Traces.UnsettledTrace | internal/store/memory.go:182-191 | without such an event it is in progress and has no end |
| Traces.TraceOfEvents | internal/store/memory.go:147-180 | identity and start are those of its first event, and each event has become one span with its own values |
| Traces.PipelineOfTrace | internal/store/memory.go:165-169 | its pipeline is that of its first event that names one |
| Traces.NoPipelineNamed | internal/store/memory.go:165-169 | and if none does it has none, and the modules of its last event |
| Traces.StaysSettled | internal/store/memory.go:182-191 | a completed, blocked or failed trace never returns to in_progress |
| Traces.UpsertsCommute | internal/store/memory.go:141-192 | upserts to different traces commute |
| Traces.OnlyOwnOrderMatters | internal/store/memory.go:141-192 | two runs that agree on the order within each trace build the same table |
| Traces.SpansOfPermutation | internal/store/memory.go:171-180 | in whatever order the same events arrive every trace gets the same multiset of spans |
| TraceTable.Record.Extend | internal/store/memory.go:165-191 | the in-place updates of a record add up to one extension of its value |
| TraceTable.Table.UpsertTrace | internal/store/memory.go:141-192 | one upsert of the table, through the record pointers |
| TraceTable.Table.RecentTraces | internal/store/memory.go:207-231 | for whatever order the map is ranged over, a descending top selection of the matching traces |
| TraceTable.IdentityNarrows | internal/store/memory.go:233-242 | setting the trace, user or tenant of a query leaves exactly the traces that hold this value in it |
| TraceTable.StatusAndStartNarrow | internal/store/memory.go:243-248 | the same for the status, and for the earliest start, which is included |
| TraceTable.OtherFieldsIgnored | internal/store/memory.go:233-250 | module, severity and end of a query do not matter to traces |
| TraceTable.UnsetSelectsAll | internal/store/memory.go:233-250 | a query with no field set selects every trace |
| TraceTable.OmittedTracesAreOlder | internal/store/memory.go:207-231 | a matching trace that is left out started no later than any that is listed, and the list is full: the limit, or fifty |
| Dashboard.ScanDay | internal/store/memory.go:583-604 | the scan counts exactly the visible events before the first stale one |
| Dashboard.EarlyExitExactIff | internal/store/memory.go:589-591 | the early exit sees what a full filter sees if and only if no current event lies behind a stale one |
| Dashboard.EarlyExitRefines | internal/store/memory.go:589-591 | which holds whenever events are written in the order of their timestamps |
| Dashboard.EarlyExitMisses | internal/store/memory.go:589-591 | a late event written after a current one makes the scan count nothing |
| Dashboard.TallyCounts | internal/store/memory.go:592-603 | each counter is the size of the filter its name describes, and blocked <= 1h <= 24h |
| Dashboard.ModuleCounts | internal/store/memory.go:593 | each module's entry is the number of its events, and there is one exactly for the modules that occur |
| Dashboard.TallyAddsUp | internal/store/memory.go:592-593 | the module counts, in any map order, add up to the 24-hour count |
| Dashboard.DashboardSummary | internal/store/memory.go:567-654 | the counters of the scan as sizes of filters, for whatever map order a descending top five of the modules, the incidents that are not resolved and the alerts that fire |
| Dashboard.OmittedModulesAreSmaller | internal/store/memory.go:606-627 | a module that is left out is no busier than any that is listed |
| Dashboard.ListedAreCounted | internal/store/memory.go:606-628 | each listed volume is that of a module that occurs, and at most five are listed |
| Lineage.LineageTable.GetLineageSources | internal/store/memory.go:532-560 | after any calls of AddChunkLineage, exactly the entries added for this trace, in ascending rank; none if there are none |
| Lineage.AnswerIsDetermined | internal/store/memory.go:542-560 | with distinct ranks the answer does not depend on the order in which chunks were reported nor on what was reported for other traces |
| Stats.MeanStddev | internal/anomaly/detector.go:117-136 | the mean, and a non-negative value whose square is the sample variance |
| Stats.Samuelson | internal/anomaly/detector.go:117-136 | n (v_i - mean)^2 <= (n - 1) times the sum of squares, for any values |
| Stats.SpikeBound | internal/anomaly/detector.go:101-103 | a value more than sigma deviations above the mean of n needs n sigma^2 < (n - 1)^2 |
| Stats.PeakFlagged | internal/anomaly/detector.go:101-103 | a lone peak over equal values is flagged exactly when n sigma^2 < (n - 1)^2 |
| Stats.OrderIrrelevant | internal/anomaly/detector.go:117-136 | permuted values have the same mean and variance |
| Stats.ExceedsIff | internal/anomaly/detector.go:101-103 | the test with division and root removed: with x above the mean by d, (n - 1) d^2 exceeds sigma^2 times the sum of squares |
| Stats.HigherStillExceeds | internal/anomaly/detector.go:101-103 | a value that passes the test passes it after being raised, although mean and deviation rise too |
| Spike.BaselineTracker.Record | internal/anomaly/detector.go:52-105 | the pruned and extended window, the stored baseline and the reported spike, with the map ranged over in any order |
| Spike.OrderDoesNotMatter | internal/anomaly/detector.go:78-82 | the report and the baseline are the same for every map iteration order |
| Spike.BaselineClosedForm | internal/anomaly/detector.go:57-66 | after any run of records, in any order of times, the window holds exactly the records t_i with t_i > t_j - windowH hours for every later t_j |
| Spike.ReportIff | internal/anomaly/detector.go:52-105 | the last of a run of records is reported if and only if ten or more have not expired and, of their numbers per minute, that of its own minute exceeds the mean by more than sigma sample deviations |
| Spike.ExpiryPreventsReport | internal/anomaly/detector.go:57-70 | a run that is reported in a window of four hours and not in one of an hour |
| Spike.MinuteIs | internal/anomaly/detector.go:75 | a minute is sixty seconds of the Unix clock |
| Spike.SpikeNeedsMinutes | internal/anomaly/detector.go:73-104 | if a record reports a spike over n distinct minutes then n sigma^2 < (n - 1)^2 |
| Spike.DefaultNeedsElevenMinutes | internal/anomaly/detector.go:73-104 | with sigma 3, whatever was recorded before, no spike on ten or fewer distinct minutes |
| Spike.ElevenMinutesSuffice | internal/anomaly/detector.go:52-105 | with the default threshold and any window of at least an hour the twelfth record over eleven minutes is reported: one in each of ten and two in the last |
| Spike.SpikePossibleIff | internal/anomaly/detector.go:52-105 | over n >= 2 distinct minutes some run of records ends in a report if and only if n sigma^2 < (n - 1)^2, whatever the window length |
| Spike.EqualMinutesFlagged | internal/anomaly/detector.go:73-104 | with equal other minutes and more in the current one a window is flagged exactly under that condition |
| Spike.PeakFlaggedIff | internal/anomaly/detector.go:73-104 | so is the run of records that puts them there, for any minutes and counts |
| Spike.StillSpikes | internal/anomaly/detector.go:73-104 | once the current minute is reported, whatever the window holds, it is reported again after one more event in it |
| Slices.Compact | internal/anomaly/detector.go:60-65 | compaction over the aliased backing array equals a functional filter |
| Slices.WindowTable.PruneAppend | internal/anomaly/detector.go:153-162 | prune and append at one key leave all other keys alone although arrays are overwritten in place |
| Windows.PatternWindow.Add | internal/anomaly/detector.go:150-163 | one add to one key; the count is the new length |
| Windows.WindowClosedForm | internal/anomaly/detector.go:150-163 | after any run of adds, in any order of timestamps, a key holds exactly the t_i with t_i > t_j - window for every later t_j |
| Windows.KeysIndependent | internal/anomaly/detector.go:150-163 | each key holds the survivors among its own adds |
| Windows.CountStep | internal/anomaly/detector.go:150-163 | a count rises by at most one per add |
| Windows.NoBurstMissed | internal/anomaly/detector.go:257-273 | whenever a count is at or above the limit the rule has fired since the count was last below it |
| Honey.HoneyLayerTracker.Record | internal/anomaly/detector.go:179-201 | expiry in any map order, then the hit; the count and the names of the trace's modules |
| Honey.KeysAgree | internal/anomaly/detector.go:183-193 | the two maps always have the same keys |
| Honey.RetainedAreRecent | internal/anomaly/detector.go:182-188 | nothing older than ten minutes before the latest hit is held, whatever the order of times |
| Honey.HoneyClosedForm | internal/anomaly/detector.go:179-201 | after any run of hits, in any order of times, a trace is held if and only if one of its own hits survives, that is, no later hit of any trace comes more than ten minutes above the latest own one before it; its modules are those of its surviving hits |
| Honey.InterferenceIff | internal/anomaly/detector.go:182-188 | the hits of a trace that survive a run are those that survive its own hits alone if and only if no other trace's hit is more than ten minutes above the latest own one before it that survives on its own |
| Honey.SameAsAlone | internal/anomaly/detector.go:179-201 | and then both maps hold for the trace what its own hits alone would leave |
| Honey.NonInterference | internal/anomaly/detector.go:179-201 | while times do not decrease a trace is held exactly when its own last hit is within ten minutes of the latest one, with the modules of its own longest suffix of gaps of at most ten minutes |
| Honey.BackwardsTimesInterfere | internal/anomaly/detector.go:182-188 | a run with decreasing times in which another trace's hit drops this one's modules |
| Detector.Detector.Inspect | internal/anomaly/detector.go:232-357 | the trackers, the anomalies in order, what the sink gets and what is remembered are those of the six rules run in sequence; over a run of calls they are those of which the rows on Patterns speak |
| Patterns.FiredInOrder | internal/anomaly/detector.go:232-357 | each event raises at most one anomaly of each pattern, in a fixed order and with a fixed severity, about its own tenant, user and trace and at its own time |
| Patterns.SpikeReportedIff | internal/anomaly/detector.go:242-256 | statistical_spike: ten or more records of the same module and type are within the hours, and the number in the current minute is over the threshold |
| Patterns.HighFreqReportedIff | internal/anomaly/detector.go:258-274 | high_freq_user: the number of events within the last minute whose tenant and user join to the same string equals the limit |
| Patterns.RepeatedBlockReportedIff | internal/anomaly/detector.go:276-299 | repeated_block: the number of blocked events within the configured time, five minutes by default, whose tenant and user join to the same string has reached the count |
| Patterns.CrossTenantReportedIff | internal/anomaly/detector.go:301-312 | cross_tenant_signal: on every cross-tenant attempt |
| Patterns.MultiLayerReportedIff | internal/anomaly/detector.go:314-339 | honey_multi_layer: on a honey-token event with a trace ID whose surviving hits come from two modules or more |
| Patterns.OffHoursReportedIff | internal/anomaly/detector.go:341-356 | off_hours_access: some bound is set and the hour of the event is not in [start, end) |
| Patterns.OffHoursOfADay | internal/anomaly/detector.go:341-356 | of the 24 hours of a day exactly 24 - (end - start) are reported |
| Patterns.OvernightAlwaysReported | internal/anomaly/detector.go:341-356 | with a start after the end every event is reported |
| Patterns.TenantsApartIff | internal/anomaly/detector.go:260 | two tenants never share a counter, whatever their users are called, if and only if neither is the other's ID continued after a colon |
| Patterns.OtherTenantsDoNotCount | internal/anomaly/detector.go:258-299 | of two such tenants the events of one do not count for the users of the other |
| Detector.RemembersLastThousand | internal/anomaly/detector.go:378-385 | the list is the last thousand of everything ever fired |
| Feedback.FeedbackEndsIff | cmd/tracker-cli/main.go:138-171 | under a frozen clock, for every external event and all tracker windows: the number of anomalies it sets off is bounded if and only if the detector is switched off or the last of the own records it leads to is no spike |
| Feedback.FeedbackIsExact | cmd/tracker-cli/main.go:138-171 | if the detector is on and that record is no spike then in every interleaving no run raises more than the expected number of anomalies, and a run that cannot go on has raised exactly that many and inspected each event fully |
| Feedback.DisabledIsSilent | internal/anomaly/detector.go:232-235 | a detector that is switched off raises nothing |
| Feedback.ExpectedAtMostFour | internal/anomaly/detector.go:232-357 | that number is at most four: cross-tenant and honey-token events exclude each other |
| Feedback.FeedbackEnds | cmd/tracker-cli/main.go:138-171 | in particular, with n sigma^2 >= (n - 1)^2 for the detector's own events, at most four anomalies in at most thirty rule steps |
| Feedback.FourAreRaised | cmd/tracker-cli/main.go:152-171 | four is attained |
| Feedback.DefaultIsQuiet | internal/anomaly/detector.go:101-103 | with sigma 3 ten or fewer minutes of own events satisfy the condition |
| Feedback.OwnSpikesStay | internal/anomaly/detector.go:52-105 | once one own record is a spike every later one is |
| Feedback.StepKeepsInv | internal/anomaly/detector.go:232-357 | the invariant behind the count, kept by every step but a spike on an own event: what each task has raised, and the high-frequency rule once at most |
| Feedback.NeverEnds | cmd/tracker-cli/main.go:152-171 | with the detector on and the next own record a spike, over any window, a fresh own event leads to as many further anomalies as one likes |
| Feedback.FeedbackNeverEnds | cmd/tracker-cli/main.go:138-171 | so does one external event whose last expected own record is a spike |
| Feedback.EvenlySpread | internal/anomaly/detector.go:101-103 | for own events spread evenly over the other minutes the next record is a spike if and only if n sigma^2 < (n - 1)^2 |
| Feedback.EndlessExample | cmd/tracker-cli/main.go:138-171 | with the default settings, after one own event in each of eleven minutes, a single cross-tenant attempt sets off anomalies without bound |
| Feedback.ReinjectedEventsAreAccepted | internal/processor/processor.go:91-108 | the event made of any anomaly passes validation and is inspected at the frozen time |
| Feedback.SyntheticSays | cmd/tracker-cli/main.go:157-170 | the event made of an anomaly is an error of the tracker with the severity, tenant, user and trace of the anomaly, no ID and no time |
| Bypass.Monitor.Check | internal/bypass/monitor.go:43-94 | the pruned history of one tenant and the alarm, with labels ranged over in any order |
| Bypass.HistoryClosedForm | internal/bypass/monitor.go:51-60 | after any run of checks, in any order of times, a tenant's history holds exactly those of its own entries that are younger than an hour by the clock of every later check of its own |
| Bypass.ReportedIff | internal/bypass/monitor.go:43-94 | a skipped vault is reported if and only if the event skipped the vault and carries a sensitive label; a downgrade if and only if it did not, the pipeline is lite or minimal, and of the ten or more unpruned entries before it nine tenths are full |
| Bypass.AlarmSays | internal/bypass/monitor.go:96-117 | what an alarm says, about the tenant, user and trace of its trigger |
| Bypass.DowngradeReports | internal/bypass/monitor.go:74-93 | after any history of n entries with F full ones the m-th of a run of lite and minimal events, none of them sensitive and nothing pruned meanwhile, is reported if and only if n + m >= 10 and 10 F >= 9 (n + m) |
| Bypass.DowngradeAlarmsDieOut | internal/bypass/monitor.go:74-93 | after n >= 10 full events exactly the first n / 9 + 1 of such a run raise an alarm |
| Bypass.DowngradeAlarmCount | internal/bypass/monitor.go:74-93 | for any history the alarms are one unbroken stretch of the run, from the tenth entry on and up to ten ninths of the full ones |
| Bypass.AlarmsAreInert | internal/bypass/monitor.go:96-117 | an emitted alarm changes no history and raises nothing when it is processed itself |
| Hub.NeverPanics | internal/hub/hub.go:112-166 | in no run is a channel sent to after its close or closed twice |
| Hub.StreamInOrder | internal/hub/hub.go:147-161 | a consumer's stream is an order-preserving subsequence of the accepted broadcasts from its registration on |
| Hub.OrderAgrees | internal/hub/hub.go:147-161 | any two consumers agree on the order of what reaches both |
| Hub.MessagesAccountedFor | internal/hub/hub.go:145-161 | between rounds, messages taken since registration = delivered + dropped on a full channel + filtered |
| Hub.NothingLost | internal/hub/hub.go:145-161 | over any run from any reachable state, with the filter changing at any moment, a consumer gets all offered messages that pass the filter of their moment if and only if none of these finds its channel full; otherwise it misses exactly as many as were dropped |
| Hub.FilteredLog | internal/hub/hub.go:145-161 | from any moment between rounds, while the filter stays f, what a registered consumer gets of the messages taken is those that pass f, if and only if none of these finds its channel full |
| Hub.FilterSet | internal/hub/hub.go:261-271 | such a moment is reached for every filter f: a client is entered without one and then sets it |
| Hub.FilteredOutIff | internal/hub/hub.go:38-70 | a message offered to a consumer is filtered out if and only if it then had a filter, the message is an event that decodes, and some field that the filter sets is another one in the message |
| Hub.StreamAgrees | internal/hub/hub.go:38-70 | every event in a stream agrees, in each field that is set, with the filter it was offered under |
| Hub.OneMoreField | internal/hub/hub.go:58-69 | a filter with one more field set lets pass exactly those that agree in it, and what is no event or does not decode |
| Hub.NoFilterPassesAll | internal/hub/hub.go:39-44 | without a filter, or with none of its fields set, everything passes |
| Hub.StreamGrows | internal/hub/hub.go:121-127 | a stream only grows, and not at all once its channel is closed |
| Hub.RunKeepsInv | internal/hub/hub.go:112-166 | the invariant over consumers, rounds and the backlog holds after every run |
| HubLoop.Client.AllowsMessage | internal/hub/hub.go:38-70 | the branches decide the filter predicate |
| HubLoop.Broadcaster.HandRound | internal/hub/hub.go:145-161 | for whatever order the sets are ranged over, and with reads, filter changes and broadcasts of others before any offer, one round is a run of the protocol in Hub that starts with taking the message and ends with nobody left to be offered it |
| HubLoop.RoundIsComplete | internal/hub/hub.go:145-161 | over such a round the message is judged exactly once for each registered consumer |
| HubLoop.Broadcaster.OfferClient | internal/hub/hub.go:147-154 | one Offer step: filter, then a send that drops on a full channel |
| HubLoop.Broadcaster.Receive | internal/hub/hub.go:219-229 | one Receive step on the consumer's own channel, open or closed |
| HubLoop.Broadcaster.SetFilter | internal/hub/hub.go:261-271 | one SetFilter step; a message without fields clears the filter |
| HubLoop.Broadcaster.Broadcast | internal/hub/hub.go:169-178 | one Broadcast step, never blocking: a full broadcast channel drops the message |
| HubLoop.Broadcaster.Subscribe | internal/hub/hub.go:181-188 | one Register step with a fresh channel of its own, of the default capacity if none is asked for |
| HubLoop.Broadcaster.Unsubscribe | internal/hub/hub.go:191-193 | one Unregister step: removed and closed the first time, nothing after |
| HubLoop.Broadcaster.Disconnect | internal/hub/hub.go:119-126 | the same for a client |
| Float.NearestTiesToEven | internal/models/types.go:55-56 | Round gives a value of 53 bits of mantissa, no such value is nearer, and of two equally near ones it is the even one (section 4.3.1 of IEEE 754-2019) |
| Float.ErrorBound | internal/models/types.go:55-56 | with the leading bit at 2^k the error is at most 2^(k - 53) |
| Float.TodaysError | internal/models/types.go:55-56 | 128 ns at timestamps between 2^60 and 2^61 |
| Float.Monotone | internal/models/types.go:55-56 | rounding keeps order |
| Float.Idempotent | internal/models/types.go:55-56 | rounding twice is rounding once |
| Float.FixedIffRepresentable | internal/models/types.go:55-56 | a count is kept if and only if it has at most 53 bits of mantissa |
| Float.FitsIff | internal/models/types.go:55-56 | of the 64-bit counts exactly the topmost 512 round out of range |
| Codec.Target.Unmarshal | internal/models/types.go:42-64 | a missing member keeps what was there, null empties a map or a list, map entries are added to the earlier ones, a list is replaced; the timestamp by the form it arrives in, other forms leave the one that was there |
| Codec.TextTaken | internal/models/types.go:57-63 | a text is taken in the first of the two layouts that reads it, and otherwise leaves the time that was there |
| Codec.NumberTaken | internal/models/types.go:54-57 | a number whose float64 is in the range of 64 bits is taken rounded; a form that is neither leaves the time |
| Codec.NothingSent | internal/models/types.go:42-64 | missing members leave everything but the time, and so does null in place of a string or a number |
| Codec.MapsAndLists | internal/models/types.go:42-64 | null empties maps and lists; sent entries are added to a map and win over earlier ones; a sent list replaces |
| Codec.Target.Hop | internal/models/types.go:17-76 | marshalling and then unmarshalling over any earlier event: the sent event with its timestamp after one hop, its maps added to the earlier ones, and an earlier list or signature kept where none is sent |
| Codec.FreshHop | internal/models/types.go:17-76 | over a fresh event that is the sent event, the timestamp aside |
| Codec.CleanHopIff | internal/models/types.go:17-76 | over an earlier event it is so if and only if no map of that event has a key that is not sent, and none of its lists nor its signature is left standing where none is sent |
| Codec.RoundTrip | internal/models/types.go:42-76 | below 2^63 - 512 the decoded timestamp is the encoded one rounded to 53 bits: exact up to 2^53, error at most 2^(k - 53) |
| Codec.TopmostOverflow | internal/models/types.go:55-56 | the topmost 512 counts are left to the platform's conversion |
| Codec.HopKeepsOrder | internal/models/types.go:42-76 | order is kept over a hop |
| Codec.LaterHopsExact | internal/models/types.go:42-76 | after the first hop every further one is the identity |
| Codec.SurvivesIff | internal/models/types.go:42-76 | a timestamp survives exactly if it fits 64 bits and 53 bits of mantissa |
| Codec.ZeroTimeDoesNotSurvive | internal/models/types.go:67-76 | the zero time wraps around and comes back as another instant |
| Audit.CanonicalInjectiveIff | internal/audit/signer.go:51-60 | the canonical string determines the seven fields if and only if none of the last five holds a pipe and no segment of the event ID after a pipe reads as a 64-bit decimal |
| Audit.Identified | internal/audit/signer.go:51-60 | an unambiguous event is read back from its canonical string |
| Audit.Collision | internal/audit/signer.go:51-60 | for every other event there is a different one with the same canonical string |
| Audit.TamperingDetected | internal/audit/signer.go:41-47 | if the MAC does not collide an alteration that keeps the seal verifies exactly when it leaves event ID, nanoseconds, module, type, tenant, severity and status alone |
| Audit.TamperingMissed | internal/audit/signer.go:51-60 | an event whose module holds a pipe can be altered and still verify |
| Audit.SignedVerifies | internal/audit/signer.go:33-47 | a signed event verifies |
| Audit.SealIs | internal/audit/signer.go:33-65 | the seal is the MAC of event ID, nanoseconds, module, type, tenant, severity and status joined by pipes; it is valid if it is there and is the one just computed |
| Fields.DecimalReads | internal/audit/signer.go:52-54 | a numeral reads as its number, without leading zeros and with a sign only in front of a negative one |
| Intake.EveryStoredEventIsSealed | internal/processor/processor.go:88-121 | in every interleaving of calls each stored event has an ID, an allowed severity and status, a module, a type and a verifying signature |
| Intake.AcceptedIff | internal/validator/validator.go:56-70 | an event is accepted if and only if type and module hold something besides white space, and severity and status are among the known ones or not given |
| Intake.RejectedFor | internal/validator/validator.go:56-70 | otherwise the first thing that is wrong is the reason |
| Intake.SpaceIs | internal/validator/validator.go:57-62 | what counts as white space, by code point |
| Intake.StoredAs | internal/processor/processor.go:91-117 | an accepted event is stored with defaults where its ID, time or severity was missing, with its seal, and otherwise as it came |
| Intake.SpansMatchHistory | internal/processor/processor.go:119-121 | once all calls are done the spans of every trace are, as a multiset, those of the stored events of that trace |
| Intake.AcceptedPlusRejected | internal/processor/processor.go:103-109 | and every submission was either stored or rejected |
| Processor.Processor.Process | internal/processor/processor.go:88-121 | one call: the dead letter or the sealed event in ring and trace table; the invariant that all stored events are sealed and accepted + rejected = submitted |
| Processor.DeadLettersAreNewest | internal/validator/validator.go:83-88 | the dead letters are the last two hundred of everything rejected |
| Processor.VerifyAuditLog | internal/api/rest/handlers.go:566-587 | the loop computes the classification of the queried events |
| Processor.AuditCounts | internal/api/rest/handlers.go:574-586 | valid are the events whose seal is there and is the one computed from them, invalid those whose seal is another one, unsigned those without; tampered are the IDs of the invalid ones, in order |
| Processor.CountsAddUp | internal/api/rest/handlers.go:576-585 | total = valid + invalid + unsigned, and the tampered list has an ID per invalid event |
| Processor.SoundEventsAllValid | internal/api/rest/handlers.go:576-585 | on sealed events total = valid and nothing is tampered |
| Processor.AuditOfRingIsClean | internal/api/rest/handlers.go:566-587 | so the audit of a ring of sealed events is clean, whatever query and limit |
| Replay.Run | internal/demo/engine.go:73-150 | the two-index loop emits the schedule up to the point where it is found cancelled, for any speed and any rounding of the scaled offsets |
| Replay.PlanIsBatches | internal/demo/engine.go:107-150 | for sorted annotations the schedule is, for each event in order, all annotations with strictly smaller scaled offset still to come and then the event |
| Replay.EmittedIffBeforeSomeEvent | internal/demo/engine.go:113-132 | an annotation is emitted if and only if it is strictly before some event |
| Replay.EventsInOrder | internal/demo/engine.go:107-150 | all events are emitted, once each and in order |
| Replay.SortedOutput | internal/demo/engine.go:107-150 | if the events are sorted too everything comes out in the order of its scaled time |
| Replay.CancelledIsPrefix | internal/demo/engine.go:122-144 | a cancelled replay has sent a prefix of what a later cancelled or full one sends |
| Replay.ScaledMonotone | internal/demo/engine.go:108-116 | scaling by the speed keeps the order of offsets, whatever the speed and for any monotone rounding of float64 values |
| Replay.ScaledIs | internal/demo/engine.go:73-116 | with nothing to round an offset is divided by the speed and cut to whole milliseconds towards zero; a speed that is not positive leaves it as it is |
| Replay.RoundedScale | internal/demo/engine.go:108-116 | with rounding, offset and quotient are rounded, in this order, before the cut |

## Left out

- Transport and presentation: NATS, gRPC, REST routing and middleware, WebSocket pumps, the CLI, notifiers, metrics and static files.
- Users, tokens and password hashing; HMAC-SHA256 itself is a function parameter, assumed only to return a non-empty string.
- Alerts, incidents, honey-token triggers, run books and configuration loading: short branches or table lookups. The dashboard counts them from a map of statuses.
- Topology, PipelineStats, PipelineHealth, TenantActivity, SearchEvents and the login audit of the store: further single-pass aggregations of the same ring.
- Chunk lineage is modelled as a table; extracting an entry from a `chunk_retrieved` event inside Process is not.
- Event payloads are string maps, and parent_span_id, schema_version, module_version, category, action_taken, descriptions, evidence and anomaly IDs are omitted; none of them is read by what is modelled.
- Generated IDs: fresh by assumption; checkpoint and waiter IDs are natural numbers.
- Counters and durations are unbounded integers, except for the 64-bit nanosecond counts of the codec and the clamped duration of a trace. Go's instants carry no monotonic clock reading here.
- Races on unsynchronised state: each lock-held region is one atomic step.
- MeanStddev: exact reals with an exact square root, so float64 rounding inside the spike test is not modelled.
- Check: the 90% ratio is the integer test 10 full >= 9 total, not a float64 quotient.
- FeedbackEndsIff: the clock is frozen, the external event carries that time or none, off-hours reporting is disabled and no bypass monitor is attached; without these the loop depends on how fast the clock moves.
- RecentActivity: with writes between its queries the three severities come from three snapshots, so an alarm written after its own query is not in the feed; severities and the limit of twenty are those of the handler.
- SetMode: checkpoint records are values in a map, so a caller that later reads the record it got from CreateCheckpoint is not modelled.
- ObserveEvent: the mode is read before the lock is taken, so it is a parameter; step annotations are never set.
- Unmarshal: members of the wrong type, numbers beyond the range of a float64 and malformed objects, which are errors, are not modelled; the integer part of the float64 nearest to a fraction is a function parameter.
- HandRound: within one offer the filter is read and the message is sent in one step.
- Connect: the hand-over of a new consumer to the loop through an unbuffered channel is one step.
- Run: a replay may be found cancelled at any emission, also where the code would not look because it is late; a broadcaster is attached. The speed is a positive real or counts as 1, so infinite and NaN speeds are not modelled, nor are offsets beyond 64 bits; what float64 makes of an exact quotient is a parameter, of which the ordering lemmas use that it is monotone.
- The running table of the replay engine, including the late delete by a stopped replay, is not modelled.
- Inspect: the hour of an instant depends on its location and is a function parameter; anomaly IDs are not generated.
