# Delivery, storage, registry, experiments and funnels, verified

A Dafny model of the parts of the repository that keep state or decide on data, with proofs of what
they promise over every run. `dafny verify dfyconfig.toml` checks the whole project.

Each component that changes state is a class or a method with loops, proved equal to a specification
function; the theorems are lemmas about whole runs of those functions. I/O that may fail, be ambiguous
or crash is an adversarial step or parameter, so every theorem holds for every environment. Lemmas over
sequences and states turn automatic induction off; the inductions are written out.

| module | what it models |
|---|---|
| `Transform` | enriched message to flat row |
| `Storage` | the deduplicated events table, its FINAL view, insert tokens, the daily rollup, merges and erasure |
| `Consumer` | topic to ClickHouse: batches, retries, dead letters, commits, crashes and replays |
| `Sink` | the collector's buffered sink, whose `publish` is two steps around an await |
| `Delivery` | the two halves joined: acknowledged events against what the clusters show |
| `Registry`, `Diff` | the event registry with its audit log, and registry-as-code sync |
| `Sequential`, `Monitor`, `Rollout` | the confidence sequence, one monitoring pass, the guarded rollout |
| `Funnel`, `FunnelRates` | greedy funnel journeys and the rates computed from them |
| `SdkClient` | the SDK's queue, batches and retries |
| `FileEdits` | bottom-up line insertion |
| `Primitives`, `Correlations` | the changepoint locator and the correlation ranking |
| `RateLimiter` | the per-session rate limit |
| `Sorting`, `Reals`, `Wrappers` | stable sort, real arithmetic in small steps, Option and Result |

## Where the code does less than its documentation says

The model follows the code. Each of these is proved, with the exact condition where there is one.

- `packages/collector/src/sink.ts` says nothing acknowledged is discarded. With overlapping publishes a
  failing call overwrites what other calls have buffered: `Sink.OverlapLosesAckedEvent` is a losing run, and
  `Sink.NothingAckedIsLostExactly` says when nothing is lost: exactly when no failing call finds the buffer
  non-empty. Counting what failed publishes got onto the topic changes nothing
  (`Delivery.NothingAckedIsLostExactly`). One publish at a time is enough (`Sink.SequentialNeverOverwrites`).
- `packages/pipeline/src/redpanda.ts` claims effectively-once. It holds for every history exactly when
  messages that share a deduplication key are serialised alike (`Consumer.DeployedEffectivelyOnceExactly`).
  Otherwise a replay can bring an older row back. Remembering every batch token forever would not prevent it
  (`Consumer.EffectivelyOnceExactly`), and it can happen though nothing fails
  (`Consumer.ReplayCanRestoreOlderRow`).
- `packages/pipeline/src/ch-migrate.ts` calls the rollup a cache of the raw events. How far each counter is off
  is `Storage.RollupDriftExactly`: an insert that fails between the two tables leaves it short until it is
  retried (`Storage.HalfLandedInsertUndercounts`), an erasure interrupted between its two commands leaves it
  stale until it is run again (`Storage.HalfErasedIsStale`, `Storage.ErasureResumes`), and replays can only
  make it too high. Once the consumer has committed everything no counter is short, and each is exact exactly
  if nothing it counts was rolled up twice (`Consumer.RollupCatchesUp`).
- `new-repo-handoff/quarry/event-validator.ts` checks 100 events a second. A second that a check opens keeps that
  limit, whatever follows, exactly when it ends no later than the minute its entry is in
  (`RateLimiter.SecondKeepsLimitExactly`): the minute reset clears the second's counter. Any 1000 ms, both ends
  included, hold at most 299 (`RateLimiter.AtMost299InAnySpan`), which is reached
  (`RateLimiter.BoundIsAttained`). Where no minute begins in the span or the second
  before it the bound is 200 (`RateLimiter.AtMost200WithoutMinute`), which is reached as well. The configured
  per-minute limit is never checked.
- `new-repo-handoff/quarry/funnel-analysis-engine.ts` only asks step orders to be unique; it never checks
  that step ids are. For a funnel someone can finish, the step rates multiply to the completion rate exactly
  when the ids are distinct and the orders are 1..n, the first possibly smaller
  (`FunnelRates.ProductLawExactly`, which also settles the funnels no one can finish), and other orders can
  give rates above 1 (`FunnelRates.RateInRangeExactly`).
- `packages/cli/src/diff.ts` says deprecated remote events absent from the file are left alone. So are
  proposed ones: only active events are removed (`Diff.SyncSetsEveryEvent`).
- `packages/instrumentation-agent/src/implementer.ts` lets edits point past the end of the file. Those
  within it land in original coordinates, the others form a tail (`FileEdits.AppliedExactly`), whose edits
  stand in coordinate order exactly when there is at most one of them (`FileEdits.AtOnceExactly`).
- `packages/experiment-agent/src/agent.ts` looks a guardrail's harm up in an object literal, so a metric named
  like an inherited property, `constructor` say, has no harmful side: an unlisted metric that rises for certain
  breaches exactly if it is not named so (`Monitor.UnlistedBreachesExactly`), and guardrails named so never stop
  an experiment (`Monitor.InheritedNamesNeverStop`).

## Model

| member | source | states |
|---|---|---|
| Transform.RowsIdentifyMessages | packages/pipeline/src/transform.ts:63-94 | two parsed documents give the same row exactly when neither maps or JSON.stringify writes them alike, member order included |
| Transform.RowOfSerialised | packages/pipeline/src/transform.ts:50-94 | no column tells a message from its serialised form, in which a number that is not finite is null |
| Transform.SerialisedIsDocument | packages/pipeline/src/transform.ts:92-92 | what JSON.stringify writes of a parsed document parses to a document: distinct names, array indices first |
| Transform.RetentionStaysInBounds | packages/pipeline/src/transform.ts:56-57 | the retention window is always within 1..3650 and the nearest whole day to a value inside |
| Transform.MapsExactly | packages/pipeline/src/transform.ts:39-51 | a message maps exactly if its six required texts are there and not empty, its agent has a name, and its event id is a UUID |
| Transform.ColumnsAreMembers | packages/pipeline/src/transform.ts:63-94 | each column of a row is the text or number of the member it is named after, or empty or 0 where that is missing, of another type or not finite; the payload is the whole serialised message |
| Transform.UuidIsFiveGroups | packages/pipeline/src/transform.ts:43-43 | an event id is a UUID exactly if it is five groups of 8, 4, 4, 4 and 12 hexadecimal digits of either case joined by hyphens |
| Transform.SerialisedIsFinite | packages/pipeline/src/transform.ts:92-92 | what JSON.stringify writes holds finite numbers only, and leaves a document as it is exactly if that holds of it |
| Storage.FinalShowsLast | packages/pipeline/src/ch-migrate.ts:61-64 | FINAL shows, for a key, the row stored last under it |
| Storage.FinalOfSameRows | packages/pipeline/src/ch-migrate.ts:61-64 | two stores holding the same consistent rows, in any order and multiplicity, have one FINAL view |
| Storage.FilterCommutesWithFinal | packages/analysis/src/semantic.ts:225-231 | filtering on key columns before or after deduplication gives the same rows |
| Storage.BoundedFinalExactly | packages/analysis/src/semantic.ts:234-238 | deduplicating each partition on its own equals full FINAL for every table exactly when the partition is a function of the key |
| Storage.BoundedReadRefinesFullRead | packages/analysis/src/semantic.ts:224-238 | in every reachable table a bounded FINAL read of a tenant's time window returns what the full read does, whatever function of its timestamp a row's month is |
| Storage.RunIsValid | packages/pipeline/src/ch-migrate.ts:61-64 | through every interleaving of inserts that fail anywhere, merges, tokens leaving either window and the two commands of an erasure, FINAL shows what the history of accepted rows shows and the rollup sums to what it took in |
| Storage.RollupDriftExactly | packages/pipeline/src/ch-migrate.ts:85-121 | in every reachable state each counter of any selection of groups plus its missing keys equals the deduplicated raw count plus its stale keys plus its repeats |
| Storage.RollupNeverUndercounts | packages/pipeline/src/ch-migrate.ts:85-121 | where no insert fails between events table and rollup and no rollup is deleted, no counter undercounts, and it is exact exactly if nothing counted is stale or was rolled up twice |
| Storage.HalfLandedInsertUndercounts | packages/pipeline/src/clickhouse.ts:30-42 | an insert that reaches the events table and fails before the rollup leaves the rollup short |
| Storage.CounterDrifts | packages/pipeline/src/ch-migrate.ts:109-121 | the number of rolled-up rows satisfying any test of their keys, against the raw count: missing, stale and repeated keys account for the difference |
| Storage.ViewCountsEvents | packages/pipeline/src/ch-migrate.ts:109-121 | of any inserted block and selection of groups the view counts as completed, abandoned and events the selected rows named task_completed, those named task_abandoned and all of them, and as ended the first two with those named task_failed |
| Storage.RollupCountsEvents | packages/pipeline/src/ch-migrate.ts:109-121 | so in every reachable state, through failed inserts, merges and erasures, of the rows the rollup took in |
| Storage.DailyReadCountsEvents | packages/analysis/src/semantic.ts:266-286 | and a tenant's daily read counts exactly that tenant's rows of that day |
| Storage.DailyRollupExactly | packages/analysis/src/semantic.ts:266-286 | the same for each counter of a tenant's daily read; where nothing is missing it is at least the raw count of the whole day, and equal exactly when no event it counts is stale or was rolled up twice |
| Storage.RetryAcceptsOnceExactly | packages/pipeline/src/clickhouse.ts:20-43 | retrying a failed batch takes it into the events table once exactly when the first attempt landed all of it, and so its token, or none of it; and independently the same for the rollup |
| Storage.ClickHouse.InsertRows | packages/pipeline/src/clickhouse.ts:20-43 | an empty batch does nothing; each of the two tables skips a batch it remembers and otherwise takes it in as far as the attempt got |
| Storage.ClickHouse.DeleteTenantEvents | packages/pipeline/src/ch-migrate.ts:184-197 | refuses an empty tenant; otherwise removes the tenant's rows and then its rollups, and stops at a command that throws, whether or not it took effect |
| Storage.ErasureResumes | packages/pipeline/src/ch-migrate.ts:184-197 | however an erasure was interrupted, running it again leaves what one uninterrupted run leaves: nothing of the tenant in either table, everything of the others |
| Storage.HalfErasedIsStale | packages/pipeline/src/ch-migrate.ts:189-196 | an erasure that throws between its commands leaves the tenant's counters as they were over no raw rows |
| Consumer.OffsetsNeverSkip | packages/pipeline/src/redpanda.ts:153-200 | over every history of batches, insert and dead-letter failures, crashes and replays, each message below the position has its row in its cluster, events table and rollup both, or a dead letter, and commits never pass it |
| Consumer.NothingIsMisrouted | packages/pipeline/src/redpanda.ts:110-114 | every row a cluster shows comes from a message whose residency routes there |
| Consumer.RegionsStayApart | packages/pipeline/src/redpanda.ts:110-114 | over every history a row ever taken in by the European tables comes from a document whose residency member is "eu", and only if Europe has a cluster; one in the American tables comes from any other document |
| Consumer.EachRegionKeepsItsOwn | packages/pipeline/src/redpanda.ts:153-200 | and each mappable message below the position has its row in the events table and the rollup of its own region, by that member, or dead-lettered |
| Consumer.DeployedMessagesAreKept | packages/pipeline/src/redpanda.ts:153-200 | the same for the deployed classification: messages with a value below the committed offset are kept or dead-lettered, with their reason |
| Consumer.DeadLettersAreEarned | packages/pipeline/src/redpanda.ts:155-191 | and back: a dead letter is an unparsable message of the log, one that parses but does not map, or the row of one that maps, each under its own reason |
| Consumer.EffectivelyOnceBetween | packages/pipeline/src/redpanda.ts:157-199 | at every moment the FINAL view lies between the view of the messages below the position and that of all produced, each processed once |
| Consumer.EffectivelyOnce | packages/pipeline/src/redpanda.ts:157-199 | if messages sharing a key give the same row, and no insert was dead-lettered, then once all is committed the FINAL view of each cluster is that of processing each message exactly once |
| Consumer.EffectivelyOnceExactly | packages/pipeline/src/redpanda.ts:153-200 | for every log: all histories that commit it without dead-lettered inserts show the exactly-once view if and only if messages sharing a key give the same row; and the same for all histories in which no token is ever forgotten |
| Consumer.RollupCatchesUp | packages/pipeline/src/ch-migrate.ts:85-93 | once all is committed without dead-lettered inserts, through inserts that failed between the two tables, crashes and replays, no rollup counter is short of its raw count, and each is exact exactly if nothing it counts was rolled up twice |
| Consumer.DeployedEffectivelyOnceExactly | packages/pipeline/src/redpanda.ts:153-200 | and for the deployed classification, if and only if messages sharing a key are serialised alike, since a row carries its message's text |
| Consumer.ReplayCanRestoreOlderRow | packages/pipeline/src/redpanda.ts:178-198 | without that condition, even while every token is still remembered: a concrete history in which everything is committed, nothing failed, and FINAL shows an older row |
| Consumer.ClassifyIsComplete | packages/pipeline/src/redpanda.ts:157-176 | each message of a batch is in exactly its bucket, or dead, or empty, and nothing else is |
| Consumer.InsertBucketLands | packages/pipeline/src/redpanda.ts:178-192 | after both attempts a bucket's rows are in the cluster or among the dead letters, or the process has died |
| Consumer.TriedTwiceAtMost | packages/pipeline/src/redpanda.ts:178-192 | a bucket is inserted again exactly after a throw, given up row by row after the second, and no other cluster is touched |
| Consumer.PollCounts | packages/pipeline/src/redpanda.ts:134-170 | a handler that gets through adds the rejected messages to one counter and what reached the dead-letter topic to the other |
| Consumer.RejectionsKeepOrder | packages/pipeline/src/redpanda.ts:157-176 | rejected messages go to the dead-letter topic in the order they were read |
| Consumer.EventsConsumer.ClassifyBatch | packages/pipeline/src/redpanda.ts:155-176 | the loop computes the classification |
| Consumer.EventsConsumer.InsertBuckets | packages/pipeline/src/redpanda.ts:178-192 | the insert loop, with its retry and dead letters |
| Consumer.EventsConsumer.ConcludeBatch | packages/pipeline/src/redpanda.ts:194-198 | dead letters are written before offsets resolve and may commit |
| Consumer.EventsConsumer.EachBatch | packages/pipeline/src/redpanda.ts:153-200 | one batch handler run takes the system to the specified next state |
| Sink.BufferedSink.StartPublish | packages/collector/src/sink.ts:38-44 | up to the await: the call takes the whole backlog and leaves the buffer empty |
| Sink.BufferedSink.FinishPublish | packages/collector/src/sink.ts:44-57 | after the await: delivered, buffered whole, or refused with the backlog put back |
| Sink.BufferStaysWithinCapacity | packages/collector/src/sink.ts:45-57 | the buffer never exceeds the capacity, through any interleaving of publishes |
| Sink.SequentialKeepsOrder | packages/collector/src/sink.ts:38-57 | one publish at a time: acknowledged events are those of successful inner publishes followed by the buffer, in arrival order |
| Sink.RefusalRestoresBuffer | packages/collector/src/app.ts:124-131 | a request answered 503 leaves the buffer as it was |
| Sink.HealthIsLastAnswer | packages/collector/src/sink.ts:42-46 | in any interleaving the sink is degraded exactly while the last answer of the inner sink was a failure |
| Sink.EveryEventIsCounted | packages/collector/src/sink.ts:38-57 | in any interleaving, acknowledged events are exactly those delivered, buffered, held by a call or overwritten |
| Sink.NothingAckedIsLostExactly | packages/collector/src/sink.ts:45-57 | acknowledged events are exactly the successfully published, buffered and held ones exactly when no failing finish found the buffer non-empty |
| Sink.SequentialNeverOverwrites | packages/collector/src/sink.ts:38-57 | without overlap that never happens |
| Sink.OverlapLosesAckedEvent | packages/collector/src/sink.ts:43-55 | two overlapping publishes that lose an event answered 202 |
| Delivery.NothingAckedIsLostExactly | packages/collector/src/sink.ts:43-57 | counting also what failed publishes got onto the topic: for all parts they may leave there, every acknowledged event, as often as it was acknowledged, is on the topic, buffered or held, exactly when no failing finish finds the buffer non-empty |
| Delivery.AcknowledgedIsSomewhere | packages/collector/src/sink.ts:38-57 | while no failing publish finds a filled buffer, every acknowledged event is on the topic, in the buffer or in flight, whatever parts failed publishes left behind |
| Delivery.SequentialLosesNothing | packages/collector/src/sink.ts:38-57 | so whenever publishes do not overlap |
| Delivery.SameMessagesSameView | packages/pipeline/src/ch-migrate.ts:61-64 | where same-key messages give the same row, repeats and order on the topic leave the exactly-once view alone |
| Delivery.AcknowledgedIsShown | packages/pipeline/src/redpanda.ts:153-200 | once the collector is quiet and the topic committed, every acknowledged event that maps is shown by the cluster it routes to, with its own row |
| Delivery.AcknowledgedOnce | packages/pipeline/src/redpanda.ts:153-200 | if moreover all that reached the topic was acknowledged in the end, each cluster shows exactly the view of the acknowledged events, once each |
| Registry.AuditRebuildsRegistry | packages/registry-service/src/store.ts:200-220 | in every reachable state replaying the audit log from nothing gives the registry, and each record's `before` is what that replay had |
| Registry.NothingIsEverForgotten | packages/registry-service/src/store.ts:330-380 | between any two moments no event key disappears and the log only grows |
| Registry.ServedEntriesAreValid | packages/registry-service/src/store.ts:305-380 | every stored entry passes the entry schema, whatever plans were sent |
| Registry.DistinctChangesApply | packages/registry-service/src/store.ts:348-373 | a plan of distinct, applicable lines never conflicts and sets each named event to its line's entry, and no other |
| Registry.RegistryStore.Put | packages/registry-service/src/store.ts:305-313 | a valid entry is stored under its own event, no other entry changes, and one record names actor, entry and the entry before; an invalid value changes nothing |
| Registry.RegistryStore.Apply | packages/registry-service/src/store.ts:330-380 | a valid, current, conflict-free plan is applied whole; one computed against another state is stale; any failure leaves registry and log as they were |
| Registry.PlanAppliesExactly | packages/registry-service/src/store.ts:336-380 | a plan is applied exactly if it is valid, computed against the current registry and free of conflicts, and otherwise refused for the first of these that fails, or for one of its conflicts |
| Registry.NoWriteIsLost | packages/registry-service/src/store.ts:340-346 | in every run, whatever requests came since the state a plan was computed against, applying it changes nothing unless the registry is that state again |
| Registry.LinesApplyExactly | packages/registry-service/src/store.ts:348-373 | the lines of a plan apply exactly if each added event is new to the registry and the earlier lines and each other one is in either; an error names a line that is not so |
| Registry.EachLineIsAudited | packages/registry-service/src/store.ts:348-373 | an applied plan leaves one record a line, in order, under the actor, with what the line made of its entry |
| Registry.OthersAreLogged | packages/registry-service/src/store.ts:387-415 | in every run the other actions on record are exactly those requested, in order and under their actors |
| Registry.AddLines | packages/registry-service/src/store.ts:348-355 | the loop over added lines |
| Registry.ModifyLines | packages/registry-service/src/store.ts:356-364 | the loop over modified lines |
| Registry.RemoveLines | packages/registry-service/src/store.ts:365-373 | the loop over removals: deprecate, never delete |
| Diff.EmptyDiffExactly | packages/cli/src/diff.ts:54-56 | no drift is reported exactly when every local entry is the backend's and every active event of the backend is in the file |
| Diff.ByEventFindsLast | packages/cli/src/diff.ts:17-18 | of several entries for one event a diff looks at the last |
| Diff.SyncSetsEveryEvent | packages/cli/src/diff.ts:9-52 | after applying the computed diff each event holds the file's entry, its deprecated self, or what it held |
| Diff.SyncConverges | packages/cli/src/diff.ts:9-56 | for every duplicate-free file and every backend the plan is valid and never conflicts, file and backend end in sync, no key is lost, and a second diff is empty |
| Sequential.EveryObservationNarrows | packages/experiments/src/sequential.ts:76-97 | once both arms have data every further observation strictly narrows the interval, whatever its value, for any rho and any alpha with ln(4/alpha^2) >= 1 |
| Sequential.RadiusFalls | packages/experiments/src/sequential.ts:48-53 | the radius strictly decreases in n |
| Sequential.EvaluationIs | packages/experiments/src/sequential.ts:76-97 | the evaluation of any observations: variant mean less control mean, both radii to either side at half of alpha, and a decision exactly once zero is outside |
| Sequential.RadiusIs | packages/experiments/src/sequential.ts:48-53 | the square of the radius, times 4 n^2 rho, is (n rho + 1) times the logarithm of (n rho + 1) / alpha^2 where that is positive |
| Sequential.ExchangingArmsMirrors | packages/experiments/src/sequential.ts:76-97 | exchanging the arms negates the effect, mirrors the interval and exchanges ship and revert |
| Sequential.WideRadiusDecidesNothing | packages/experiments/src/sequential.ts:87-94 | while the radii sum to at least 1, no observations in [0, 1] decide |
| Sequential.SequentialTest.Record | packages/experiments/src/sequential.ts:65-69 | observe adds one observation to one arm and nothing else |
| Sequential.SequentialTest.Count | packages/experiments/src/sequential.ts:70-72 | the smaller arm's count |
| Monitor.RunSequence | packages/experiment-agent/src/agent.ts:94-102 | the evaluation of the complete pairs, the longer arm's surplus ignored |
| Monitor.PairsAreCompared | packages/experiment-agent/src/agent.ts:94-102 | a pass evaluates the means of the complete pairs, variant less control, at a false-positive ceiling of 5% |
| Monitor.CheckGuardrails | packages/experiment-agent/src/agent.ts:111-127 | every guardrail's outcome and the breached metrics, in order |
| Monitor.MonitorExperiment | packages/experiment-agent/src/agent.ts:109-180 | the result of a pass and exactly the registry calls it makes |
| Monitor.VerdictExactly | packages/experiment-agent/src/agent.ts:109-180 | stopped exactly when some guardrail's interval lies wholly on its harmful side, whatever the target; ship or revert exactly when none does and the target's interval lies wholly on the intended or the other side |
| Monitor.StopNamesTheHarmed | packages/experiment-agent/src/agent.ts:113-121 | a stop lists exactly the harmed metrics |
| Monitor.HarmByName | packages/experiment-agent/src/agent.ts:66-70 | a rise harms override_rate and cost_per_completed_task, a fall task_success_rate, and a rise any metric not listed and not named like an inherited property |
| Monitor.UnlistedBreachesExactly | packages/experiment-agent/src/agent.ts:115-119 | a metric without a listed harm breaches exactly if its interval lies wholly above zero and it is not named like an inherited object property |
| Monitor.InheritedHarmsNothing | packages/experiment-agent/src/agent.ts:66-115 | a metric has no harmful side exactly if it is named like one of the twelve inherited object properties |
| Monitor.InheritedNamesNeverStop | packages/experiment-agent/src/agent.ts:115-121 | a pass over guardrails that nothing harms never stops the experiment, whatever they observe |
| Monitor.EveryVerdictIsReported | packages/experiment-agent/src/agent.ts:131-179 | an inconclusive pass writes nothing; any other writes the verdict, with every guardrail and whether it was harmed, the target's evaluation and the queries behind it; then the status; then a finding with its severity, whose every effect carries the query that is its evidence |
| Monitor.TenPairsDecideNothing | packages/experiment-agent/src/agent.ts:94-102 | no verdict on up to ten pairs of observations in [0, 1], whatever they say, from numeric bounds on three logarithms |
| Monitor.UnanimousPairsShipExactly | packages/experiment-agent/src/agent.ts:94-102 | and ten is sharp: pairs that all favour the variant as far as they can ship exactly from the eleventh on |
| Rollout.RunGuardedRollout | packages/experiment-agent/src/rollout.ts:65-132 | the exact sequence of reads, passes, shares and audit entries, and the outcome |
| Rollout.PermissionExactly | packages/experiment-agent/src/rollout.ts:68-93 | a share is ever set exactly if the level is at least 3, the change class declared, the task type not protected and fewer than the maximum under way; else the first of these that fails is recorded and nothing more is asked; the first share is the one requested, or the cap where more was requested |
| Rollout.ChecksAreMade | packages/experiment-agent/src/rollout.ts:95-131 | a permitted rollout makes one pass a check, in order, up to the one that settles it, or all of them, 20 unless asked otherwise, and then goes to a human |
| Rollout.FirstSettledCheckDecides | packages/experiment-agent/src/rollout.ts:96-126 | the first check with a revoked grant or a verdict, and only it, decides: halted, promoted or rolled back |
| Rollout.UnsettledGoesToAHuman | packages/experiment-agent/src/rollout.ts:128-131 | with no such check the canary is handed to a human |
| Rollout.ExposureExactly | packages/experiment-agent/src/rollout.ts:65-132 | for any grants and verdicts the shares set are none without permission, else the canary, or the canary then 0 or 1; the canary is within the cap; the last share and the last audit entry tell the outcome |
| Rollout.OnlyPromotionExceedsTheCap | packages/experiment-agent/src/rollout.ts:96-121 | at every place of the log, also when a failing call cuts it short, a share above the cap directly follows a level-3 read and a ship verdict of one check |
| Rollout.PromotionIsDeserved | packages/experiment-agent/src/rollout.ts:115-120 | a promotion's own check breached no guardrail, had its target interval wholly on the intended side, held level 3, and no earlier check had anything to say |
| Rollout.DeservedIsPromoted | packages/experiment-agent/src/rollout.ts:115-120 | the converse: the first settled check that deserves it promotes |
| Funnel.FindStepCompletionEvent | new-repo-handoff/quarry/funnel-analysis-engine.ts:583-603 | the first listed event that matches the step strictly after the previous completion |
| Funnel.CreateUserJourney | new-repo-handoff/quarry/funnel-analysis-engine.ts:519-581 | the journey of the sorted events through the sorted steps |
| Funnel.JourneyIsOptimal | new-repo-handoff/quarry/funnel-analysis-engine.ts:519-603 | if any strictly time-increasing chain of the events matches the first k steps, the journey completes at least k, each no later than the chain |
| Funnel.JourneyIsAchieved | new-repo-handoff/quarry/funnel-analysis-engine.ts:519-603 | the completed steps are themselves such a chain |
| Funnel.ArrivalOrderIsIrrelevant | new-repo-handoff/quarry/funnel-analysis-engine.ts:524-525 | any other order of arrival gives the same completions at the same times |
| Funnel.JourneyTimesAgree | new-repo-handoff/quarry/funnel-analysis-engine.ts:545-561 | steps take positive time, none precedes the first event, and times since the start add up |
| Funnel.DropoffOrConversion | new-repo-handoff/quarry/funnel-analysis-engine.ts:563-578 | a drop-off is recorded, with the order of the first step not completed, exactly for an unfinished journey; a conversion time exactly for a finished one; the end is the last completion |
| FunnelRates.CalculateStepResults | new-repo-handoff/quarry/funnel-analysis-engine.ts:638-683 | user counts and rates of every step, in step order |
| FunnelRates.CalculateOverallMetrics | new-repo-handoff/quarry/funnel-analysis-engine.ts:685-697 | total users and completion rate |
| FunnelRates.StepResultSays | new-repo-handoff/quarry/funnel-analysis-engine.ts:644-652 | a step's count is the number of users who completed that step, its rate their share of all users for order 1 and else of those with one completion fewer than the order, and its drop-off what is left to 1 |
| FunnelRates.OverallSays | new-repo-handoff/quarry/funnel-analysis-engine.ts:694-698 | the completion rate is the share of users with every step completed, and the drop-off rate what is left to 1 |
| FunnelRates.FunnelNarrows | new-repo-handoff/quarry/funnel-analysis-engine.ts:645-650 | with distinct ids the users reaching each step never increase along the funnel |
| FunnelRates.RateInRangeExactly | new-repo-handoff/quarry/funnel-analysis-engine.ts:647-651 | for every set of journeys the engine can create, a step's rate lies in [0, 1] exactly when its order asks for no more completed steps than getting to the step takes, or for more than anyone can complete |
| FunnelRates.ProductLawExactly | new-repo-handoff/quarry/funnel-analysis-engine.ts:638-697 | for any validated funnel: the step rates multiply to the completion rate for every set of journeys the engine can create exactly when ids are distinct and orders 1..n, the first possibly smaller; or, where no one can finish, exactly when some step is out of everyone's reach |
| FunnelRates.ProductLawForFunnels | new-repo-handoff/quarry/funnel-analysis-engine.ts:444-457 | so for any validated funnel with distinct ids and orders 1..n, listed in any order, and the journeys created for it |
| FunnelRates.UserCompleting | new-repo-handoff/quarry/funnel-analysis-engine.ts:519-581 | for any reachable number of steps there are events whose created journey completes exactly that many |
| FunnelRates.JourneysWalkFunnel | new-repo-handoff/quarry/funnel-analysis-engine.ts:537-561 | a created journey's completed steps are the first ones of the funnel |
| SdkClient.ToqarClient.Enqueue | packages/sdk/src/client.ts:66-93 | a disabled or invalid emit changes nothing; any other is queued last, and the oldest dropped if that is one too many |
| SdkClient.ToqarClient.Flush | packages/sdk/src/client.ts:121-129 | a flush call only joins the chain |
| SdkClient.ToqarClient.Turn | packages/sdk/src/client.ts:121-129 | the flush chain's next turn: start a waiting flush, take one batch, or finish |
| SdkClient.ToqarClient.Attempt | packages/sdk/src/client.ts:95-119 | a batch is delivered, tried again, or dropped after its last attempt |
| SdkClient.AcceptedAreAdmitted | packages/sdk/src/client.ts:66-84 | in every run the accepted events are exactly those emitted while enabled and, where that is asked for, valid, in order and with their payloads |
| SdkClient.EveryEventIsAccountedFor | packages/sdk/src/client.ts:66-129 | for every interleaving of emits, flushes and answers each accepted event is in exactly one of delivered, given up, overflowed, in flight, queued |
| SdkClient.BuffersStayBounded | packages/sdk/src/client.ts:84-88 | the queue never exceeds maxBuffered after an emit, and one batch of at most maxBatch is in flight |
| SdkClient.DeliveryKeepsOrder | packages/sdk/src/client.ts:121-129 | delivered events are in emission order, and nothing overtakes the queue |
| SdkClient.OverflowOnlyWhenFull | packages/sdk/src/client.ts:84-88 | overflow drops the oldest event, only on an emit that finds the queue full |
| SdkClient.GivesUpOnLastAttempt | packages/sdk/src/client.ts:95-119 | a batch is given up only when attempt maxRetries + 1 fails |
| SdkClient.CallsAreServed | packages/sdk/src/client.ts:121-129 | in every schedule the flushes that ended, the one under way and those waiting are the flush calls made |
| SdkClient.FlushSettlesEverything | packages/sdk/src/client.ts:121-129 | in every schedule, emits and failing posts included: when a flush call's own turn has ended nothing accepted before it is queued or in flight; each such event is delivered, given up after its retries, or dropped by overflow |
| SdkClient.FlushDeliversEverything | packages/sdk/src/client.ts:155-159 | in every schedule of turns, flush calls and successful posts: when the call's turn has ended, what was in flight and the whole queue is delivered, in order, and nothing else |
| SdkClient.FlushCanEnd | packages/sdk/src/client.ts:155-159 | and from every reachable state, a flush under way or waiting included, there is such a schedule, which leaves nothing waiting |
| SdkClient.EmptyBatchesDeliverNothing | packages/sdk/src/client.ts:121-129 | with maxBatch at most zero no run ever delivers anything |
| FileEdits.ApplyEdits | packages/instrumentation-agent/src/implementer.ts:172-181 | the splice loop over the edits by descending afterLine |
| FileEdits.BottomUpIsAtOnce | packages/instrumentation-agent/src/implementer.ts:172-181 | within the file the result is every insert directly after its original line, ties in reverse list order |
| FileEdits.DeletingInsertsRestores | packages/instrumentation-agent/src/implementer.ts:172-181 | deleting the inserts gives back the original lines, wherever the edits point |
| FileEdits.AppliedExactly | packages/instrumentation-agent/src/implementer.ts:172-181 | for all edits the schema lets through: those within the file inserted at once, followed by the tail the others make |
| FileEdits.TailIsOrdered | packages/instrumentation-agent/src/implementer.ts:176-178 | the tail's texts are the inserts of the edits at the places the same splices give |
| FileEdits.TailDescendsExactly | packages/instrumentation-agent/src/implementer.ts:176-178 | the edits of the tail stand in descending order, ties in list order, exactly when the k-th edit past the end points at least k lines past it, whatever the texts |
| FileEdits.AtOnceExactly | packages/instrumentation-agent/src/implementer.ts:176-178 | the edits past the end stand in coordinate order, ties as within the file, exactly when there is at most one of them, and the whole result is then in coordinate order |
| FileEdits.OrderIsLost | packages/instrumentation-agent/src/implementer.ts:176-178 | with more, and different first and last texts, the resulting file is not in coordinate order |
| FileEdits.PastTheEndOrderIsLost | packages/instrumentation-agent/src/implementer.ts:176-178 | two edits past the end come out in the opposite order |
| Primitives.DetectChangepoint | packages/analysis/src/primitives.ts:134-156 | null exactly when no split qualifies; otherwise the earliest split of maximal significance |
| Primitives.BestIsUnique | packages/analysis/src/primitives.ts:138-154 | that specification has one answer |
| Primitives.LevelShiftIsFound | packages/analysis/src/primitives.ts:134-156 | a series that steps from one level to another is split there, with the difference after minus before and infinite significance, whatever the floor |
| Primitives.WelchIs | packages/analysis/src/primitives.ts:145-147 | the square of the standard error is the sum, over both sides, of the mean squared deviation divided by the side's size |
| Primitives.ChangepointFollowsUnits | packages/analysis/src/primitives.ts:134-156 | shifting the series and scaling it by a positive factor keeps the index and the significance and scales the magnitude |
| Correlations.RankCorrelations | packages/analysis/src/primitives.ts:184-210 | the loop over candidates and aligned pairs, then the sort |
| Correlations.CauchySchwarz | packages/analysis/src/primitives.ts:201-204 | the squared sum of products is at most the product of the sums of squares |
| Correlations.ReportedInRange | packages/analysis/src/primitives.ts:205-207 | every reported coefficient lies in [-1, 1] and rests on at least 3 pairs |
| Correlations.LeftOutExactly | packages/analysis/src/primitives.ts:197-206 | a candidate is left out exactly if it has fewer than 3 pairs or either aligned side is constant |
| Correlations.LinearIsPerfect | packages/analysis/src/primitives.ts:184-206 | a rising linear image of the target that is ranked at all has coefficient 1, a falling one -1 |
| Correlations.RankIsLabelled | packages/analysis/src/primitives.ts:191-207 | a rank carries its candidate's key and the number of places where both series have a value |
| Correlations.RankingHoldsExactly | packages/analysis/src/primitives.ts:188-209 | the ranking is a permutation of the remaining candidates' ranks, each as often as candidates have it |
| Correlations.RankingIsOrdered | packages/analysis/src/primitives.ts:209-209 | by decreasing absolute coefficient, equal ones in candidate order |
| RateLimiter.EventValidator.CheckRateLimit | new-repo-handoff/quarry/event-validator.ts:200-238 | the answer and the stored entry after one check |
| RateLimiter.SessionsCountApart | new-repo-handoff/quarry/event-validator.ts:201-203 | where user ids hold no colon, two events share a count exactly if user and session agree, a missing one being "anonymous" or "unknown" |
| RateLimiter.EventValidator.CleanupRateLimitStore | new-repo-handoff/quarry/event-validator.ts:418-431 | exactly the entries older than a minute are deleted |
| RateLimiter.SecondKeepsLimitExactly | new-repo-handoff/quarry/event-validator.ts:212-233 | in any reachable state, a second that a check opens takes at most 100 accepted events of its key under every continuation of the clock within it if and only if the second ends no later than the minute of its entry |
| RateLimiter.AtMost299InAnySpan | new-repo-handoff/quarry/event-validator.ts:200-238 | in any 1000 ms of a monotone clock one key gets at most 299 accepted events, through every interleaving of resets and cleanups |
| RateLimiter.BoundIsAttained | new-repo-handoff/quarry/event-validator.ts:230-233 | a monotone run that attains 299 |
| RateLimiter.AtMost200WithoutMinute | new-repo-handoff/quarry/event-validator.ts:200-238 | at most 200 where no minute begins in the span or in the second before it |
| RateLimiter.CalmBoundIsAttained | new-repo-handoff/quarry/event-validator.ts:212-226 | a monotone run without a minute reset that attains 200 |
| RateLimiter.RejectionIsEarned | new-repo-handoff/quarry/event-validator.ts:212-220 | a rejected event did find at least 100 accepted in the last 1000 ms |
| Sorting.SortedKeepsAll | packages/analysis/src/primitives.ts:209-209 | the sort is a permutation |
| Sorting.SortedIsOrdered | packages/instrumentation-agent/src/implementer.ts:176-176 | the sort orders by key |
| Sorting.SortedIsStable | packages/instrumentation-agent/src/implementer.ts:176-176 | elements that compare equal keep their order |

## Left out

- Storage.DailyRollupExactly: the three counters, not the success rate and cost computed from them.
- Funnel.CreateUserJourney: without the user, source and segment fields and the drop-off reason, which nothing modelled reads.
- FunnelRates.CalculateStepResults: without average times, drop-off reasons and segment breakdowns.
- FunnelRates.CalculateOverallMetrics: without the average time to complete.
- HTTP, Kafka, ClickHouse and Postgres clients, timers, files: steps that may fail, be ambiguous or crash.
- `commitOffsetsIfNecessary` internals: a commit that may or may not take effect after the write.
- SQL text, hashing and JSON serialisation: tables are bags or maps, and tokens and fingerprints are injective functions of content.
- Floating point: numbers are reals, and `ln` and `sqrt` are parameters known only by the laws stated in `Sequential` and `Reals`.
- The size of the insert deduplication windows: a background step may forget any token of either at any time.
- More than one partition: offsets are per partition in the source, and `Consumer.System` is one partition with one consumer.
- A plan's `generated_at`, which the schema asks to be a date and time.
- The wording of the seeded taxonomy's descriptions: cut short, non-empty as the schema asks.
- An `onWarn` that throws: inside `deliver` it would reject the flush chain for good and lose the batch in flight; the model takes it to return.
- A crash of the collector process: the sink's buffer is in memory.
- TTL expiry, `executed_queries`, `chMigrate`, and rollup agreement after `deleteEndUserEvents`, which does not touch the rollup.
- The rollup's `cost_usd` sum: only the counters are modelled.
- Intake schema validation, redaction and rejection counters of the collector's routes.
- Tokens, row-level security, encryption and isolation between tenants: one tenant's registry is modelled.
- The registry's two reads at packages/registry-service/src/app.ts:119-123: a fingerprint is taken to belong to the entries it came with.
- Probabilistic coverage of the confidence sequence, `probit` and `classicalSampleSize`.
- `startExperiment`, the wording of findings, and failing registry calls inside a monitoring pass.
- The meaning of funnel conditions (string and number coercions): a condition is any test of an event.
- `collectFunnelEvents`, which returns no events whatever its query finds: a user's events are any non-empty list.
- A guardrail named like an inherited object property whose query id is missing: the source then cites what it inherits.
- The in-place reordering of `events` and `funnel.steps` by `sort`: the journey is computed from sorted copies.
- Grouping events by user, and funnel orders or timestamps that are not whole numbers.
- What the collector did with a post whose answer was lost: SdkClient counts as delivered only what was acknowledged.
- The +1 anchor offset at packages/instrumentation-agent/src/implementer.ts:219: only `applyFileEdits` is modelled.
- `detect`, `median`, `quantile` and `rankSegmentContributions`: easy next to the changepoint and the correlations.
- Keys of the rate limiter that collide where a user id holds a colon (`RateLimiter.ColonsCollide`): the bound is per stored key.
- The calendar: the month of a row is any function of its timestamp.
- User interfaces, the CLI wrapper, the MCP server, model and judge seams, and the other engines under new-repo-handoff.
