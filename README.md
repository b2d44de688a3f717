# Warp protocol analytics indexer and job-builder app logic, in Dafny

This project models two parts of the Warp protocol repository and proves
properties of both.

**The analytics indexer** (`indexers/warp-protocol/src/indexers/analytics/Indexer.ts`):
- On each pass, it reads controller events between the last stored block height and the current one.
- It turns them into hourly metric points:
  - `create_job` counts combined with `recur_job` replies;
  - counts of `execute_job`, `update_job` and `prioritize_job`;
  - the summed `job_reward` of `execute_job`.
- It writes the points into an analytics table keyed by the hourly metric name and the hour.
- It rolls them up into daily and monthly series by range queries.
- It finally records the new height.

The model:
- The table is a map from (partition key, sort key) to an integer value. Writes are sequential upserts.
- A range query is the ascending list of the partition's entries between two sort keys.
- The UTC calendar buckets timestamps into days and months. Month starts are month lengths added up from January 1970, and they are proved equal to the civil-calendar formula.
- Each pipeline is a function from a store to a store.
- The `Indexer` class holds the store and the checkpoint height. Its methods (`Save`, `Cascade`, `CascadeDaily`, `CascadeMonthly`, `HandleCreateJobEvents`, `UpdateEventCounts`, `UpdateRewardAmount`, `Index`) are proved to leave exactly the state those functions describe.
- The event store is a parameter, `EventSource`: for an action and a height window it gives the hour buckets of events, or nothing when the read fails.

What is proved:
- A pipeline writes only its own hourly, daily and monthly series.
- Each daily or monthly point equals the exact total of the finer series inside its bucket.
- Re-running a pipeline, or a whole pass, on the store it wrote changes nothing.
- After a pass that failed part-way, a later pass whose event source extends the first one's ends as if the failed pass had never run.
- The duplicated `execute_job` entry in the list of counted actions is harmless.

**The job-builder app** (`apps/warp-protocol/src`):
- `utils/variable.ts`: the accessors that read a variable's name, value and kind from whichever of its `static`, `external` or `query` bodies is present, and resolution of dotted references such as `$warp.variable.price`.
- `pages/variables/useVariableStorage.ts`: the per-wallet variable lists kept in local storage. `VariableStore` holds the storage map and the wallet. The list edits are pure functions proved to keep names unique and to do what their callers expect.
- `useDetailsForm.ts` and `useTemplateNewForm.ts`: the validation of the new-job and new-template forms, each a function from the previous state and a partial input to the dispatched state. For each form it is proved exactly when submit is enabled. Name and description limits count UTF-16 code units, as JavaScript's `length` does: a character outside the Basic Multilingual Plane counts twice.
  - In the template form, the submit flag reads the message error carried over from the previous state. A lemma exhibits the resulting one-step lag, and another proves that a second validation with the same input settles it.

JSON parsing, `microfy` and the template-variable listing are parameters of
the form models.

## Model

| member | source | states |
|---|---|---|
| `Text.JoinSplit` | apps/warp-protocol/src/utils/variable.ts:45-48 | joining the pieces of a split with the separator gives the string back |
| `Text.SplitJoin` | indexers/warp-protocol/src/indexers/analytics/Indexer.ts:17-19 | splitting a join of separator-free pieces gives the pieces back |
| `Text.SplitPrefix` | apps/warp-protocol/src/utils/variable.ts:46 | a separator-free prefix only widens the first piece of a split |
| `Text.JoinLast` | apps/warp-protocol/src/utils/variable.ts:47 | the last piece of a join comes after the last separator |
| `Text.Split` | apps/warp-protocol/src/utils/variable.ts:46 | split yields at least one piece, no piece contains the separator, and a separator-free string splits into itself |
| `Text.Join` | indexers/warp-protocol/src/indexers/analytics/Indexer.ts:18 | `parts.join(sep)`; contract: `Text.SplitJoin` (a join of separator-free pieces splits back into them), `Text.JoinSplit`, `Text.JoinLast` |
| `Pipelines.MakePK` | indexers/warp-protocol/src/indexers/analytics/Indexer.ts:17-19 | `makePK`: `warp:` followed by the parts joined with `:`; contract: `Pipelines.MakePKPair`, `Pipelines.MakePKInjective` |
| `Pipelines.MetricKey` | indexers/warp-protocol/src/indexers/analytics/Indexer.ts:136-197 | the metric name each pipeline saves under (`create_job_count`, `${event}_count`, `reward_amount`); contract: `Pipelines.PassMetricKeysNamed`, `Pipelines.CountKeysSpelled` |
| `Pipelines.CountKeysSpelled` | indexers/warp-protocol/src/indexers/analytics/Indexer.ts:165 | `${event}_count` spells `execute_job_count`, `update_job_count` and `prioritize_job_count` |
| `Pipelines.MakePKPair` | indexers/warp-protocol/src/indexers/analytics/Indexer.ts:17-19 | the key of a metric and a resolution is `warp:` + metric + `:` + resolution, of the matching length |
| `Pipelines.MakePKInjective` | indexers/warp-protocol/src/indexers/analytics/Indexer.ts:17-19 | for colon-free parts, two keys are equal exactly when both parts are |
| `Pipelines.SeriesKeysDistinct` | indexers/warp-protocol/src/indexers/analytics/Indexer.ts:137-146 | the hourly, daily and monthly keys of a metric are pairwise different |
| `Pipelines.FamiliesDisjoint` | indexers/warp-protocol/src/indexers/analytics/Indexer.ts:165-178 | two different colon-free metric names share no series key |
| `AnalyticsStore.Put` | indexers/warp-protocol/src/indexers/analytics/Indexer.ts:50 | after a write, each key holds the value of the last entity written under it, and every other key keeps its value |
| `AnalyticsStore.LastWrite` | indexers/warp-protocol/src/indexers/analytics/Indexer.ts:50 | a key has a last written value exactly when some written entity has that key |
| `AnalyticsStore.LastWriteAt` | indexers/warp-protocol/src/indexers/analytics/Indexer.ts:50 | an entity that no later entity overwrites determines its key's value |
| `AnalyticsStore.PutHolds` | indexers/warp-protocol/src/indexers/analytics/Indexer.ts:50 | after a write the store holds what was written |
| `AnalyticsStore.PutNoOp` | indexers/warp-protocol/src/indexers/analytics/Indexer.ts:50 | writing what the store already holds changes nothing |
| `AnalyticsStore.PutIdempotent` | indexers/warp-protocol/src/indexers/analytics/Indexer.ts:50 | writing the same entities twice equals writing them once |
| `AnalyticsStore.PutOutside` | indexers/warp-protocol/src/indexers/analytics/Indexer.ts:38-51 | a write into one partition leaves every other partition unchanged |
| `AnalyticsStore.HoldsTransfer` | indexers/warp-protocol/src/indexers/analytics/Indexer.ts:50 | whether a store holds a write into one partition depends only on that partition |
| `AnalyticsStore.PutNoOpFrom` | indexers/warp-protocol/src/indexers/analytics/Indexer.ts:50 | a write changes nothing in a store that already agrees, on the written partition, with the result of that write |
| `AnalyticsStore.QueryRange` | indexers/warp-protocol/src/indexers/analytics/Indexer.ts:59-71 | the query returns exactly the partition's entries with sort key in the inclusive range, in strictly ascending order |
| `AnalyticsStore.QueryRangeAgree` | indexers/warp-protocol/src/indexers/analytics/Indexer.ts:59-71 | a range query depends only on its own partition |
| `AnalyticsStore.QueryRangeSplit` | indexers/warp-protocol/src/indexers/analytics/Indexer.ts:66-68 | a query over [from, to] is the query over [from, mid] followed by the query over [mid + 1, to] |
| `AnalyticsStore.SumValuesAppend` | indexers/warp-protocol/src/indexers/analytics/Indexer.ts:76 | the reduce over a concatenation is the sum of the reduces |
| `AnalyticsStore.RangeTotalSplit` | indexers/warp-protocol/src/indexers/analytics/Indexer.ts:66-76 | totals over adjacent ranges add up |
| `AnalyticsStore.RangeTotalEmpty` | indexers/warp-protocol/src/indexers/analytics/Indexer.ts:76 | a range without entries queries to nothing and totals 0 |
| `AnalyticsStore.RangeTotalPoint` | indexers/warp-protocol/src/indexers/analytics/Indexer.ts:66-76 | a one-second range totals the entry stored there, or 0 |
| `AnalyticsStore.RangeTotalSingle` | indexers/warp-protocol/src/indexers/analytics/Indexer.ts:66-76 | a range around the single entry of a partition totals that entry |
| `AnalyticsStore.SumValues` | indexers/warp-protocol/src/indexers/analytics/Indexer.ts:76 | the reduce of the queried values from 0; contract: `AnalyticsStore.SumValuesAppend`, `AnalyticsStore.RangeTotalPoint` |
| `AnalyticsStore.RangeTotal` | indexers/warp-protocol/src/indexers/analytics/Indexer.ts:59-76 | the total of a BETWEEN query on one partition; contract: `AnalyticsStore.RangeTotalSplit`, `AnalyticsStore.RangeTotalEmpty`, `AnalyticsStore.RangeTotalPoint`, `AnalyticsStore.RangeTotalSingle` |
| `Calendar.DaysInMonth` | indexers/warp-protocol/src/indexers/analytics/Indexer.ts:103 | a month has 28 to 31 days, and 29 exactly for February of a leap year |
| `Calendar.YearStep` | indexers/warp-protocol/src/indexers/analytics/Indexer.ts:103 | consecutive years start a year's length apart |
| `Calendar.MonthStep` | indexers/warp-protocol/src/indexers/analytics/Indexer.ts:103 | consecutive months start a month's length apart (`addMonths` by one) |
| `Calendar.MonthSpan` | indexers/warp-protocol/src/indexers/analytics/Indexer.ts:103 | n months span between 28n and 31n days |
| `Calendar.MonthStartDay` | indexers/warp-protocol/src/indexers/analytics/Indexer.ts:98-103 | the first day of month k, reached by adding one month at a time from January 1970; contract: `Calendar.MonthStep`, `Calendar.MonthSpan`, `Calendar.MonthStartIsCivil` |
| `Calendar.CivilMonthStartDay` | indexers/warp-protocol/src/indexers/analytics/Indexer.ts:98-103 | the independent civil-calendar formula for the first day of month k; contract: `Calendar.CivilStep`, `Calendar.CalendarAnchors`, `Calendar.MonthStartIsCivil` |
| `Calendar.MonthLength` | indexers/warp-protocol/src/indexers/analytics/Indexer.ts:103 | every month, before or after 1970, has 28 to 31 days |
| `Calendar.DaysBeforeMonthStep` | indexers/warp-protocol/src/indexers/analytics/Indexer.ts:98-103 | in the civil table of days before each month, consecutive months differ by one month length |
| `Calendar.DecemberEndsYear` | indexers/warp-protocol/src/indexers/analytics/Indexer.ts:98-103 | the days before December plus December's length make up the year |
| `Calendar.CivilStep` | indexers/warp-protocol/src/indexers/analytics/Indexer.ts:98-103 | the civil month-start formula also steps by one month length, across year ends as well |
| `Calendar.MonthStartIsCivil` | indexers/warp-protocol/src/indexers/analytics/Indexer.ts:98-103 | month starts built by adding month lengths from January 1970 equal the civil-calendar formula (year start plus days before the month) for every month index |
| `Calendar.MonthOfCivil` | indexers/warp-protocol/src/indexers/analytics/Indexer.ts:98 | a second between two consecutive civil month starts truncates to the first of them |
| `Calendar.MonthIndexOfDay` | indexers/warp-protocol/src/indexers/analytics/Indexer.ts:98 | every day lies in the month it is assigned to |
| `Calendar.MonthIndexUnique` | indexers/warp-protocol/src/indexers/analytics/Indexer.ts:98 | a day lies in one month only |
| `Calendar.DayStart` | indexers/warp-protocol/src/indexers/analytics/Indexer.ts:84 | `truncate('day')`; contract: `Calendar.DayContains`, `Calendar.DayUnique` |
| `Calendar.NextDayStart` | indexers/warp-protocol/src/indexers/analytics/Indexer.ts:89 | `addDays(from, 1)`; contract: `Calendar.NextBucketIsStart`, `Calendar.BucketBoundary` |
| `Calendar.MonthStart` | indexers/warp-protocol/src/indexers/analytics/Indexer.ts:98 | `truncate('month')`; contract: `Calendar.MonthContains`, `Calendar.MonthUnique`, `Calendar.MonthOfCivil` |
| `Calendar.NextMonthStart` | indexers/warp-protocol/src/indexers/analytics/Indexer.ts:103 | `addMonths(from, 1)`; contract: `Calendar.NextMonthIsStart`, `Calendar.FirstMonth` |
| `Calendar.BucketStart` | indexers/warp-protocol/src/indexers/analytics/Indexer.ts:84-98 | the group key of a day or month cascade; contract: `Calendar.BucketContains`, `Calendar.BucketUnique` |
| `Calendar.BucketEnd` | indexers/warp-protocol/src/indexers/analytics/Indexer.ts:89-103 | the `to` of a range, one second before the next bucket; contract: `Calendar.BucketBoundary`, `Calendar.BucketsDisjoint` |
| `Calendar.DayContains` | indexers/warp-protocol/src/indexers/analytics/Indexer.ts:84-89 | a timestamp lies in its day, and truncating to the day is idempotent |
| `Calendar.DayUnique` | indexers/warp-protocol/src/indexers/analytics/Indexer.ts:84-89 | every timestamp of a day truncates to the start of that day |
| `Calendar.MonthContains` | indexers/warp-protocol/src/indexers/analytics/Indexer.ts:98-103 | a timestamp lies in its month, and truncating to the month is idempotent |
| `Calendar.MonthUnique` | indexers/warp-protocol/src/indexers/analytics/Indexer.ts:98-103 | every timestamp of a month truncates to the start of that month |
| `Calendar.NextMonthIsStart` | indexers/warp-protocol/src/indexers/analytics/Indexer.ts:103 | one month after a month start is a later month start |
| `Calendar.BucketContains` | indexers/warp-protocol/src/indexers/analytics/Indexer.ts:84-103 | a timestamp lies between its bucket start and that bucket's last second |
| `Calendar.BucketUnique` | indexers/warp-protocol/src/indexers/analytics/Indexer.ts:84-103 | every timestamp of a bucket truncates to that bucket's start |
| `Calendar.NextBucketIsStart` | indexers/warp-protocol/src/indexers/analytics/Indexer.ts:89-103 | a bucket is non-empty, and the next bucket begins at a bucket start |
| `Calendar.BucketBoundary` | indexers/warp-protocol/src/indexers/analytics/Indexer.ts:89-103 | the last second of a bucket is inside it, and the second after it starts the next bucket |
| `Calendar.BucketsDisjoint` | indexers/warp-protocol/src/indexers/analytics/Indexer.ts:84-103 | an earlier bucket ends before a later one starts |
| `Calendar.CalendarAnchors` | indexers/warp-protocol/src/indexers/analytics/Indexer.ts:98-103 | the civil formula puts 2000-01-01, 2024-02-01, 2024-03-01 and 2024-04-01 on days 10957, 19754, 19783 and 19814 after 1970-01-01 |
| `Calendar.FirstMonth` | indexers/warp-protocol/src/indexers/analytics/Indexer.ts:98-103 | the first 31 days of 1970 form one month bucket |
| `Calendar.DayBoundaryExample` | indexers/warp-protocol/src/indexers/analytics/Indexer.ts:84-89 | 86399 is in the first day, 86400 starts the second |
| `Calendar.MonthBoundaryExample` | indexers/warp-protocol/src/indexers/analytics/Indexer.ts:98-103 | the last second of February 2024 belongs to February; the next second starts March |
| `Rollup.Distinct` | indexers/warp-protocol/src/indexers/analytics/Indexer.ts:84 | the group keys are the truncated timestamps, each once, at most one per timestamp |
| `Rollup.Truncated` | indexers/warp-protocol/src/indexers/analytics/Indexer.ts:84 | each timestamp is replaced by its bucket start |
| `Rollup.Ranges` | indexers/warp-protocol/src/indexers/analytics/Indexer.ts:83-109 | one `[from, to]` per group of timestamps by bucket start; contract: `Rollup.RangesShape`, `Rollup.RangesDisjoint`, `Rollup.RangesCover` |
| `Rollup.DailyRanges` | indexers/warp-protocol/src/indexers/analytics/Indexer.ts:83-92 | the ranges of `cascadeDaily`; contract: `Rollup.RangesShape`, `Rollup.RangesCover` for days, `Pipelines.FirstDayRanges` |
| `Rollup.MonthlyRanges` | indexers/warp-protocol/src/indexers/analytics/Indexer.ts:97-106 | the ranges of `cascadeMonthly`; contract: `Rollup.RangesShape`, `Rollup.RangesCover` for months, `Pipelines.FirstDayRanges` |
| `Rollup.RangesShape` | indexers/warp-protocol/src/indexers/analytics/Indexer.ts:83-109 | each range is a whole bucket of some source timestamp, at most one range per timestamp, no two with the same start |
| `Rollup.RangesDisjoint` | indexers/warp-protocol/src/indexers/analytics/Indexer.ts:83-109 | ranges of different groups do not overlap |
| `Rollup.RangesCover` | indexers/warp-protocol/src/indexers/analytics/Indexer.ts:83-109 | every source timestamp lies in exactly one range, the one of its own bucket |
| `Rollup.CascadeOutput` | indexers/warp-protocol/src/indexers/analytics/Indexer.ts:53-81 | one entity per range, in range order, at the range start, valued the exact total of the source partition over the range |
| `Rollup.Cascade` | indexers/warp-protocol/src/indexers/analytics/Indexer.ts:53-81 | the table after `cascade`: all range totals read first, then saved; contract: `Rollup.CascadeConsistent`, `Rollup.CascadeWrites`, `Rollup.CascadeFrame`, `Rollup.CascadeNoOp` |
| `Rollup.CascadeEmptyBucket` | indexers/warp-protocol/src/indexers/analytics/Indexer.ts:73-77 | a range without source entries still yields an entity of value 0 |
| `Rollup.CascadeConsistent` | indexers/warp-protocol/src/indexers/analytics/Indexer.ts:53-81 | after a cascade each coarse entity equals the total of its range in the resulting store, and other partitions are unchanged |
| `Rollup.CascadeWrites` | indexers/warp-protocol/src/indexers/analytics/Indexer.ts:73-80 | a cascade writes only the target partition, and the store holds what it wrote |
| `Rollup.CascadeOutputAgree` | indexers/warp-protocol/src/indexers/analytics/Indexer.ts:59-77 | what a cascade writes depends only on the source partition |
| `Rollup.CascadeFrame` | indexers/warp-protocol/src/indexers/analytics/Indexer.ts:53-81 | a cascade leaves every partition but the target unchanged |
| `Rollup.CascadeNoOp` | indexers/warp-protocol/src/indexers/analytics/Indexer.ts:53-81 | a cascade changes nothing in a store that already agrees with its result |
| `Rollup.CascadeUntouched` | indexers/warp-protocol/src/indexers/analytics/Indexer.ts:73-75 | a cascade writes the target partition only at range starts |
| `Pipelines.Timestamps` | indexers/warp-protocol/src/indexers/analytics/Indexer.ts:141 | the timestamps of the aggregates, in order |
| `Pipelines.ToEntities` | indexers/warp-protocol/src/indexers/analytics/Indexer.ts:39-44 | each aggregate becomes an entity of the given partition with its own timestamp and value |
| `Pipelines.EventAggregator` | indexers/warp-protocol/src/indexers/analytics/Indexer.ts:121-127 | a failed read is an error naming the action; otherwise one aggregate per hour bucket, with the bucket's timestamp and the reducer applied to its events |
| `Pipelines.EventCounter` | indexers/warp-protocol/src/indexers/analytics/Indexer.ts:113-118 | `eventCounter`: the number of events per hour; contract: that of `Pipelines.EventAggregator` with the count as reducer |
| `Pipelines.RecurJobCount` | indexers/warp-protocol/src/indexers/analytics/Indexer.ts:126 | the count is between 0 and the number of events, 0 exactly when none is a `recur_job` reply, and all exactly when all are |
| `Pipelines.RecurJobCountAppend` | indexers/warp-protocol/src/indexers/analytics/Indexer.ts:126 | the count of a concatenation is the sum of the counts |
| `Pipelines.Rewarded` | indexers/warp-protocol/src/indexers/analytics/Indexer.ts:192 | the events that carry a reward, and only those |
| `Pipelines.RewardTotalAppend` | indexers/warp-protocol/src/indexers/analytics/Indexer.ts:189-194 | the reward total of a concatenation is the sum of the totals |
| `Pipelines.RewardTotalOfRewarded` | indexers/warp-protocol/src/indexers/analytics/Indexer.ts:192 | events without a reward add nothing (they count as `'0'`) |
| `Pipelines.RewardTotalBounds` | indexers/warp-protocol/src/indexers/analytics/Indexer.ts:189-194 | with non-negative rewards the total is at least every single reward |
| `Pipelines.RewardTotalNonNegative` | indexers/warp-protocol/src/indexers/analytics/Indexer.ts:189-194 | with non-negative rewards the total is non-negative |
| `Pipelines.RewardTotal` | indexers/warp-protocol/src/indexers/analytics/Indexer.ts:189-194 | the sum of `job_reward ?? '0'` over an hour's events; contract: `Pipelines.RewardTotalAppend`, `Pipelines.RewardTotalOfRewarded`, `Pipelines.RewardTotalBounds` |
| `Pipelines.CombineCreateJob` | indexers/warp-protocol/src/indexers/analytics/Indexer.ts:130-133 | one combined aggregate per create-job aggregate, at the same timestamp |
| `Pipelines.CombineTail` | indexers/warp-protocol/src/indexers/analytics/Indexer.ts:130-133 | the merge is by position: dropping the first create-job aggregate drops the first reply too |
| `Pipelines.CombineAlignedByHour` | indexers/warp-protocol/src/indexers/analytics/Indexer.ts:130-133 | when both lists have the same timestamps position by position, the merge adds the values hour by hour |
| `Pipelines.CombineTotal` | indexers/warp-protocol/src/indexers/analytics/Indexer.ts:130-133 | the merged total is the create-job total plus the replies at positions that have a create-job aggregate; replies beyond are lost |
| `Pipelines.CombineMisaligned` | indexers/warp-protocol/src/indexers/analytics/Indexer.ts:130-133 | two create-job events at 3600 and one reply at 7200 merge into 3 at 3600 and nothing at 7200, unlike an hour-keyed join |
| `Pipelines.Fetch` | indexers/warp-protocol/src/indexers/analytics/Indexer.ts:111-195 | the reads of one pipeline: create-job counts merged with recur-job replies, an action count, or the reward sums; contract: `Pipelines.FetchExtends`, `Pipelines.RunAllHead`, `Pipelines.ScenarioFetch` |
| `Pipelines.RunPipeline` | indexers/warp-protocol/src/indexers/analytics/Indexer.ts:136-147 | save the hourly series, cascade it to days, then the days to months; contract: `Pipelines.PipelineFrame`, `Pipelines.PipelineHourly`, `Pipelines.PipelineConsistent`, `Pipelines.PipelineNoOp`, `Pipelines.PipelineIdempotent` |
| `Pipelines.PipelineFrame` | indexers/warp-protocol/src/indexers/analytics/Indexer.ts:136-147 | a pipeline changes no partition outside its metric's three series |
| `Pipelines.PipelineHourly` | indexers/warp-protocol/src/indexers/analytics/Indexer.ts:136-147 | after a pipeline the hourly series is exactly what saving the aggregates left; the cascades do not touch it |
| `Pipelines.PipelineConsistent` | indexers/warp-protocol/src/indexers/analytics/Indexer.ts:136-147 | with distinct hours, the hourly series holds each aggregate, each daily point is the total of its day's hours, and each monthly point the total of its month's days |
| `Pipelines.HourlyHolds` | indexers/warp-protocol/src/indexers/analytics/Indexer.ts:137 | after saving aggregates with distinct hours, each hour holds its aggregate's value |
| `Pipelines.DailyTotals` | indexers/warp-protocol/src/indexers/analytics/Indexer.ts:138-142 | each daily point is the total of its day in the hourly series |
| `Pipelines.PipelineNoOp` | indexers/warp-protocol/src/indexers/analytics/Indexer.ts:136-147 | a pipeline changes nothing in a store whose three series already agree with its result |
| `Pipelines.PipelineIdempotent` | indexers/warp-protocol/src/indexers/analytics/Indexer.ts:136-147 | re-running a pipeline with the same aggregates leaves the store as one run |
| `Pipelines.CountPipelines` | indexers/warp-protocol/src/indexers/analytics/Indexer.ts:162-165 | one count pipeline per listed action, in order |
| `Pipelines.RunAll` | indexers/warp-protocol/src/indexers/analytics/Indexer.ts:150-181 | the pipelines in order, stopping at the first failed read; contract: `Pipelines.RunAllHead`, `Pipelines.RunAllFrame`, `Pipelines.Replay`, `Pipelines.RunAllIdempotent`, `Pipelines.RunAllAppend` |
| `Pipelines.PassPipelines` | indexers/warp-protocol/src/indexers/analytics/Indexer.ts:150-228 | create-job, the four listed counts, then the reward amount; contract: `Pipelines.RepeatedCountHarmless`, `Pipelines.IndexPass` |
| `Pipelines.FetchExtends` | indexers/warp-protocol/src/indexers/analytics/Indexer.ts:113-127 | a read that succeeded gives the same aggregates from an extending source |
| `Pipelines.RunAllFrame` | indexers/warp-protocol/src/indexers/analytics/Indexer.ts:150-181 | a sequence of pipelines changes no partition outside the families of its metrics |
| `Pipelines.Replay` | indexers/warp-protocol/src/indexers/analytics/Indexer.ts:150-219 | re-running distinct pipelines after a first run, with a source that extends the first run's, ends as one run with the new source |
| `Pipelines.RunAllIdempotent` | indexers/warp-protocol/src/indexers/analytics/Indexer.ts:150-219 | re-running distinct pipelines on the store they wrote changes nothing |
| `Pipelines.RunAllHead` | indexers/warp-protocol/src/indexers/analytics/Indexer.ts:159-180 | a failed read of the first pipeline stops the run with the store unchanged; a successful one runs the pipeline and goes on |
| `Pipelines.RunAllAppend` | indexers/warp-protocol/src/indexers/analytics/Indexer.ts:226-228 | running two sequences is running the first, then the second only if the first completed |
| `Pipelines.RepeatIsNoOp` | indexers/warp-protocol/src/indexers/analytics/Indexer.ts:162-180 | repeating a pipeline after one of another metric changes neither the store nor the outcome |
| `Pipelines.PassMetricKeysNamed` | indexers/warp-protocol/src/indexers/analytics/Indexer.ts:136-197 | the metric names of the pass are `create_job_count`, the three action counts and `reward_amount` |
| `Pipelines.PassMetricKeysSeparate` | indexers/warp-protocol/src/indexers/analytics/Indexer.ts:136-197 | those names are colon-free and pairwise different |
| `Pipelines.DistinctPassWellKeyed` | indexers/warp-protocol/src/indexers/analytics/Indexer.ts:150-219 | the pass without its repeated action writes disjoint families |
| `Pipelines.RepeatedCountHarmless` | indexers/warp-protocol/src/indexers/analytics/Indexer.ts:151-156 | the second `execute_job` in the action list changes nothing: the pass equals the pass without it |
| `Pipelines.IndexPass` | indexers/warp-protocol/src/indexers/analytics/Indexer.ts:221-231 | a completed pass records the current height; an aborted one keeps the previous checkpoint |
| `Pipelines.IndexRecovery` | indexers/warp-protocol/src/indexers/analytics/Indexer.ts:221-231 | after an aborted pass, a pass with an extending source equals one pass on the original state |
| `Pipelines.IndexRerun` | indexers/warp-protocol/src/indexers/analytics/Indexer.ts:221-231 | re-running a pass from the same checkpoint on the store it wrote gives the same result |
| `Pipelines.ScenarioFetch` | indexers/warp-protocol/src/indexers/analytics/Indexer.ts:111-133 | two `create_job` events at 3600 and one `recur_job` reply at 7200 give one combined aggregate, 3 at 3600 |
| `Pipelines.OneRange` | indexers/warp-protocol/src/indexers/analytics/Indexer.ts:83-109 | a single timestamp yields the one range of its bucket |
| `Pipelines.FirstDayRanges` | indexers/warp-protocol/src/indexers/analytics/Indexer.ts:83-109 | a timestamp on 1970-01-01 yields the ranges [0, 86399] and [0, 2678399] |
| `Pipelines.SinglePointPipeline` | indexers/warp-protocol/src/indexers/analytics/Indexer.ts:136-147 | one aggregate on the first day, saved into an empty table, appears unchanged in the hourly, daily and monthly series |
| `Pipelines.SingleTotals` | indexers/warp-protocol/src/indexers/analytics/Indexer.ts:138-147 | with one hourly entry, the daily and monthly points carry its value |
| `Pipelines.SingleHourly` | indexers/warp-protocol/src/indexers/analytics/Indexer.ts:137 | one saved aggregate is the only hourly entry |
| `Pipelines.SingleDaily` | indexers/warp-protocol/src/indexers/analytics/Indexer.ts:138-142 | one aggregate on the first day yields a daily point at 0 only |
| `Pipelines.CreateJobScenario` | indexers/warp-protocol/src/indexers/analytics/Indexer.ts:111-148 | the create-job scenario completes with 3 at hour 3600, nothing at 7200, and 3 in the first daily and monthly points |
| `AnalyticsIndexer.Indexer.constructor` | indexers/warp-protocol/src/indexers/analytics/Indexer.ts:24-36 | a new indexer has an empty table and no checkpoint |
| `AnalyticsIndexer.Indexer.Save` | indexers/warp-protocol/src/indexers/analytics/Indexer.ts:38-51 | the table becomes the old table with the aggregates written as entities of the partition |
| `AnalyticsIndexer.Indexer.Cascade` | indexers/warp-protocol/src/indexers/analytics/Indexer.ts:53-81 | the loop builds the cascade output range by range, then writes it once: the table becomes the rollup of the old table |
| `AnalyticsIndexer.Indexer.CascadeDaily` | indexers/warp-protocol/src/indexers/analytics/Indexer.ts:83-95 | the cascade over the daily ranges of the timestamps |
| `AnalyticsIndexer.Indexer.CascadeMonthly` | indexers/warp-protocol/src/indexers/analytics/Indexer.ts:97-109 | the cascade over the monthly ranges of the timestamps |
| `AnalyticsIndexer.Indexer.HandleCreateJobEvents` | indexers/warp-protocol/src/indexers/analytics/Indexer.ts:111-148 | the outcome and new table are those of the create-job pipeline |
| `AnalyticsIndexer.Indexer.UpdateEventCounts` | indexers/warp-protocol/src/indexers/analytics/Indexer.ts:150-181 | the outcome and new table are those of the create-job pipeline followed by the four listed count pipelines, stopping at the first failure |
| `AnalyticsIndexer.Indexer.UpdateRewardAmount` | indexers/warp-protocol/src/indexers/analytics/Indexer.ts:183-219 | the outcome and new table are those of the reward pipeline |
| `AnalyticsIndexer.Indexer.Index` | indexers/warp-protocol/src/indexers/analytics/Indexer.ts:221-231 | the new table, checkpoint and outcome are those of one pass started at the checkpoint, or at genesis without one |
| `Variables.VariableName` | apps/warp-protocol/src/utils/variable.ts:9-19 | the name of the static, else external, else query body; contract: `Variables.AccessorsOfVariant`, `Variables.AccessorsAgree` |
| `Variables.VariableValue` | apps/warp-protocol/src/utils/variable.ts:21-31 | the value, with the same precedence; contract: `Variables.AccessorsOfVariant`, `Variables.AccessorsAgree` |
| `Variables.VariableKind` | apps/warp-protocol/src/utils/variable.ts:33-43 | the kind, with the same precedence; contract: `Variables.AccessorsOfVariant`, `Variables.AccessorsAgree` |
| `Variables.AccessorsOfVariant` | apps/warp-protocol/src/utils/variable.ts:9-43 | a static, external or query variable reads back its own name, value and kind |
| `Variables.AccessorsAgree` | apps/warp-protocol/src/utils/variable.ts:9-43 | name, value and kind come from one body: `static` if present, else `external` if present, else `query` |
| `Variables.ExtractName` | apps/warp-protocol/src/utils/variable.ts:45-48 | the result never contains `.`, and a `.`-free string is returned unchanged |
| `Variables.ExtractNameIsLastSegment` | apps/warp-protocol/src/utils/variable.ts:45-48 | the result is a suffix of the string, preceded by `.` when shorter than it: the segment after the last `.` |
| `Variables.ExtractNameOfDotted` | apps/warp-protocol/src/utils/variable.ts:45-48 | `prefix.name` with a `.`-free name extracts the name |
| `Variables.FirstIndexNamed` | apps/warp-protocol/src/pages/variables/useVariableStorage.ts:58-63 | the position of the first variable with the name, or none when no variable has it |
| `Variables.ResolveVariableRef` | apps/warp-protocol/src/utils/variable.ts:3-7 | the first variable in list order named like the reference's last segment; nothing exactly when no variable has that name |
| `Variables.ResolveDotted` | apps/warp-protocol/src/utils/variable.ts:3-7 | `$warp.variable.x` resolves as `x` does |
| `VariableStorage.StorageKey` | apps/warp-protocol/src/pages/variables/useVariableStorage.ts:11 | `chainId--walletAddress`; contract: `VariableStorage.StorageKeyInjective` |
| `VariableStorage.Written` | apps/warp-protocol/src/pages/variables/useVariableStorage.ts:25-39 | `setVariables`: the wallet's entry replaced when connected, nothing otherwise; contract: `VariableStorage.WrittenView`, `VariableStorage.VariableStore.SetVariables` |
| `VariableStorage.ViewOf` | apps/warp-protocol/src/pages/variables/useVariableStorage.ts:41-47 | the `variables` memo: the wallet's entry or `[]`, and `[]` without a wallet; contract: `VariableStorage.WrittenView` |
| `VariableStorage.VariableStore.Variables` | apps/warp-protocol/src/pages/variables/useVariableStorage.ts:41-47 | the `variables` memo on the store's state; contract: the ensures of `VariableStorage.VariableStore.SetVariables` |
| `VariableStorage.SavedList` | apps/warp-protocol/src/pages/variables/useVariableStorage.ts:72-84 | the list `saveVariable` writes; contract: `VariableStorage.SavedListSpec`, `VariableStorage.SavedListIdempotent`, `VariableStorage.SavedListUnique` |
| `VariableStorage.UpdatedList` | apps/warp-protocol/src/pages/variables/useVariableStorage.ts:56-70 | the list `updateVariable` writes; contract: `VariableStorage.UpdatedListSpec`, `VariableStorage.UpdatedListSelf`, `VariableStorage.UpdatedListUnique` |
| `VariableStorage.StorageKeyInjective` | apps/warp-protocol/src/pages/variables/useVariableStorage.ts:11 | with `-`-free wallet addresses, two wallets share a key exactly when chain and address are equal |
| `VariableStorage.WrittenView` | apps/warp-protocol/src/pages/variables/useVariableStorage.ts:25-47 | a connected wallet then sees what was written; a wallet with another key sees what it saw before; without a wallet nothing changes |
| `VariableStorage.RemovedList` | apps/warp-protocol/src/pages/variables/useVariableStorage.ts:86-91 | the result holds exactly the variables of the list with another name, and is no longer |
| `VariableStorage.SavedListSpec` | apps/warp-protocol/src/pages/variables/useVariableStorage.ts:72-84 | afterwards the name is present, the old list is a prefix, and the variable is appended exactly when its name was new |
| `VariableStorage.SavedListIdempotent` | apps/warp-protocol/src/pages/variables/useVariableStorage.ts:72-84 | saving the same variable twice equals saving it once |
| `VariableStorage.SavedListUnique` | apps/warp-protocol/src/pages/variables/useVariableStorage.ts:72-84 | saving keeps names unique |
| `VariableStorage.UpdatedListSpec` | apps/warp-protocol/src/pages/variables/useVariableStorage.ts:56-70 | the length is kept; only the first entry named like the previous variable is replaced; nothing changes without such an entry |
| `VariableStorage.UpdatedListSelf` | apps/warp-protocol/src/pages/variables/useVariableStorage.ts:56-70 | updating a variable with itself changes nothing |
| `VariableStorage.UpdatedListUnique` | apps/warp-protocol/src/pages/variables/useVariableStorage.ts:56-70 | an update that keeps the name, or takes an unused one, keeps names unique |
| `VariableStorage.RemovedListAppend` | apps/warp-protocol/src/pages/variables/useVariableStorage.ts:88 | filtering a concatenation filters each part, so order is kept |
| `VariableStorage.RemovedListNone` | apps/warp-protocol/src/pages/variables/useVariableStorage.ts:88 | removing an absent name changes nothing |
| `VariableStorage.RemovedListSpec` | apps/warp-protocol/src/pages/variables/useVariableStorage.ts:86-91 | afterwards no variable has the name, and removing again changes nothing |
| `VariableStorage.RemovedListUnique` | apps/warp-protocol/src/pages/variables/useVariableStorage.ts:86-91 | removing keeps names unique |
| `VariableStorage.RemoveUndoesSave` | apps/warp-protocol/src/pages/variables/useVariableStorage.ts:72-91 | saving a variable and removing its name equals removing the name |
| `VariableStorage.VariableStore.constructor` | apps/warp-protocol/src/pages/variables/useVariableStorage.ts:16-23 | storage starts empty, for the given wallet |
| `VariableStorage.VariableStore.SetVariables` | apps/warp-protocol/src/pages/variables/useVariableStorage.ts:25-39 | without a wallet the storage is unchanged; otherwise only this wallet's entry is replaced, and the view is the new list |
| `VariableStorage.VariableStore.SaveAll` | apps/warp-protocol/src/pages/variables/useVariableStorage.ts:49-54 | the same change as setting the list |
| `VariableStorage.VariableStore.SaveVariable` | apps/warp-protocol/src/pages/variables/useVariableStorage.ts:72-84 | the wallet's entry becomes the saved list of its view, so a connected view then has the name |
| `VariableStorage.VariableStore.UpdateVariable` | apps/warp-protocol/src/pages/variables/useVariableStorage.ts:56-70 | the wallet's entry becomes the updated list of its view, of the same length |
| `VariableStorage.VariableStore.RemoveVariable` | apps/warp-protocol/src/pages/variables/useVariableStorage.ts:86-91 | the wallet's entry becomes the filtered view, so no variable of the view then has the name |
| `FormFields.TruthyIsNotEmpty` | apps/warp-protocol/src/pages/job-new/details-form/useDetailsForm.ts:119-132 | an optional string is truthy exactly when `isEmpty` is false for it |
| `FormFields.Utf16Length` | apps/warp-protocol/src/pages/job-new/details-form/useDetailsForm.ts:125-128 | JavaScript `length`: UTF-16 code units, from the number of characters up to twice it, and 0 exactly for `''` |
| `FormFields.Utf16LengthAppend` | apps/warp-protocol/src/pages/job-new/details-form/useDetailsForm.ts:125 | the code units of a concatenation add up |
| `FormFields.Utf16LengthBmp` | apps/warp-protocol/src/pages/job-new/details-form/useDetailsForm.ts:125-128 | `length` equals the number of characters exactly when no character lies outside the Basic Multilingual Plane |
| `FormFields.Utf16LengthRepeated` | apps/warp-protocol/src/pages/job-new/details-form/useDetailsForm.ts:125 | n copies of a character have n times its code units |
| `DetailsForm.InitialState` | apps/warp-protocol/src/pages/job-new/details-form/useDetailsForm.ts:67-86 | the `initialValue` memo; contract: `DetailsForm.InitialStateDefaults` |
| `DetailsForm.MicroAmount` | apps/warp-protocol/src/pages/job-new/details-form/useDetailsForm.ts:119 | `microfy(amount, decimals)` with a token and a truthy amount, else 0; contract: the amount clauses of `DetailsForm.FormErrors` |
| `DetailsForm.Form` | apps/warp-protocol/src/pages/job-new/details-form/useDetailsForm.ts:99-164 | the validation dispatch; contract: `DetailsForm.FormErrors`, `DetailsForm.SubmitEnabledIff`, `DetailsForm.FormKeepsFields`, `DetailsForm.FormIgnoresDerived`, `DetailsForm.FormIdempotent`, `DetailsForm.WideNameTooLong` |
| `DetailsForm.WideNameTooLong` | apps/warp-protocol/src/pages/job-new/details-form/useDetailsForm.ts:125-145 | a name of 71 characters such as U+1F600 is 142 code units long: the name error is set and submit is disabled |
| `DetailsForm.InitialStateDefaults` | apps/warp-protocol/src/pages/job-new/details-form/useDetailsForm.ts:67-86 | submit starts enabled exactly when an input is given; the tab defaults to message, recurring to false, strings to `''`, balances to 0; the funding account is not copied |
| `DetailsForm.FormErrors` | apps/warp-protocol/src/pages/job-new/details-form/useDetailsForm.ts:109-134 | on the merged state: a name over 140 and a description over 200 UTF-16 code units, a non-empty non-JSON message, an amount over the balance, and a template with an unfilled variable each set their error exactly; the message is valid exactly when non-empty JSON; the amount is valid exactly when above 0 and within the balance, and never without a token and amount |
| `DetailsForm.SubmitEnabledIff` | apps/warp-protocol/src/pages/job-new/details-form/useDetailsForm.ts:136-151 | submit is enabled exactly when the name (1 to 140 UTF-16 code units) and duration are given, the description is at most 200 code units, the message is non-empty JSON, a chosen token has an amount above 0 within the balance, and a chosen template has every variable filled |
| `DetailsForm.FormKeepsFields` | apps/warp-protocol/src/pages/job-new/details-form/useDetailsForm.ts:100-103 | every input field is the input's value when given and the previous one otherwise; balances and their loading flags are untouched |
| `DetailsForm.FormIgnoresDerived` | apps/warp-protocol/src/pages/job-new/details-form/useDetailsForm.ts:153-163 | the previous errors and flags make no difference to the result |
| `DetailsForm.FormIdempotent` | apps/warp-protocol/src/pages/job-new/details-form/useDetailsForm.ts:99-164 | validating the same input twice equals validating it once |
| `TemplateNewForm.TemplateToInput` | apps/warp-protocol/src/pages/template-new/useTemplateNewForm.ts:20-28 | without a template every field is `''` or `[]`; with one each field is the template's, the formatted string from `formatted_str` |
| `TemplateNewForm.InitialState` | apps/warp-protocol/src/pages/template-new/useTemplateNewForm.ts:31-38 | submit starts disabled whether or not a template is given, with no errors and the template's fields |
| `TemplateNewForm.MsgError` | apps/warp-protocol/src/pages/template-new/useTemplateNewForm.ts:46-53 | the message error: set for a non-empty message `JSON.parse` rejects; contract: the message clause of `TemplateNewForm.FormErrors`, `TemplateNewForm.SecondValidation` |
| `TemplateNewForm.Form` | apps/warp-protocol/src/pages/template-new/useTemplateNewForm.ts:40-87 | the validation dispatch; contract: `TemplateNewForm.FormErrors`, `TemplateNewForm.FormattedStrIgnored`, `TemplateNewForm.SubmitEnabledIff`, `TemplateNewForm.StaleMessageError`, `TemplateNewForm.SecondValidation`, `TemplateNewForm.WideNameTooLong` |
| `TemplateNewForm.WideNameTooLong` | apps/warp-protocol/src/pages/template-new/useTemplateNewForm.ts:56-70 | a name of 71 characters such as U+1F600 is 142 code units long: the name error is set and submit is disabled |
| `TemplateNewForm.FormErrors` | apps/warp-protocol/src/pages/template-new/useTemplateNewForm.ts:46-64 | on the merged state: a name over 140 UTF-16 code units, a non-empty non-JSON message, a variable lacking kind, name or path, an empty kind and an empty message each set their error exactly |
| `TemplateNewForm.FormattedStrIgnored` | apps/warp-protocol/src/pages/template-new/useTemplateNewForm.ts:64 | changing the formatted string changes nothing but that field: the template-text error tests the message |
| `TemplateNewForm.SubmitEnabledIff` | apps/warp-protocol/src/pages/template-new/useTemplateNewForm.ts:66-76 | submit is enabled exactly when the name is 1 to 140 UTF-16 code units, all variables are filled, kind and message are non-empty and the previous state carried no message error |
| `TemplateNewForm.StaleMessageError` | apps/warp-protocol/src/pages/template-new/useTemplateNewForm.ts:66-86 | from a fresh form, a valid template with a non-JSON message reports the message error and still enables submit |
| `TemplateNewForm.SecondValidation` | apps/warp-protocol/src/pages/template-new/useTemplateNewForm.ts:40-87 | after two validations with the same input, submit is enabled exactly when the fields are valid and the message is JSON, and further validations change nothing |

## Left out

- DynamoDB access, the table and client setup, and logging. The table is a map, and writes and range queries never fail. A crash part-way through a pipeline's writes is not modelled: only a failed event read aborts a pass.
- The internals of `eventCounter`, `eventAggregator` and the events store. The store is the `EventSource` parameter. An hour's events are given already bucketed, and the height window's bounds are passed as the source receives them.
- `WarpPK.controller`: the event partition key is identified with the action name.
- Big.js decimals, `parseInt` and the string values of aggregates. All values are exact integers, and a missing reward counts as 0.
- The UTC calendar is assumed for `truncate`, `addDays` and `addMonths`: no time zones, no leap seconds.
- d3 `group` is modelled by its first-occurrence key order. No proved property depends on that order.
- The positional create-job merge is modelled as written. It pairs replies with create-job aggregates by list position, not by hour. `CombineMisaligned` shows that it disagrees with an hour-keyed merge when the two lists cover different hours.
- The React plumbing (`useMemo`, `useCallback`, `useLocalStorage`, `useForm`, `useLocalWallet`), the initializer and the asynchronous `dispatchBalance` / `fetchTokenBalance` wallet reads. Balances are state fields nobody in the model updates.
- `JSON.parse` is the `isJson` parameter, and `microfy` is a parameter from the amount string and decimals to micro-units.
- `templateVariables` is not part of this model. It is a parameter giving a template's variables with their values.
- The model's form inputs never carry `undefined` or `null` for the name, duration and message: those fields are plain strings, so the `=== undefined` / `=== null` tests of the submit flag are always false here. `FormInput` is not part of this model. If it admits an explicit `undefined` for these keys, as `Partial<T>` does, the source then disables submit on an input the model cannot express. Explicitly unset optional fields (`undefined`) are `Set(None)`.
- `messageValid` and `amountValid` start `undefined`. The model starts them false; nothing reads them before the first validation.
- All UI components, `useCreateTemplateTx` and the wallet-level types.
