/** The metric pipelines of the analytics indexer. A pipeline reads the events
    of one or two controller actions over a window of block heights, reduces
    each hour of events to a number, saves the hourly series and cascades it to
    a daily and a monthly series. One indexing pass runs the pipelines in a
    fixed order and stops at the first event read that fails. */
module Pipelines {
  import opened Wrappers
  import opened Text
  import opened Calendar
  import opened AnalyticsStore
  import opened Rollup

  // ---------------------------------------------------------------------
  // Partition keys

  /** `warp:` followed by the parts joined with `:`. */
  function MakePK(parts: seq<string>): string {
    "warp:" + Join(parts, ':')
  }

  /** A two-part key spelled out. */
  lemma MakePKPair(key: string, resolution: string)
    ensures MakePK([key, resolution]) == "warp:" + key + ":" + resolution
    ensures |MakePK([key, resolution])| == 6 + |key| + |resolution|
  {
    assert [key, resolution][1..] == [resolution];
    assert Join([key, resolution], ':') == key + ":" + resolution;
  }

  /** Two-part keys of `:`-free parts determine their parts. */
  lemma MakePKInjective(k1: string, r1: string, k2: string, r2: string)
    requires Excludes(k1, ':') && Excludes(r1, ':') && Excludes(k2, ':') && Excludes(r2, ':')
    ensures MakePK([k1, r1]) == MakePK([k2, r2]) <==> k1 == k2 && r1 == r2
  {
    if MakePK([k1, r1]) == MakePK([k2, r2]) {
      assert Join([k1, r1], ':') == MakePK([k1, r1])[5..];
      assert Join([k2, r2], ':') == MakePK([k2, r2])[5..];
      SplitJoin([k1, r1], ':');
      SplitJoin([k2, r2], ':');
      assert [k1, r1][0] == [k2, r2][0] && [k1, r1][1] == [k2, r2][1];
    }
  }

  function HourlyKey(key: string): string { MakePK([key, "hourly"]) }
  function DailyKey(key: string): string { MakePK([key, "daily"]) }
  function MonthlyKey(key: string): string { MakePK([key, "monthly"]) }

  /** The three series of one metric are three different partitions. */
  lemma SeriesKeysDistinct(key: string)
    ensures HourlyKey(key) != DailyKey(key)
    ensures DailyKey(key) != MonthlyKey(key)
    ensures HourlyKey(key) != MonthlyKey(key)
  {
    MakePKPair(key, "hourly");
    MakePKPair(key, "daily");
    MakePKPair(key, "monthly");
  }

  /** The partitions one metric's pipeline writes. */
  predicate InFamily(pk: string, key: string) {
    pk == HourlyKey(key) || pk == DailyKey(key) || pk == MonthlyKey(key)
  }

  /** Different `:`-free metric names write disjoint sets of partitions. */
  lemma FamiliesDisjoint(k1: string, k2: string, pk: string)
    requires Excludes(k1, ':') && Excludes(k2, ':') && k1 != k2
    ensures !(InFamily(pk, k1) && InFamily(pk, k2))
  {
    assert Excludes("hourly", ':') && Excludes("daily", ':') && Excludes("monthly", ':');
    forall r1, r2 | Excludes(r1, ':') && Excludes(r2, ':') ensures MakePK([k1, r1]) != MakePK([k2, r2]) {
      MakePKInjective(k1, r1, k2, r2);
    }
  }

  // ---------------------------------------------------------------------
  // Events and hourly aggregates

  /** The payload fields of a controller event that the indexer reads. */
  datatype Event = Event(subAction: Option<string>, jobReward: Option<int>)

  /** The events of one hour, as the event store groups them. */
  datatype HourEvents = HourEvents(timestamp: int, events: seq<Event>)

  /** Reads the events of one controller action whose block height lies in
      [minHeight, maxHeight], grouped by hour; `None` when the read fails. */
  type EventSource = (string, int, int) -> Option<seq<HourEvents>>

  datatype Failure = ReadFailed(action: string)

  /** One point of an hourly series: the hour and its value. */
  datatype Aggregate = Aggregate(timestamp: int, value: int)

  function Timestamps(aggs: seq<Aggregate>): (ts: seq<int>)
    ensures |ts| == |aggs|
    ensures forall i :: 0 <= i < |aggs| ==> ts[i] == aggs[i].timestamp
  {
    seq(|aggs|, i requires 0 <= i < |aggs| => aggs[i].timestamp)
  }

  /** The entities of partition `pk` that hold a series. */
  function ToEntities(pk: string, aggs: seq<Aggregate>): (es: seq<Entity>)
    ensures |es| == |aggs|
    ensures forall i :: 0 <= i < |aggs| ==> es[i] == Entity(pk, aggs[i].timestamp, aggs[i].value)
  {
    seq(|aggs|, i requires 0 <= i < |aggs| => Entity(pk, aggs[i].timestamp, aggs[i].value))
  }

  /** Reads one action's events and reduces each hour to one value. */
  function EventAggregator(src: EventSource, action: string, minHeight: int, maxHeight: int,
                           reducer: seq<Event> -> int): (r: Result<seq<Aggregate>, Failure>)
    ensures src(action, minHeight, maxHeight).None? ==> r == Err(ReadFailed(action))
    ensures src(action, minHeight, maxHeight).Some? ==> (r.Ok? &&
      var hours := src(action, minHeight, maxHeight).value;
      |r.value| == |hours| &&
      forall i :: 0 <= i < |hours| ==> r.value[i] == Aggregate(hours[i].timestamp, reducer(hours[i].events)))
  {
    match src(action, minHeight, maxHeight)
    case None => Err(ReadFailed(action))
    case Some(hours) =>
      Ok(seq(|hours|, i requires 0 <= i < |hours| => Aggregate(hours[i].timestamp, reducer(hours[i].events))))
  }

  function CountEvents(events: seq<Event>): int {
    |events|
  }

  /** The number of events of each hour. */
  function EventCounter(src: EventSource, action: string, minHeight: int, maxHeight: int): Result<seq<Aggregate>, Failure> {
    EventAggregator(src, action, minHeight, maxHeight, CountEvents)
  }

  predicate IsRecurJob(e: Event) {
    e.subAction == Some("recur_job")
  }

  /** The number of events whose sub-action is `recur_job`. */
  function RecurJobCount(events: seq<Event>): (n: int)
    ensures 0 <= n <= |events|
    ensures n == 0 <==> forall i :: 0 <= i < |events| ==> !IsRecurJob(events[i])
    ensures n == |events| <==> forall i :: 0 <= i < |events| ==> IsRecurJob(events[i])
  {
    if |events| == 0 then 0
    else
      var init := events[..|events| - 1];
      assert forall i :: 0 <= i < |init| ==> init[i] == events[i];
      RecurJobCount(init) + (if IsRecurJob(events[|events| - 1]) then 1 else 0)
  }

  /** Counting recurring jobs over two runs of events adds up. */
  lemma {:induction false} RecurJobCountAppend(a: seq<Event>, b: seq<Event>)
    ensures RecurJobCount(a + b) == RecurJobCount(a) + RecurJobCount(b)
    decreases |b|
  {
    if |b| == 0 {
      assert a + b == a;
    } else {
      assert (a + b)[..|a + b| - 1] == a + b[..|b| - 1];
      RecurJobCountAppend(a, b[..|b| - 1]);
    }
  }

  /** The job rewards of the events added up from 0, a missing reward
      counting as 0. */
  function RewardTotal(events: seq<Event>): int {
    if |events| == 0 then 0
    else RewardTotal(events[..|events| - 1]) + events[|events| - 1].jobReward.GetOr(0)
  }

  /** The events that carry a job reward. */
  function Rewarded(events: seq<Event>): (r: seq<Event>)
    ensures forall e :: e in r <==> e in events && e.jobReward.Some?
  {
    if |events| == 0 then []
    else
      var init := events[..|events| - 1];
      var last := events[|events| - 1];
      assert forall e :: e in events <==> e in init || e == last;
      Rewarded(init) + (if last.jobReward.Some? then [last] else [])
  }

  /** Summing rewards over two runs of events adds up. */
  lemma {:induction false} RewardTotalAppend(a: seq<Event>, b: seq<Event>)
    ensures RewardTotal(a + b) == RewardTotal(a) + RewardTotal(b)
    decreases |b|
  {
    if |b| == 0 {
      assert a + b == a;
    } else {
      assert (a + b)[..|a + b| - 1] == a + b[..|b| - 1];
      RewardTotalAppend(a, b[..|b| - 1]);
    }
  }

  /** Events without a reward contribute nothing: the total over all events
      is the total over the rewarded ones. */
  lemma {:induction false} RewardTotalOfRewarded(events: seq<Event>)
    ensures RewardTotal(events) == RewardTotal(Rewarded(events))
  {
    if |events| > 0 {
      var init := events[..|events| - 1];
      var last := events[|events| - 1];
      RewardTotalOfRewarded(init);
      if last.jobReward.Some? {
        RewardTotalAppend(Rewarded(init), [last]);
        assert RewardTotal([last]) == RewardTotal([]) + last.jobReward.value;
      } else {
        assert Rewarded(events) == Rewarded(init) + [];
        assert Rewarded(init) + [] == Rewarded(init);
      }
    }
  }

  /** With non-negative rewards the total is at least every single reward. */
  lemma {:induction false} RewardTotalBounds(events: seq<Event>, i: int)
    requires forall k :: 0 <= k < |events| ==> events[k].jobReward.GetOr(0) >= 0
    requires 0 <= i < |events|
    ensures RewardTotal(events) >= events[i].jobReward.GetOr(0) >= 0
  {
    var init := events[..|events| - 1];
    if i < |events| - 1 {
      RewardTotalBounds(init, i);
    } else {
      RewardTotalNonNegative(init);
    }
  }

  lemma {:induction false} RewardTotalNonNegative(events: seq<Event>)
    requires forall k :: 0 <= k < |events| ==> events[k].jobReward.GetOr(0) >= 0
    ensures RewardTotal(events) >= 0
  {
    if |events| > 0 {
      RewardTotalNonNegative(events[..|events| - 1]);
    }
  }

  // ---------------------------------------------------------------------
  // Combining the create_job and recurring-job series

  /** The create_job count of each hour plus the entry of the recurring-job
      series at the same position (0 past its end). The hours of the second
      series are not consulted. */
  function CombineCreateJob(createJob: seq<Aggregate>, reply: seq<Aggregate>): (r: seq<Aggregate>)
    ensures |r| == |createJob|
    ensures forall i :: 0 <= i < |r| ==> r[i].timestamp == createJob[i].timestamp
  {
    seq(|createJob|, i requires 0 <= i < |createJob| =>
      Aggregate(createJob[i].timestamp, createJob[i].value + (if i < |reply| then reply[i].value else 0)))
  }

  /** The value a series holds for hour `t`: its first point at `t`, or 0. */
  function ValueAt(aggs: seq<Aggregate>, t: int): int {
    if |aggs| == 0 then 0
    else if aggs[0].timestamp == t then aggs[0].value
    else ValueAt(aggs[1..], t)
  }

  /** The sum of all values of a series. */
  function TotalValue(aggs: seq<Aggregate>): int {
    if |aggs| == 0 then 0 else aggs[0].value + TotalValue(aggs[1..])
  }

  /** The second series lines up with the first: it is no longer, and each of
      its points has the hour of the point at the same position. */
  predicate Aligned(createJob: seq<Aggregate>, reply: seq<Aggregate>) {
    |reply| <= |createJob| &&
    forall i :: 0 <= i < |reply| ==> reply[i].timestamp == createJob[i].timestamp
  }

  lemma CombineTail(createJob: seq<Aggregate>, reply: seq<Aggregate>)
    requires |createJob| > 0
    ensures CombineCreateJob(createJob, reply)[1..] ==
      CombineCreateJob(createJob[1..], if |reply| == 0 then [] else reply[1..])
  {
  }

  /** When the series line up, the positional sum is the hour-by-hour sum:
      every hour holds the create_job count plus the recurring-job count of
      that same hour. */
  lemma {:induction false} CombineAlignedByHour(createJob: seq<Aggregate>, reply: seq<Aggregate>, t: int)
    requires Aligned(createJob, reply)
    ensures ValueAt(CombineCreateJob(createJob, reply), t) == ValueAt(createJob, t) + ValueAt(reply, t)
  {
    if |createJob| > 0 {
      var rest := if |reply| == 0 then [] else reply[1..];
      CombineTail(createJob, reply);
      if createJob[0].timestamp != t {
        CombineAlignedByHour(createJob[1..], rest, t);
      }
    }
  }

  /** The combined series totals the create_job series plus the part of the
      recurring-job series that fits its length; later recurring-job points
      are dropped. */
  lemma {:induction false} CombineTotal(createJob: seq<Aggregate>, reply: seq<Aggregate>)
    ensures TotalValue(CombineCreateJob(createJob, reply)) ==
      TotalValue(createJob) + TotalValue(reply[..if |reply| <= |createJob| then |reply| else |createJob|])
  {
    var m := if |reply| <= |createJob| then |reply| else |createJob|;
    if |createJob| == 0 {
      assert reply[..m] == [];
    } else {
      var rest := if |reply| == 0 then [] else reply[1..];
      CombineTail(createJob, reply);
      CombineTotal(createJob[1..], rest);
      var m' := if |rest| <= |createJob[1..]| then |rest| else |createJob[1..]|;
      if |reply| > 0 {
        assert reply[..m][1..] == rest[..m'];
      } else {
        assert reply[..m] == [] && rest[..m'] == [];
      }
    }
  }

  /** An hour the create_job series lacks: the recurring jobs of hour 7200
      are added to hour 3600, which sits at the same position, and hour 7200
      gets nothing, where the hour-by-hour sum keeps 2 at 3600 and 1 at
      7200. */
  lemma CombineMisaligned()
    ensures CombineCreateJob([Aggregate(3600, 2)], [Aggregate(7200, 1)]) == [Aggregate(3600, 3)]
    ensures ValueAt([Aggregate(3600, 2)], 3600) + ValueAt([Aggregate(7200, 1)], 3600) == 2
    ensures ValueAt([Aggregate(3600, 2)], 7200) + ValueAt([Aggregate(7200, 1)], 7200) == 1
    ensures ValueAt(CombineCreateJob([Aggregate(3600, 2)], [Aggregate(7200, 1)]), 7200) == 0
  {
    var r := CombineCreateJob([Aggregate(3600, 2)], [Aggregate(7200, 1)]);
    assert r[0] == Aggregate(3600, 3);
    assert r[1..] == [];
  }

  // ---------------------------------------------------------------------
  // Pipelines

  /** The three pipelines: create_job (with recurring jobs), the count of one
      controller action, and the job rewards of executed jobs. */
  datatype Pipeline = CreateJob | EventCount(action: string) | RewardAmount

  /** The metric name a pipeline writes under. */
  function MetricKey(p: Pipeline): string {
    match p
    case CreateJob => "create_job_count"
    case EventCount(action) => action + "_count"
    case RewardAmount => "reward_amount"
  }

  /** The hourly series of a pipeline, read from the event source. */
  function Fetch(src: EventSource, p: Pipeline, minHeight: int, maxHeight: int): Result<seq<Aggregate>, Failure> {
    match p
    case CreateJob =>
      (match EventCounter(src, "create_job", minHeight, maxHeight)
       case Err(f) => Err(f)
       case Ok(createJob) =>
         match EventAggregator(src, "execute_reply", minHeight, maxHeight, RecurJobCount)
         case Err(f) => Err(f)
         case Ok(reply) => Ok(CombineCreateJob(createJob, reply)))
    case EventCount(action) => EventCounter(src, action, minHeight, maxHeight)
    case RewardAmount => EventAggregator(src, "execute_job", minHeight, maxHeight, RewardTotal)
  }

  /** Saves the hourly series of metric `key`, then cascades hourly to daily
      over the days of its hours, then daily to monthly over their months. */
  function RunPipeline(s: Store, key: string, aggs: seq<Aggregate>): Store {
    var ts := Timestamps(aggs);
    var hourly := Put(s, ToEntities(HourlyKey(key), aggs));
    var daily := Cascade(hourly, HourlyKey(key), DailyKey(key), DailyRanges(ts));
    Cascade(daily, DailyKey(key), MonthlyKey(key), MonthlyRanges(ts))
  }

  /** A pipeline only writes the partitions of its own metric. */
  lemma PipelineFrame(s: Store, key: string, aggs: seq<Aggregate>, pk: string)
    requires !InFamily(pk, key)
    ensures AgreeOn(RunPipeline(s, key, aggs), s, pk)
  {
    var ts := Timestamps(aggs);
    var es := ToEntities(HourlyKey(key), aggs);
    var hourly := Put(s, es);
    var daily := Cascade(hourly, HourlyKey(key), DailyKey(key), DailyRanges(ts));
    PutOutside(s, es, HourlyKey(key), pk);
    CascadeWrites(hourly, HourlyKey(key), DailyKey(key), DailyRanges(ts));
    PutOutside(hourly, CascadeOutput(hourly, HourlyKey(key), DailyKey(key), DailyRanges(ts)), DailyKey(key), pk);
    CascadeWrites(daily, DailyKey(key), MonthlyKey(key), MonthlyRanges(ts));
    PutOutside(daily, CascadeOutput(daily, DailyKey(key), MonthlyKey(key), MonthlyRanges(ts)), MonthlyKey(key), pk);
  }

  /** After a pipeline over a series with distinct hours, the hourly partition
      holds the series, every daily entity is the exact total of the hourly
      entities of its day, and every monthly entity the exact total of the
      daily entities of its month. */
  lemma PipelineConsistent(s: Store, key: string, aggs: seq<Aggregate>)
    requires forall i, j :: 0 <= i < j < |aggs| ==> aggs[i].timestamp != aggs[j].timestamp
    ensures var r := RunPipeline(s, key, aggs);
      forall i :: 0 <= i < |aggs| ==> Lookup(r, (HourlyKey(key), aggs[i].timestamp)) == Some(aggs[i].value)
    ensures var r := RunPipeline(s, key, aggs); var days := DailyRanges(Timestamps(aggs));
      forall i :: 0 <= i < |days| ==>
        Lookup(r, (DailyKey(key), days[i].from)) == Some(RangeTotal(r, HourlyKey(key), days[i].from, days[i].to))
    ensures var r := RunPipeline(s, key, aggs); var months := MonthlyRanges(Timestamps(aggs));
      forall i :: 0 <= i < |months| ==>
        Lookup(r, (MonthlyKey(key), months[i].from)) == Some(RangeTotal(r, DailyKey(key), months[i].from, months[i].to))
  {
    var ts := Timestamps(aggs);
    var es := ToEntities(HourlyKey(key), aggs);
    var H, D, M := HourlyKey(key), DailyKey(key), MonthlyKey(key);
    var days, months := DailyRanges(ts), MonthlyRanges(ts);
    var hourly := Put(s, es);
    var daily := Cascade(hourly, H, D, days);
    var r := Cascade(daily, D, M, months);
    assert r == RunPipeline(s, key, aggs);
    SeriesKeysDistinct(key);
    CascadeFrame(hourly, H, D, days, H);
    CascadeFrame(daily, D, M, months, H);
    CascadeFrame(daily, D, M, months, D);
    AgreeTrans(r, daily, hourly, H);
    HourlyHolds(s, H, aggs, r);
    RangesShape(Day, ts);
    DailyTotals(hourly, H, D, days, r);
    RangesShape(Month, ts);
    CascadeConsistent(daily, D, M, months);
  }

  /** After a pipeline the hourly partition is what saving the series left:
      the cascades write the daily and monthly partitions only. */
  lemma PipelineHourly(s: Store, key: string, aggs: seq<Aggregate>)
    ensures AgreeOn(RunPipeline(s, key, aggs), Put(s, ToEntities(HourlyKey(key), aggs)), HourlyKey(key))
  {
    var ts := Timestamps(aggs);
    var H, D, M := HourlyKey(key), DailyKey(key), MonthlyKey(key);
    var hourly := Put(s, ToEntities(H, aggs));
    var daily := Cascade(hourly, H, D, DailyRanges(ts));
    SeriesKeysDistinct(key);
    CascadeFrame(hourly, H, D, DailyRanges(ts), H);
    CascadeFrame(daily, D, M, MonthlyRanges(ts), H);
    AgreeTrans(RunPipeline(s, key, aggs), daily, hourly, H);
  }

  lemma HourlyHolds(s: Store, pk: string, aggs: seq<Aggregate>, r: Store)
    requires forall i, j :: 0 <= i < j < |aggs| ==> aggs[i].timestamp != aggs[j].timestamp
    requires AgreeOn(r, Put(s, ToEntities(pk, aggs)), pk)
    ensures forall i :: 0 <= i < |aggs| ==> Lookup(r, (pk, aggs[i].timestamp)) == Some(aggs[i].value)
  {
    var es := ToEntities(pk, aggs);
    forall i | 0 <= i < |aggs| ensures Lookup(r, (pk, aggs[i].timestamp)) == Some(aggs[i].value) {
      LastWriteAt(es, i);
      assert Lookup(Put(s, es), (pk, aggs[i].timestamp)) == Some(aggs[i].value);
    }
  }

  lemma DailyTotals(hourly: Store, H: string, D: string, days: seq<TimeRange>, r: Store)
    requires H != D
    requires forall i, j :: 0 <= i < j < |days| ==> days[i].from != days[j].from
    requires AgreeOn(r, hourly, H) && AgreeOn(r, Cascade(hourly, H, D, days), D)
    ensures forall i :: 0 <= i < |days| ==>
      Lookup(r, (D, days[i].from)) == Some(RangeTotal(r, H, days[i].from, days[i].to))
  {
    var daily := Cascade(hourly, H, D, days);
    var out := CascadeOutput(hourly, H, D, days);
    CascadeWrites(hourly, H, D, days);
    forall i | 0 <= i < |days| ensures Lookup(r, (D, days[i].from)) == Some(RangeTotal(r, H, days[i].from, days[i].to)) {
      LastWriteAt(out, i);
      QueryRangeAgree(r, hourly, H, days[i].from, days[i].to);
      assert Lookup(daily, (D, days[i].from)) == Some(RangeTotal(hourly, H, days[i].from, days[i].to));
    }
  }

  /** Running a pipeline on a store that already agrees, on the pipeline's
      partitions, with the result of the same pipeline (on any store) changes
      nothing. */
  lemma PipelineNoOp(x: Store, t: Store, key: string, aggs: seq<Aggregate>)
    requires forall pk :: InFamily(pk, key) ==> AgreeOn(x, RunPipeline(t, key, aggs), pk)
    ensures RunPipeline(x, key, aggs) == x
  {
    var ts := Timestamps(aggs);
    var es := ToEntities(HourlyKey(key), aggs);
    var H, D, M := HourlyKey(key), DailyKey(key), MonthlyKey(key);
    var days, months := DailyRanges(ts), MonthlyRanges(ts);
    var tHourly := Put(t, es);
    var tDaily := Cascade(tHourly, H, D, days);
    var r := Cascade(tDaily, D, M, months);
    assert r == RunPipeline(t, key, aggs);
    SeriesKeysDistinct(key);
    assert InFamily(H, key) && InFamily(D, key) && InFamily(M, key);
    CascadeFrame(tHourly, H, D, days, H);
    CascadeFrame(tDaily, D, M, months, H);
    CascadeFrame(tDaily, D, M, months, D);
    AgreeTrans(x, r, tDaily, H);
    AgreeTrans(x, tDaily, tHourly, H);
    AgreeTrans(x, r, tDaily, D);
    PutNoOpFrom(x, t, es, H);
    CascadeNoOp(x, tHourly, H, D, days);
    CascadeNoOp(x, tDaily, D, M, months);
  }

  /** Running a pipeline twice leaves the store as running it once. */
  lemma PipelineIdempotent(s: Store, key: string, aggs: seq<Aggregate>)
    ensures RunPipeline(RunPipeline(s, key, aggs), key, aggs) == RunPipeline(s, key, aggs)
  {
    PipelineNoOp(RunPipeline(s, key, aggs), s, key, aggs);
  }

  // ---------------------------------------------------------------------
  // Running pipelines in sequence

  datatype Outcome = Completed | Aborted(failure: Failure)

  /** The store after running pipelines, and how the run ended. */
  datatype Run = Run(store: Store, outcome: Outcome)

  /** Runs the pipelines in order over one window of heights. Each pipeline
      reads all its events before it writes; the first failed read ends the
      run, keeping what earlier pipelines wrote. */
  function RunAll(s: Store, src: EventSource, minHeight: int, maxHeight: int, ps: seq<Pipeline>): Run
    decreases |ps|
  {
    if |ps| == 0 then Run(s, Completed)
    else
      match Fetch(src, ps[0], minHeight, maxHeight)
      case Err(f) => Run(s, Aborted(f))
      case Ok(aggs) => RunAll(RunPipeline(s, MetricKey(ps[0]), aggs), src, minHeight, maxHeight, ps[1..])
  }

  /** Pipelines whose metric names are `:`-free and pairwise different. */
  predicate WellKeyed(ps: seq<Pipeline>) {
    (forall i :: 0 <= i < |ps| ==> Excludes(MetricKey(ps[i]), ':')) &&
    (forall i, j :: 0 <= i < j < |ps| ==> MetricKey(ps[i]) != MetricKey(ps[j]))
  }

  /** Wherever `src1` reads successfully, `src2` reads the same events (as a
      retry after a failed read would). */
  ghost predicate Extends(src1: EventSource, src2: EventSource, minHeight: int, maxHeight: int) {
    forall action :: src1(action, minHeight, maxHeight).Some? ==>
      src2(action, minHeight, maxHeight) == src1(action, minHeight, maxHeight)
  }

  lemma FetchExtends(src1: EventSource, src2: EventSource, p: Pipeline, minHeight: int, maxHeight: int)
    requires Extends(src1, src2, minHeight, maxHeight)
    requires Fetch(src1, p, minHeight, maxHeight).Ok?
    ensures Fetch(src2, p, minHeight, maxHeight) == Fetch(src1, p, minHeight, maxHeight)
  {
    match p
    case CreateJob =>
      assert src1("create_job", minHeight, maxHeight).Some?;
      assert src1("execute_reply", minHeight, maxHeight).Some?;
    case EventCount(action) =>
      assert src1(action, minHeight, maxHeight).Some?;
    case RewardAmount =>
      assert src1("execute_job", minHeight, maxHeight).Some?;
  }

  /** A run leaves the partitions of metrics it does not run untouched. */
  lemma {:induction false} RunAllFrame(s: Store, src: EventSource, minHeight: int, maxHeight: int, ps: seq<Pipeline>, pk: string)
    requires forall i :: 0 <= i < |ps| ==> !InFamily(pk, MetricKey(ps[i]))
    ensures AgreeOn(RunAll(s, src, minHeight, maxHeight, ps).store, s, pk)
    decreases |ps|
  {
    if |ps| > 0 {
      match Fetch(src, ps[0], minHeight, maxHeight)
      case Err(_) =>
      case Ok(aggs) =>
        var s1 := RunPipeline(s, MetricKey(ps[0]), aggs);
        PipelineFrame(s, MetricKey(ps[0]), aggs, pk);
        RunAllFrame(s1, src, minHeight, maxHeight, ps[1..], pk);
        AgreeTrans(RunAll(s1, src, minHeight, maxHeight, ps[1..]).store, s1, s, pk);
    }
  }

  /** Recovery: after a run with `src1`, running the same pipelines again with
      a source that reads the same events wherever `src1` succeeded ends
      exactly as a single run with that source from the original store. The
      pipelines that completed the first time change nothing the second
      time. */
  lemma {:induction false} Replay(s: Store, src1: EventSource, src2: EventSource, minHeight: int, maxHeight: int, ps: seq<Pipeline>)
    requires WellKeyed(ps)
    requires Extends(src1, src2, minHeight, maxHeight)
    ensures RunAll(RunAll(s, src1, minHeight, maxHeight, ps).store, src2, minHeight, maxHeight, ps) ==
      RunAll(s, src2, minHeight, maxHeight, ps)
    decreases |ps|
  {
    if |ps| > 0 {
      match Fetch(src1, ps[0], minHeight, maxHeight)
      case Err(_) =>
      case Ok(aggs) =>
        FetchExtends(src1, src2, ps[0], minHeight, maxHeight);
        var key := MetricKey(ps[0]);
        var rest := ps[1..];
        var s1 := RunPipeline(s, key, aggs);
        var r1 := RunAll(s1, src1, minHeight, maxHeight, rest).store;
        assert r1 == RunAll(s, src1, minHeight, maxHeight, ps).store;
        forall pk | InFamily(pk, key) ensures AgreeOn(r1, s1, pk) {
          forall i | 0 <= i < |rest| ensures !InFamily(pk, MetricKey(rest[i])) {
            FamiliesDisjoint(key, MetricKey(rest[i]), pk);
          }
          RunAllFrame(s1, src1, minHeight, maxHeight, rest, pk);
        }
        PipelineNoOp(r1, s, key, aggs);
        assert WellKeyed(rest);
        Replay(s1, src1, src2, minHeight, maxHeight, rest);
    }
  }

  /** Re-running the pipelines with the same events changes nothing. */
  lemma RunAllIdempotent(s: Store, src: EventSource, minHeight: int, maxHeight: int, ps: seq<Pipeline>)
    requires WellKeyed(ps)
    ensures RunAll(RunAll(s, src, minHeight, maxHeight, ps).store, src, minHeight, maxHeight, ps) ==
      RunAll(s, src, minHeight, maxHeight, ps)
  {
    Replay(s, src, src, minHeight, maxHeight, ps);
  }

  /** The first step of a run: stop on a failed read, else run the first
      pipeline and go on with the rest. */
  lemma RunAllHead(s: Store, src: EventSource, minHeight: int, maxHeight: int, p: Pipeline, rest: seq<Pipeline>)
    ensures Fetch(src, p, minHeight, maxHeight).Err? ==>
      RunAll(s, src, minHeight, maxHeight, [p] + rest) == Run(s, Aborted(Fetch(src, p, minHeight, maxHeight).error))
    ensures Fetch(src, p, minHeight, maxHeight).Ok? ==>
      RunAll(s, src, minHeight, maxHeight, [p] + rest) ==
      RunAll(RunPipeline(s, MetricKey(p), Fetch(src, p, minHeight, maxHeight).value), src, minHeight, maxHeight, rest)
  {
    assert ([p] + rest)[0] == p;
    assert ([p] + rest)[1..] == rest;
  }

  /** Running two lists of pipelines one after the other is running their
      concatenation: the second list runs only if the first completed. */
  lemma {:induction false} RunAllAppend(s: Store, src: EventSource, minHeight: int, maxHeight: int, ps: seq<Pipeline>, qs: seq<Pipeline>)
    ensures var first := RunAll(s, src, minHeight, maxHeight, ps);
      RunAll(s, src, minHeight, maxHeight, ps + qs) ==
      if first.outcome.Completed? then RunAll(first.store, src, minHeight, maxHeight, qs) else first
    decreases |ps|
  {
    if |ps| == 0 {
      assert ps + qs == qs;
    } else {
      assert (ps + qs)[0] == ps[0];
      assert (ps + qs)[1..] == ps[1..] + qs;
      match Fetch(src, ps[0], minHeight, maxHeight)
      case Err(_) =>
      case Ok(aggs) =>
        RunAllAppend(RunPipeline(s, MetricKey(ps[0]), aggs), src, minHeight, maxHeight, ps[1..], qs);
    }
  }

  /** A pipeline repeated after another pipeline of a different metric
      finds its partitions as it left them and changes nothing. */
  lemma RepeatIsNoOp(s: Store, src: EventSource, minHeight: int, maxHeight: int, p: Pipeline, q: Pipeline, rest: seq<Pipeline>)
    requires Excludes(MetricKey(p), ':') && Excludes(MetricKey(q), ':') && MetricKey(p) != MetricKey(q)
    ensures RunAll(s, src, minHeight, maxHeight, [p, q, p] + rest) == RunAll(s, src, minHeight, maxHeight, [p, q] + rest)
  {
    assert [p, q, p] + rest == [p] + ([q] + ([p] + rest));
    assert [p, q] + rest == [p] + ([q] + rest);
    var fp, fq := Fetch(src, p, minHeight, maxHeight), Fetch(src, q, minHeight, maxHeight);
    RunAllHead(s, src, minHeight, maxHeight, p, [q] + ([p] + rest));
    RunAllHead(s, src, minHeight, maxHeight, p, [q] + rest);
    if fp.Ok? {
      var s1 := RunPipeline(s, MetricKey(p), fp.value);
      RunAllHead(s1, src, minHeight, maxHeight, q, [p] + rest);
      RunAllHead(s1, src, minHeight, maxHeight, q, rest);
      if fq.Ok? {
        var s2 := RunPipeline(s1, MetricKey(q), fq.value);
        forall pk | InFamily(pk, MetricKey(p)) ensures AgreeOn(s2, s1, pk) {
          FamiliesDisjoint(MetricKey(p), MetricKey(q), pk);
          PipelineFrame(s1, MetricKey(q), fq.value, pk);
        }
        PipelineNoOp(s2, s, MetricKey(p), fp.value);
        RunAllHead(s2, src, minHeight, maxHeight, p, rest);
      }
    }
  }

  // ---------------------------------------------------------------------
  // One indexing pass

  /** The controller actions whose events are counted, in order;
      `execute_job` appears twice. */
  const CountedActions: seq<string> := ["execute_job", "update_job", "execute_job", "prioritize_job"]

  function CountPipelines(actions: seq<string>): (ps: seq<Pipeline>)
    ensures |ps| == |actions|
    ensures forall i :: 0 <= i < |actions| ==> ps[i] == EventCount(actions[i])
  {
    seq(|actions|, i requires 0 <= i < |actions| => EventCount(actions[i]))
  }

  /** The pipelines of one pass: create_job, the counted actions, then the
      reward amount. */
  function PassPipelines(): seq<Pipeline> {
    [CreateJob] + CountPipelines(CountedActions) + [RewardAmount]
  }

  /** The pass without the second `execute_job` count. */
  function DistinctPassPipelines(): seq<Pipeline> {
    [CreateJob, EventCount("execute_job"), EventCount("update_job"), EventCount("prioritize_job"), RewardAmount]
  }

  /** The metric names of a pass, one per pipeline. */
  const PassMetricKeys: seq<string> :=
    ["create_job_count", "execute_job_count", "update_job_count", "prioritize_job_count", "reward_amount"]

  lemma PassMetricKeysNamed()
    ensures |DistinctPassPipelines()| == |PassMetricKeys|
    ensures forall i :: 0 <= i < |PassMetricKeys| ==> MetricKey(DistinctPassPipelines()[i]) == PassMetricKeys[i]
  {
    var ps := DistinctPassPipelines();
    CountKeysSpelled();
    assert MetricKey(ps[0]) == PassMetricKeys[0];
    assert MetricKey(ps[1]) == PassMetricKeys[1];
    assert MetricKey(ps[2]) == PassMetricKeys[2];
    assert MetricKey(ps[3]) == PassMetricKeys[3];
    assert MetricKey(ps[4]) == PassMetricKeys[4];
  }

  /** The metric names of the counted actions, spelled out. */
  lemma CountKeysSpelled()
    ensures MetricKey(EventCount("execute_job")) == "execute_job_count"
    ensures MetricKey(EventCount("update_job")) == "update_job_count"
    ensures MetricKey(EventCount("prioritize_job")) == "prioritize_job_count"
  {
  }

  lemma PassMetricKeysSeparate()
    ensures forall i :: 0 <= i < |PassMetricKeys| ==> Excludes(PassMetricKeys[i], ':')
    ensures forall i, j :: 0 <= i < j < |PassMetricKeys| ==> PassMetricKeys[i] != PassMetricKeys[j]
  {
    var keys := PassMetricKeys;
    assert Excludes(keys[0], ':') && Excludes(keys[1], ':') && Excludes(keys[2], ':');
    assert Excludes(keys[3], ':') && Excludes(keys[4], ':');
    assert |keys[0]| == 16 && |keys[1]| == 17 && |keys[2]| == 16 && |keys[3]| == 20 && |keys[4]| == 13;
    assert keys[0][0] != keys[2][0];
  }

  /** The five metric names of a pass are `:`-free and pairwise different. */
  lemma DistinctPassWellKeyed()
    ensures WellKeyed(DistinctPassPipelines())
  {
    PassMetricKeysNamed();
    PassMetricKeysSeparate();
  }

  /** Counting `execute_job` a second time within a pass changes nothing: the
      pass ends exactly as the pass that counts it once. */
  lemma RepeatedCountHarmless(s: Store, src: EventSource, minHeight: int, maxHeight: int)
    ensures RunAll(s, src, minHeight, maxHeight, PassPipelines()) == RunAll(s, src, minHeight, maxHeight, DistinctPassPipelines())
  {
    var ej, uj, pj := EventCount("execute_job"), EventCount("update_job"), EventCount("prioritize_job");
    var tail := [pj, RewardAmount];
    var counts := CountPipelines(CountedActions);
    assert counts[0] == ej && counts[1] == uj && counts[2] == ej && counts[3] == pj;
    assert counts == [ej, uj, ej, pj];
    assert PassPipelines() == [CreateJob] + ([ej, uj, ej] + tail);
    assert DistinctPassPipelines() == [CreateJob] + ([ej, uj] + tail);
    CountKeysSpelled();
    assert Excludes(MetricKey(ej), ':') && Excludes(MetricKey(uj), ':');
    var f := Fetch(src, CreateJob, minHeight, maxHeight);
    RunAllHead(s, src, minHeight, maxHeight, CreateJob, [ej, uj, ej] + tail);
    RunAllHead(s, src, minHeight, maxHeight, CreateJob, [ej, uj] + tail);
    if f.Ok? {
      RepeatIsNoOp(RunPipeline(s, MetricKey(CreateJob), f.value), src, minHeight, maxHeight, ej, uj, tail);
    }
  }

  /** What the indexer persists: the table and the last indexed height. */
  datatype IndexState = IndexState(store: Store, checkpoint: Option<int>)

  datatype PassResult = PassResult(state: IndexState, outcome: Outcome)

  /** One call of `index`: runs the pass over the heights from the checkpoint
      (the genesis height before the first pass) up to the current height,
      and moves the checkpoint to the current height only when the whole pass
      completed. */
  function IndexPass(st: IndexState, src: EventSource, genesis: int, current: int): (r: PassResult)
    ensures r.outcome.Completed? ==> r.state.checkpoint == Some(current)
    ensures r.outcome.Aborted? ==> r.state.checkpoint == st.checkpoint
  {
    var height := st.checkpoint.GetOr(genesis);
    var run := RunAll(st.store, src, height, current, PassPipelines());
    PassResult(IndexState(run.store, if run.outcome.Completed? then Some(current) else st.checkpoint), run.outcome)
  }

  /** Recovery from a failed pass: the checkpoint stays where it was, so the
      next pass covers the same heights, and with a source that reads the
      same events wherever the failed pass succeeded it ends exactly as if
      the failed pass had never run. */
  lemma IndexRecovery(st: IndexState, src1: EventSource, src2: EventSource, genesis: int, current: int)
    requires IndexPass(st, src1, genesis, current).outcome.Aborted?
    requires Extends(src1, src2, st.checkpoint.GetOr(genesis), current)
    ensures IndexPass(IndexPass(st, src1, genesis, current).state, src2, genesis, current) == IndexPass(st, src2, genesis, current)
  {
    var h := st.checkpoint.GetOr(genesis);
    var st1 := IndexPass(st, src1, genesis, current).state;
    RepeatedCountHarmless(st.store, src1, h, current);
    RepeatedCountHarmless(st1.store, src2, h, current);
    RepeatedCountHarmless(st.store, src2, h, current);
    DistinctPassWellKeyed();
    Replay(st.store, src1, src2, h, current, DistinctPassPipelines());
  }

  /** A pass whose writes all landed but whose checkpoint was never saved
      is repeated by the next call over the same heights; with the same
      events that repetition ends exactly as the pass itself. */
  lemma IndexRerun(st: IndexState, src: EventSource, genesis: int, current: int)
    ensures var r := IndexPass(st, src, genesis, current);
      IndexPass(IndexState(r.state.store, st.checkpoint), src, genesis, current) == r
  {
    var h := st.checkpoint.GetOr(genesis);
    var r := IndexPass(st, src, genesis, current);
    RepeatedCountHarmless(st.store, src, h, current);
    RepeatedCountHarmless(r.state.store, src, h, current);
    DistinctPassWellKeyed();
    RunAllIdempotent(st.store, src, h, current, DistinctPassPipelines());
  }

  // ---------------------------------------------------------------------
  // A worked create_job example

  /** Two create_job events in the hour starting at 3600 and one recurring
      job in the hour starting at 7200 (1970-01-01, UTC); nothing else. */
  function ScenarioSource(): EventSource {
    (action: string, minHeight: int, maxHeight: int) =>
      if action == "create_job" then Some([HourEvents(3600, [Event(None, None), Event(None, None)])])
      else if action == "execute_reply" then Some([HourEvents(7200, [Event(Some("recur_job"), None)])])
      else Some([])
  }

  lemma ScenarioFetch(minHeight: int, maxHeight: int)
    ensures Fetch(ScenarioSource(), CreateJob, minHeight, maxHeight) == Ok([Aggregate(3600, 3)])
  {
    var src := ScenarioSource();
    var jobs := [Event(None, None), Event(None, None)];
    var recur := [Event(Some("recur_job"), None)];
    assert src("create_job", minHeight, maxHeight) == Some([HourEvents(3600, jobs)]);
    assert src("execute_reply", minHeight, maxHeight) == Some([HourEvents(7200, recur)]);
    var created := EventCounter(src, "create_job", minHeight, maxHeight);
    assert |created.value| == 1 && created.value[0] == Aggregate(3600, CountEvents(jobs));
    assert created.value == [Aggregate(3600, 2)];
    var reply := EventAggregator(src, "execute_reply", minHeight, maxHeight, RecurJobCount);
    assert RecurJobCount(recur) == 1;
    assert |reply.value| == 1 && reply.value[0] == Aggregate(7200, 1);
    assert reply.value == [Aggregate(7200, 1)];
    CombineMisaligned();
  }

  lemma OneRange(g: Granularity, t: int)
    ensures Ranges(g, [t]) == [TimeRange(BucketStart(g, t), BucketEnd(g, BucketStart(g, t)))]
  {
    var b := BucketStart(g, t);
    assert Truncated(g, [t]) == [b];
    assert Distinct([b]) == [b];
  }

  /** A series with one point on 1970-01-01 is cascaded over that day and
      over January 1970. */
  lemma FirstDayRanges(t: int)
    requires 0 <= t < SecondsPerDay
    ensures DailyRanges([t]) == [TimeRange(0, 86399)]
    ensures MonthlyRanges([t]) == [TimeRange(0, 2678399)]
  {
    OneRange(Day, t);
    OneRange(Month, t);
    assert t / SecondsPerDay == 0;
    assert BucketStart(Day, t) == 0;
    FirstMonth(t);
  }

  /** A single hourly point on 1970-01-01 written into an empty table: the
      hourly partition holds that point only, and the day and the month
      both total its value. */
  lemma SinglePointPipeline(key: string, t: int, v: int)
    requires 0 <= t < SecondsPerDay
    ensures var r := RunPipeline(map[], key, [Aggregate(t, v)]);
      (forall u :: Lookup(r, (HourlyKey(key), u)) == if u == t then Some(v) else None) &&
      Lookup(r, (DailyKey(key), 0)) == Some(v) &&
      Lookup(r, (MonthlyKey(key), 0)) == Some(v)
  {
    var r := RunPipeline(map[], key, [Aggregate(t, v)]);
    SingleHourly(key, t, v);
    SingleDaily(key, t, v);
    SingleConsistent(key, t, v);
    SingleTotals(r, HourlyKey(key), DailyKey(key), MonthlyKey(key), t, v);
  }

  lemma SingleConsistent(key: string, t: int, v: int)
    requires 0 <= t < SecondsPerDay
    ensures var r := RunPipeline(map[], key, [Aggregate(t, v)]);
      Lookup(r, (DailyKey(key), 0)) == Some(RangeTotal(r, HourlyKey(key), 0, 86399)) &&
      Lookup(r, (MonthlyKey(key), 0)) == Some(RangeTotal(r, DailyKey(key), 0, 2678399))
  {
    FirstDayRanges(t);
    assert Timestamps([Aggregate(t, v)]) == [t];
    PipelineConsistent(map[], key, [Aggregate(t, v)]);
  }

  lemma SingleTotals(r: Store, H: string, D: string, M: string, t: int, v: int)
    requires 0 <= t < SecondsPerDay
    requires forall u :: Lookup(r, (H, u)) == if u == t then Some(v) else None
    requires forall u :: u != 0 ==> Lookup(r, (D, u)) == None
    requires Lookup(r, (D, 0)) == Some(RangeTotal(r, H, 0, 86399))
    requires Lookup(r, (M, 0)) == Some(RangeTotal(r, D, 0, 2678399))
    ensures Lookup(r, (D, 0)) == Some(v) && Lookup(r, (M, 0)) == Some(v)
  {
    assert Lookup(r, (H, t)) == Some(v);
    assert forall u :: u != t ==> (H, u) !in r by {
      forall u | u != t ensures (H, u) !in r {
        assert Lookup(r, (H, u)) == None;
      }
    }
    RangeTotalSingle(r, H, 0, t, 86399);
    RangeTotalSingle(r, D, 0, 0, 2678399);
  }

  lemma SingleHourly(key: string, t: int, v: int)
    ensures var r := RunPipeline(map[], key, [Aggregate(t, v)]);
      forall u :: Lookup(r, (HourlyKey(key), u)) == if u == t then Some(v) else None
  {
    var H := HourlyKey(key);
    var aggs := [Aggregate(t, v)];
    var es := ToEntities(H, aggs);
    var hourly: Store := Put(map[], es);
    PipelineHourly(map[], key, aggs);
    assert es == [Entity(H, t, v)];
    forall u ensures Lookup(hourly, (H, u)) == if u == t then Some(v) else None {
      assert LastWrite(es, (H, u)) == if u == t then Some(v) else None;
    }
  }

  lemma SingleDaily(key: string, t: int, v: int)
    requires 0 <= t < SecondsPerDay
    ensures var r := RunPipeline(map[], key, [Aggregate(t, v)]);
      forall u :: u != 0 ==> Lookup(r, (DailyKey(key), u)) == None
  {
    var H, D := HourlyKey(key), DailyKey(key);
    var aggs := [Aggregate(t, v)];
    var es := ToEntities(H, aggs);
    assert Timestamps(aggs) == [t];
    FirstDayRanges(t);
    SeriesKeysDistinct(key);
    PutOutside(map[], es, H, D);
    DailyOnlyAt(Put(map[], es), key, [t], 0);
  }

  /** When every daily range starts at `b` and the daily partition was
      empty, a pipeline leaves daily entries at `b` only. */
  lemma DailyOnlyAt(hourly: Store, key: string, ts: seq<int>, b: int)
    requires forall i :: 0 <= i < |DailyRanges(ts)| ==> DailyRanges(ts)[i].from == b
    requires AgreeOn(hourly, map[], DailyKey(key))
    ensures var daily := Cascade(hourly, HourlyKey(key), DailyKey(key), DailyRanges(ts));
      forall u :: u != b ==> Lookup(Cascade(daily, DailyKey(key), MonthlyKey(key), MonthlyRanges(ts)), (DailyKey(key), u)) == None
  {
    var H, D, M := HourlyKey(key), DailyKey(key), MonthlyKey(key);
    var daily := Cascade(hourly, H, D, DailyRanges(ts));
    SeriesKeysDistinct(key);
    CascadeFrame(daily, D, M, MonthlyRanges(ts), D);
    forall u | u != b ensures Lookup(daily, (D, u)) == None {
      CascadeUntouched(hourly, H, D, DailyRanges(ts), u);
    }
  }

  /** The pass as written on the example: hour 3600 holds 3 (its two jobs
      plus the recurring job of hour 7200, which sits at the same position of
      its series), hour 7200 holds nothing, and the day and the month both
      total 3. */
  lemma CreateJobScenario(minHeight: int, maxHeight: int)
    ensures var r := RunAll(map[], ScenarioSource(), minHeight, maxHeight, [CreateJob]);
      r.outcome == Completed &&
      Lookup(r.store, (HourlyKey("create_job_count"), 3600)) == Some(3) &&
      Lookup(r.store, (HourlyKey("create_job_count"), 7200)) == None &&
      Lookup(r.store, (DailyKey("create_job_count"), 0)) == Some(3) &&
      Lookup(r.store, (MonthlyKey("create_job_count"), 0)) == Some(3)
  {
    ScenarioFetch(minHeight, maxHeight);
    RunAllHead(map[], ScenarioSource(), minHeight, maxHeight, CreateJob, []);
    assert [CreateJob] + [] == [CreateJob];
    SinglePointPipeline("create_job_count", 3600, 3);
  }
}
