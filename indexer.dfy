/** The analytics indexer as an object: the table and the saved height it
    updates in place, with one method per step of an indexing pass. Each
    method is proved to leave exactly the state the pipeline functions
    describe. */
module AnalyticsIndexer {
  import opened Wrappers
  import opened Calendar
  import opened AnalyticsStore
  import opened Rollup
  import opened Pipelines

  class Indexer {
    /** The analytics table. */
    var store: Store
    /** The height the last completed pass indexed up to, if any. */
    var checkpoint: Option<int>

    /** A fresh indexer: an empty table and no saved height. */
    constructor()
      ensures store == map[] && checkpoint == None
    {
      store := map[];
      checkpoint := None;
    }

    /** Writes one entity per point of the series into partition `pk`. */
    method Save(pk: string, counts: seq<Aggregate>)
      modifies this
      ensures store == Put(old(store), ToEntities(pk, counts))
      ensures checkpoint == old(checkpoint)
    {
      var entities := ToEntities(pk, counts);
      store := Put(store, entities);
    }

    /** Totals partition `fromPK` over each range, all reads first, then
        writes one entity per range into partition `toPK`. */
    method Cascade(fromPK: string, toPK: string, timestamps: seq<TimeRange>)
      modifies this
      ensures store == Rollup.Cascade(old(store), fromPK, toPK, timestamps)
      ensures checkpoint == old(checkpoint)
    {
      var output: seq<Entity> := [];
      for i := 0 to |timestamps|
        invariant output == CascadeOutput(store, fromPK, toPK, timestamps[..i])
      {
        var range := timestamps[i];
        var entities := QueryRange(store, fromPK, range.from, range.to);
        output := output + [Entity(toPK, range.from, SumValues(entities))];
        assert timestamps[..i + 1][..i] == timestamps[..i];
      }
      assert timestamps[..|timestamps|] == timestamps;
      store := Put(store, output);
    }

    /** Cascades over the days of the given timestamps. */
    method CascadeDaily(fromPK: string, toPK: string, timestamps: seq<int>)
      modifies this
      ensures store == Rollup.Cascade(old(store), fromPK, toPK, DailyRanges(timestamps))
      ensures checkpoint == old(checkpoint)
    {
      var timestampRanges := Ranges(Day, timestamps);
      Cascade(fromPK, toPK, timestampRanges);
    }

    /** Cascades over the months of the given timestamps. */
    method CascadeMonthly(fromPK: string, toPK: string, timestamps: seq<int>)
      modifies this
      ensures store == Rollup.Cascade(old(store), fromPK, toPK, MonthlyRanges(timestamps))
      ensures checkpoint == old(checkpoint)
    {
      var timestampRanges := Ranges(Month, timestamps);
      Cascade(fromPK, toPK, timestampRanges);
    }

    /** Counts create_job events and recurring jobs per hour, combines them by
        position and saves and cascades the result; a failed read stops it
        before any write. */
    method HandleCreateJobEvents(src: EventSource, minHeight: int, maxHeight: int) returns (outcome: Outcome)
      modifies this
      ensures Run(store, outcome) == RunAll(old(store), src, minHeight, maxHeight, [CreateJob])
      ensures checkpoint == old(checkpoint)
    {
      RunAllHead(store, src, minHeight, maxHeight, CreateJob, []);
      assert [CreateJob] + [] == [CreateJob];
      var createJobAggregates := EventCounter(src, "create_job", minHeight, maxHeight);
      if createJobAggregates.Err? {
        return Aborted(createJobAggregates.error);
      }
      var executeReplyAggregates := EventAggregator(src, "execute_reply", minHeight, maxHeight, RecurJobCount);
      if executeReplyAggregates.Err? {
        return Aborted(executeReplyAggregates.error);
      }
      var combinedAggregates := CombineCreateJob(createJobAggregates.value, executeReplyAggregates.value);
      var key := "create_job_count";
      Save(MakePK([key, "hourly"]), combinedAggregates);
      CascadeDaily(MakePK([key, "hourly"]), MakePK([key, "daily"]), Timestamps(combinedAggregates));
      CascadeMonthly(MakePK([key, "daily"]), MakePK([key, "monthly"]), Timestamps(combinedAggregates));
      outcome := Completed;
    }

    /** Runs the create_job pipeline, then counts each listed action in turn;
        the first failed read stops the rest. */
    method UpdateEventCounts(src: EventSource, minHeight: int, maxHeight: int) returns (outcome: Outcome)
      modifies this
      ensures Run(store, outcome) == RunAll(old(store), src, minHeight, maxHeight, [CreateJob] + CountPipelines(CountedActions))
      ensures checkpoint == old(checkpoint)
    {
      var events := CountedActions;
      ghost var target := RunAll(old(store), src, minHeight, maxHeight, [CreateJob] + CountPipelines(events));
      RunAllAppend(old(store), src, minHeight, maxHeight, [CreateJob], CountPipelines(events));
      outcome := HandleCreateJobEvents(src, minHeight, maxHeight);
      if outcome.Aborted? {
        return;
      }
      for i := 0 to |events|
        invariant outcome == Completed && checkpoint == old(checkpoint)
        invariant RunAll(store, src, minHeight, maxHeight, CountPipelines(events)[i..]) == target
      {
        var event := events[i];
        ghost var before := store;
        ghost var rest := CountPipelines(events)[i + 1..];
        assert CountPipelines(events)[i..] == [EventCount(event)] + rest;
        RunAllHead(store, src, minHeight, maxHeight, EventCount(event), rest);
        var aggregates := EventCounter(src, event, minHeight, maxHeight);
        if aggregates.Err? {
          return Aborted(aggregates.error);
        }
        var key := event + "_count";
        Save(MakePK([key, "hourly"]), aggregates.value);
        CascadeDaily(MakePK([key, "hourly"]), MakePK([key, "daily"]), Timestamps(aggregates.value));
        CascadeMonthly(MakePK([key, "daily"]), MakePK([key, "monthly"]), Timestamps(aggregates.value));
        assert store == RunPipeline(before, MetricKey(EventCount(event)), aggregates.value);
        assert RunAll(store, src, minHeight, maxHeight, rest) == target;
      }
    }

    /** Sums the job rewards of executed jobs per hour, then saves and
        cascades them. */
    method UpdateRewardAmount(src: EventSource, minHeight: int, maxHeight: int) returns (outcome: Outcome)
      modifies this
      ensures Run(store, outcome) == RunAll(old(store), src, minHeight, maxHeight, [RewardAmount])
      ensures checkpoint == old(checkpoint)
    {
      RunAllHead(store, src, minHeight, maxHeight, RewardAmount, []);
      assert [RewardAmount] + [] == [RewardAmount];
      var aggregates := EventAggregator(src, "execute_job", minHeight, maxHeight, RewardTotal);
      if aggregates.Err? {
        return Aborted(aggregates.error);
      }
      var key := "reward_amount";
      store := Put(store, ToEntities(MakePK([key, "hourly"]), aggregates.value));
      CascadeDaily(MakePK([key, "hourly"]), MakePK([key, "daily"]), Timestamps(aggregates.value));
      CascadeMonthly(MakePK([key, "daily"]), MakePK([key, "monthly"]), Timestamps(aggregates.value));
      outcome := Completed;
    }

    /** One indexing pass from the saved height (the genesis height at
        first) up to the current height; the new height is saved only when
        every step completed. */
    method Index(src: EventSource, genesis: int, current: int) returns (outcome: Outcome)
      modifies this
      ensures PassResult(IndexState(store, checkpoint), outcome) ==
        IndexPass(IndexState(old(store), old(checkpoint)), src, genesis, current)
    {
      var height := checkpoint.GetOr(genesis);
      RunAllAppend(store, src, height, current, [CreateJob] + CountPipelines(CountedActions), [RewardAmount]);
      outcome := UpdateEventCounts(src, height, current);
      if outcome.Aborted? {
        return;
      }
      outcome := UpdateRewardAmount(src, height, current);
      if outcome.Aborted? {
        return;
      }
      checkpoint := Some(current);
    }
  }
}
