/** Rolling a finer metric up to a coarser one: grouping source timestamps
    into day or month buckets, and writing one entity per bucket whose value is
    the exact total of the finer entities inside the bucket. */
module Rollup {
  import opened Wrappers
  import opened Calendar
  import opened AnalyticsStore

  /** The distinct elements of `s` in order of first occurrence: the keys of
      a grouping of `s`. */
  function Distinct(s: seq<int>): (r: seq<int>)
    ensures forall x :: x in r <==> x in s
    ensures forall i, j :: 0 <= i < j < |r| ==> r[i] != r[j]
    ensures |r| <= |s|
  {
    if |s| == 0 then []
    else
      var r := Distinct(s[..|s| - 1]);
      assert forall x :: x in s <==> x in s[..|s| - 1] || x == s[|s| - 1];
      if s[|s| - 1] in r then r else r + [s[|s| - 1]]
  }

  /** An inclusive range of timestamps. */
  datatype TimeRange = TimeRange(from: int, to: int)

  predicate InRange(t: int, r: TimeRange) {
    r.from <= t <= r.to
  }

  /** The bucket start of every timestamp, in order. */
  function Truncated(g: Granularity, ts: seq<int>): (r: seq<int>)
    ensures |r| == |ts|
    ensures forall i :: 0 <= i < |ts| ==> r[i] == BucketStart(g, ts[i])
  {
    seq(|ts|, i requires 0 <= i < |ts| => BucketStart(g, ts[i]))
  }

  /** One range per group of `ts` by bucket start: from the bucket start to the
      last second before the next bucket. */
  function Ranges(g: Granularity, ts: seq<int>): seq<TimeRange> {
    var starts := Distinct(Truncated(g, ts));
    seq(|starts|, i requires 0 <= i < |starts| => TimeRange(starts[i], BucketEnd(g, starts[i])))
  }

  /** The ranges of a daily cascade: [d, d + 86400 - 1] per distinct day d. */
  function DailyRanges(ts: seq<int>): seq<TimeRange> {
    Ranges(Day, ts)
  }

  /** The ranges of a monthly cascade: [m, nextMonthStart(m) - 1] per distinct
      month start m. */
  function MonthlyRanges(ts: seq<int>): seq<TimeRange> {
    Ranges(Month, ts)
  }

  /** Each range is a whole bucket, the bucket of some source timestamp; there
      are at most as many ranges as timestamps, and no two share a start. */
  lemma RangesShape(g: Granularity, ts: seq<int>)
    ensures |Ranges(g, ts)| <= |ts|
    ensures forall i :: 0 <= i < |Ranges(g, ts)| ==>
      var r := Ranges(g, ts)[i];
      IsBucketStart(g, r.from) && r.to == BucketEnd(g, r.from) && r.from <= r.to &&
      exists j :: 0 <= j < |ts| && BucketStart(g, ts[j]) == r.from
    ensures forall i, j :: 0 <= i < j < |Ranges(g, ts)| ==> Ranges(g, ts)[i].from != Ranges(g, ts)[j].from
  {
    var starts := Distinct(Truncated(g, ts));
    forall i | 0 <= i < |starts|
      ensures IsBucketStart(g, starts[i]) && starts[i] <= BucketEnd(g, starts[i])
      ensures exists j :: 0 <= j < |ts| && BucketStart(g, ts[j]) == starts[i]
    {
      assert starts[i] in Truncated(g, ts);
      var j :| 0 <= j < |ts| && Truncated(g, ts)[j] == starts[i];
      BucketContains(g, ts[j]);
      NextBucketIsStart(g, starts[i]);
    }
  }

  /** Ranges of different groups do not overlap. */
  lemma RangesDisjoint(g: Granularity, ts: seq<int>, i: int, j: int)
    requires 0 <= i < |Ranges(g, ts)| && 0 <= j < |Ranges(g, ts)| && i != j
    ensures Ranges(g, ts)[i].to < Ranges(g, ts)[j].from || Ranges(g, ts)[j].to < Ranges(g, ts)[i].from
  {
    RangesShape(g, ts);
    var a, b := Ranges(g, ts)[i], Ranges(g, ts)[j];
    if a.from < b.from {
      BucketsDisjoint(g, a.from, b.from);
    } else {
      BucketsDisjoint(g, b.from, a.from);
    }
  }

  /** Every source timestamp lies in exactly one range: the range of its own
      bucket. Timestamps of one bucket therefore share a single range. */
  lemma RangesCover(g: Granularity, ts: seq<int>, t: int)
    requires t in ts
    ensures exists i :: 0 <= i < |Ranges(g, ts)| && Ranges(g, ts)[i].from == BucketStart(g, t) && InRange(t, Ranges(g, ts)[i])
    ensures forall i :: 0 <= i < |Ranges(g, ts)| && InRange(t, Ranges(g, ts)[i]) ==> Ranges(g, ts)[i].from == BucketStart(g, t)
  {
    RangesShape(g, ts);
    var starts := Distinct(Truncated(g, ts));
    var rs := Ranges(g, ts);
    var j :| 0 <= j < |ts| && ts[j] == t;
    assert BucketStart(g, t) in Truncated(g, ts);
    var i :| 0 <= i < |starts| && starts[i] == BucketStart(g, t);
    BucketContains(g, t);
    assert InRange(t, rs[i]);
    forall k | 0 <= k < |rs| && InRange(t, rs[k]) ensures rs[k].from == BucketStart(g, t) {
      BucketUnique(g, rs[k].from, t);
    }
  }

  /** The entities a cascade writes, one per range, built before any write. */
  function CascadeOutput(s: Store, fromPK: string, toPK: string, ranges: seq<TimeRange>): (out: seq<Entity>)
    ensures |out| == |ranges|
    ensures forall i :: 0 <= i < |ranges| ==>
      out[i] == Entity(toPK, ranges[i].from, RangeTotal(s, fromPK, ranges[i].from, ranges[i].to))
  {
    if |ranges| == 0 then []
    else
      var last := ranges[|ranges| - 1];
      CascadeOutput(s, fromPK, toPK, ranges[..|ranges| - 1]) + [Entity(toPK, last.from, RangeTotal(s, fromPK, last.from, last.to))]
  }

  /** The store after a cascade. */
  function Cascade(s: Store, fromPK: string, toPK: string, ranges: seq<TimeRange>): Store {
    Put(s, CascadeOutput(s, fromPK, toPK, ranges))
  }

  /** A range without finer entities still gets an entity, with value 0. */
  lemma CascadeEmptyBucket(s: Store, fromPK: string, toPK: string, ranges: seq<TimeRange>, i: int)
    requires 0 <= i < |ranges|
    requires forall t :: ranges[i].from <= t <= ranges[i].to ==> (fromPK, t) !in s
    ensures CascadeOutput(s, fromPK, toPK, ranges)[i] == Entity(toPK, ranges[i].from, 0)
  {
    RangeTotalEmpty(s, fromPK, ranges[i].from, ranges[i].to);
  }

  /** After a cascade with distinct range starts, the coarse entity of each
      range equals the exact total of the finer entities of that range in the
      resulting store, and every other partition is unchanged. */
  lemma CascadeConsistent(s: Store, fromPK: string, toPK: string, ranges: seq<TimeRange>)
    requires fromPK != toPK
    requires forall i, j :: 0 <= i < j < |ranges| ==> ranges[i].from != ranges[j].from
    ensures forall p :: p != toPK ==> AgreeOn(Cascade(s, fromPK, toPK, ranges), s, p)
    ensures forall i :: 0 <= i < |ranges| ==>
      Lookup(Cascade(s, fromPK, toPK, ranges), (toPK, ranges[i].from)) ==
      Some(RangeTotal(Cascade(s, fromPK, toPK, ranges), fromPK, ranges[i].from, ranges[i].to))
  {
    var out := CascadeOutput(s, fromPK, toPK, ranges);
    var r := Cascade(s, fromPK, toPK, ranges);
    assert AllIn(out, toPK);
    forall p | p != toPK ensures AgreeOn(r, s, p) {
      PutOutside(s, out, toPK, p);
    }
    forall i | 0 <= i < |ranges|
      ensures Lookup(r, (toPK, ranges[i].from)) == Some(RangeTotal(r, fromPK, ranges[i].from, ranges[i].to))
    {
      LastWriteAt(out, i);
      QueryRangeAgree(r, s, fromPK, ranges[i].from, ranges[i].to);
    }
  }

  /** A cascade only writes partition `toPK`; the store it leaves holds its
      output. */
  lemma CascadeWrites(s: Store, fromPK: string, toPK: string, ranges: seq<TimeRange>)
    ensures AllIn(CascadeOutput(s, fromPK, toPK, ranges), toPK)
    ensures Holds(Cascade(s, fromPK, toPK, ranges), CascadeOutput(s, fromPK, toPK, ranges))
  {
    PutHolds(s, CascadeOutput(s, fromPK, toPK, ranges));
  }

  /** What a cascade writes depends only on partition `fromPK`. */
  lemma CascadeOutputAgree(a: Store, b: Store, fromPK: string, toPK: string, ranges: seq<TimeRange>)
    requires AgreeOn(a, b, fromPK)
    ensures CascadeOutput(a, fromPK, toPK, ranges) == CascadeOutput(b, fromPK, toPK, ranges)
  {
    forall i | 0 <= i < |ranges|
      ensures CascadeOutput(a, fromPK, toPK, ranges)[i] == CascadeOutput(b, fromPK, toPK, ranges)[i]
    {
      QueryRangeAgree(a, b, fromPK, ranges[i].from, ranges[i].to);
    }
  }

  /** A cascade leaves every partition other than `toPK` untouched. */
  lemma CascadeFrame(s: Store, fromPK: string, toPK: string, ranges: seq<TimeRange>, other: string)
    requires other != toPK
    ensures AgreeOn(Cascade(s, fromPK, toPK, ranges), s, other)
  {
    CascadeWrites(s, fromPK, toPK, ranges);
    PutOutside(s, CascadeOutput(s, fromPK, toPK, ranges), toPK, other);
  }

  /** A cascade changes nothing in a store that agrees with `b` on the source
      partition and with the cascade of `b` on the target partition. */
  lemma CascadeNoOp(x: Store, b: Store, fromPK: string, toPK: string, ranges: seq<TimeRange>)
    requires AgreeOn(x, b, fromPK)
    requires AgreeOn(x, Cascade(b, fromPK, toPK, ranges), toPK)
    ensures Cascade(x, fromPK, toPK, ranges) == x
  {
    var out := CascadeOutput(b, fromPK, toPK, ranges);
    CascadeOutputAgree(x, b, fromPK, toPK, ranges);
    CascadeWrites(b, fromPK, toPK, ranges);
    HoldsTransfer(x, Cascade(b, fromPK, toPK, ranges), out, toPK);
    PutNoOp(x, out);
  }

  /** A cascade writes the target partition at range starts only. */
  lemma CascadeUntouched(s: Store, fromPK: string, toPK: string, ranges: seq<TimeRange>, u: int)
    requires forall i :: 0 <= i < |ranges| ==> ranges[i].from != u
    ensures Lookup(Cascade(s, fromPK, toPK, ranges), (toPK, u)) == Lookup(s, (toPK, u))
  {
    var out := CascadeOutput(s, fromPK, toPK, ranges);
    assert forall i :: 0 <= i < |out| ==> KeyOf(out[i]) != (toPK, u);
  }
}
