/** The analytics table: metric entities keyed by partition key (the metric
    name) and sort key (the bucket timestamp). Writes are upserts, and reads
    are range queries on the sort key within one partition. */
module AnalyticsStore {
  import opened Wrappers

  /** One stored point of a metric time series. */
  datatype Entity = Entity(metric: string, timestamp: int, value: int)

  /** Partition key and sort key of an entity. */
  function PK(e: Entity): string { e.metric }
  function SK(e: Entity): int { e.timestamp }

  type Key = (string, int)

  function KeyOf(e: Entity): Key { (PK(e), SK(e)) }

  /** The table: one value per (partition key, sort key). */
  type Store = map<Key, int>

  function Lookup(s: Store, k: Key): Option<int> {
    if k in s then Some(s[k]) else None
  }

  /** The value carried by the last entity of `es` whose key is `k`. */
  function LastWrite(es: seq<Entity>, k: Key): (r: Option<int>)
    ensures r.Some? <==> exists i :: 0 <= i < |es| && KeyOf(es[i]) == k
  {
    if |es| == 0 then None
    else if KeyOf(es[|es| - 1]) == k then Some(es[|es| - 1].value)
    else LastWrite(es[..|es| - 1], k)
  }

  /** Writes `es` in order: each entity creates or overwrites the entry under
      its key, so the last entity for a key wins and other keys keep their
      value. */
  function Put(s: Store, es: seq<Entity>): (r: Store)
    ensures forall k :: Lookup(r, k) == if LastWrite(es, k).Some? then LastWrite(es, k) else Lookup(s, k)
  {
    if |es| == 0 then s
    else Put(s, es[..|es| - 1])[KeyOf(es[|es| - 1]) := es[|es| - 1].value]
  }

  /** `s` already holds what writing `es` would leave under the keys of `es`. */
  ghost predicate Holds(s: Store, es: seq<Entity>) {
    forall k :: LastWrite(es, k).Some? ==> Lookup(s, k) == LastWrite(es, k)
  }

  /** `a` and `b` have the same entries in partition `pk`. */
  ghost predicate AgreeOn(a: Store, b: Store, pk: string) {
    forall t :: Lookup(a, (pk, t)) == Lookup(b, (pk, t))
  }

  /** Every entity of `es` belongs to partition `pk`. */
  predicate AllIn(es: seq<Entity>, pk: string) {
    forall i :: 0 <= i < |es| ==> es[i].metric == pk
  }

  lemma StoreExtensionality(a: Store, b: Store)
    requires forall k :: Lookup(a, k) == Lookup(b, k)
    ensures a == b
  {
    assert forall k :: k in a <==> k in b by {
      forall k ensures k in a <==> k in b {
        assert Lookup(a, k).Some? == Lookup(b, k).Some?;
      }
    }
    forall k | k in a ensures a[k] == b[k] {
      assert Lookup(a, k) == Lookup(b, k);
    }
  }

  /** After a write the store holds the written entities. */
  lemma PutHolds(s: Store, es: seq<Entity>)
    ensures Holds(Put(s, es), es)
  {
  }

  /** Writing what the store already holds changes nothing. */
  lemma PutNoOp(s: Store, es: seq<Entity>)
    requires Holds(s, es)
    ensures Put(s, es) == s
  {
    var r := Put(s, es);
    forall k ensures Lookup(r, k) == Lookup(s, k) {
      assert Lookup(r, k) == if LastWrite(es, k).Some? then LastWrite(es, k) else Lookup(s, k);
    }
    StoreExtensionality(r, s);
  }

  /** Repeating a write leaves the store as one write does. */
  lemma PutIdempotent(s: Store, es: seq<Entity>)
    ensures Put(Put(s, es), es) == Put(s, es)
  {
    PutHolds(s, es);
    PutNoOp(Put(s, es), es);
  }

  /** A write leaves the partitions it does not write to untouched. */
  lemma PutOutside(s: Store, es: seq<Entity>, pk: string, other: string)
    requires AllIn(es, pk) && other != pk
    ensures AgreeOn(Put(s, es), s, other)
  {
    forall t ensures Lookup(Put(s, es), (other, t)) == Lookup(s, (other, t)) {
      assert LastWrite(es, (other, t)).None?;
    }
  }

  /** Whether a store holds a write into one partition depends on that
      partition only. */
  lemma HoldsTransfer(a: Store, b: Store, es: seq<Entity>, pk: string)
    requires AllIn(es, pk) && AgreeOn(a, b, pk) && Holds(b, es)
    ensures Holds(a, es)
  {
    forall k | LastWrite(es, k).Some? ensures Lookup(a, k) == LastWrite(es, k) {
      var i :| 0 <= i < |es| && KeyOf(es[i]) == k;
      assert k == (pk, k.1);
    }
  }

  /** The last entity written under a key determines its value. */
  lemma {:induction false} LastWriteAt(es: seq<Entity>, i: int)
    requires 0 <= i < |es|
    requires forall j :: i < j < |es| ==> KeyOf(es[j]) != KeyOf(es[i])
    ensures LastWrite(es, KeyOf(es[i])) == Some(es[i].value)
  {
    if i < |es| - 1 {
      LastWriteAt(es[..|es| - 1], i);
    }
  }

  /** The entities of partition `pk` with sort key in [from, to], in ascending
      sort-key order: a BETWEEN query on the sort key. */
  function QueryRange(s: Store, pk: string, from: int, to: int): (r: seq<Entity>)
    ensures forall e :: e in r <==> e.metric == pk && from <= e.timestamp <= to && Lookup(s, (pk, e.timestamp)) == Some(e.value)
    ensures forall i, j :: 0 <= i < j < |r| ==> from <= r[i].timestamp < r[j].timestamp
    decreases if from <= to then to - from + 1 else 0
  {
    if from > to then []
    else (if (pk, from) in s then [Entity(pk, from, s[(pk, from)])] else []) + QueryRange(s, pk, from + 1, to)
  }

  /** The values of `es` added up from 0, left to right. */
  function SumValues(es: seq<Entity>): int {
    if |es| == 0 then 0 else SumValues(es[..|es| - 1]) + es[|es| - 1].value
  }

  /** The exact total of partition `pk` over [from, to]. */
  function RangeTotal(s: Store, pk: string, from: int, to: int): int {
    SumValues(QueryRange(s, pk, from, to))
  }

  lemma {:induction false} SumValuesAppend(a: seq<Entity>, b: seq<Entity>)
    ensures SumValues(a + b) == SumValues(a) + SumValues(b)
    decreases |b|
  {
    if |b| == 0 {
      assert a + b == a;
    } else {
      assert (a + b)[..|a + b| - 1] == a + b[..|b| - 1];
      SumValuesAppend(a, b[..|b| - 1]);
    }
  }

  /** A range query reads its own partition only. */
  lemma {:induction false} QueryRangeAgree(a: Store, b: Store, pk: string, from: int, to: int)
    requires AgreeOn(a, b, pk)
    ensures QueryRange(a, pk, from, to) == QueryRange(b, pk, from, to)
    decreases if from <= to then to - from + 1 else 0
  {
    if from <= to {
      assert Lookup(a, (pk, from)) == Lookup(b, (pk, from));
      QueryRangeAgree(a, b, pk, from + 1, to);
    }
  }

  /** A range query over [from, to] is the query over [from, mid] followed by
      the query over [mid + 1, to]. */
  lemma {:induction false} QueryRangeSplit(s: Store, pk: string, from: int, mid: int, to: int)
    requires from - 1 <= mid <= to
    ensures QueryRange(s, pk, from, to) == QueryRange(s, pk, from, mid) + QueryRange(s, pk, mid + 1, to)
    decreases mid - from
  {
    if from <= mid {
      QueryRangeSplit(s, pk, from + 1, mid, to);
      var head := if (pk, from) in s then [Entity(pk, from, s[(pk, from)])] else [];
      assert QueryRange(s, pk, from, mid) == head + QueryRange(s, pk, from + 1, mid);
    } else {
      assert QueryRange(s, pk, from, mid) == [];
    }
  }

  /** Totals over adjacent ranges add up. */
  lemma RangeTotalSplit(s: Store, pk: string, from: int, mid: int, to: int)
    requires from - 1 <= mid <= to
    ensures RangeTotal(s, pk, from, to) == RangeTotal(s, pk, from, mid) + RangeTotal(s, pk, mid + 1, to)
  {
    QueryRangeSplit(s, pk, from, mid, to);
    SumValuesAppend(QueryRange(s, pk, from, mid), QueryRange(s, pk, mid + 1, to));
  }

  /** A range with no stored entity totals 0. */
  lemma {:induction false} RangeTotalEmpty(s: Store, pk: string, from: int, to: int)
    requires forall t :: from <= t <= to ==> (pk, t) !in s
    ensures QueryRange(s, pk, from, to) == [] && RangeTotal(s, pk, from, to) == 0
    decreases if from <= to then to - from + 1 else 0
  {
    if from <= to {
      RangeTotalEmpty(s, pk, from + 1, to);
    }
  }

  /** A one-second range totals the entry stored there, or 0. */
  lemma RangeTotalPoint(s: Store, pk: string, t: int)
    ensures RangeTotal(s, pk, t, t) == Lookup(s, (pk, t)).GetOr(0)
  {
    assert QueryRange(s, pk, t + 1, t) == [];
    if (pk, t) in s {
      assert QueryRange(s, pk, t, t) == [Entity(pk, t, s[(pk, t)])];
      assert SumValues([Entity(pk, t, s[(pk, t)])]) == SumValues([]) + s[(pk, t)];
    }
  }

  lemma AgreeTrans(a: Store, b: Store, c: Store, pk: string)
    requires AgreeOn(a, b, pk) && AgreeOn(b, c, pk)
    ensures AgreeOn(a, c, pk)
  {
  }

  /** Writing into one partition changes nothing in a store that agrees on
      that partition with the result of the same write (on any store). */
  lemma PutNoOpFrom(x: Store, b: Store, es: seq<Entity>, pk: string)
    requires AllIn(es, pk) && AgreeOn(x, Put(b, es), pk)
    ensures Put(x, es) == x
  {
    PutHolds(b, es);
    HoldsTransfer(x, Put(b, es), es, pk);
    PutNoOp(x, es);
  }

  /** A range whose partition holds a single entry inside it totals that
      entry. */
  lemma RangeTotalSingle(s: Store, pk: string, from: int, t: int, to: int)
    requires from <= t <= to && (pk, t) in s
    requires forall u :: u != t ==> (pk, u) !in s
    ensures RangeTotal(s, pk, from, to) == s[(pk, t)]
  {
    RangeTotalEmpty(s, pk, from, t - 1);
    RangeTotalEmpty(s, pk, t + 1, to);
    RangeTotalPoint(s, pk, t);
    RangeTotalSplit(s, pk, from, t - 1, to);
    RangeTotalSplit(s, pk, t, t, to);
  }
}
