/**
 * Adding rows into the buckets of a chart one at a time, in any order: whatever has been
 * added so far and whatever the rows not yet read amount to always make up the chart.
 */
module Accounts {
  import opened Prelude
  import opened HistoryStats
  import opened Tiers
  import opened History
  import opened Sums
  import opened Chart
  import opened Plans
  import opened Query
  import Promises
  import Rollup

  type Output = map<string, seq<OutBucket>>

  /** One reading of the tables: the selected epochs and the layout of the output. */
  datatype Reading = Reading(h: History, r: Request, plan: Plan, now: int, ids: set<int>)

  /** A bucket before any row has been added. */
  ghost function Frame(c: Reading, key: string, k: int): OutBucket {
    var eligible := Total(Keyed(c.h, c.r, c.ids, key), Eligibles(c.h, c.plan, c.now, k));
    OutBucket(Edge(c.plan, k), CellEnd(c.plan, k), eligible, ZERO, None)
  }

  /** `rest` is the tables without the rows already added. */
  ghost predicate BalancedAt(b: OutBucket, c: Reading, rest: History, key: string, k: int)
    requires c.plan.group >= 0
  {
    var mine := Keyed(c.h, c.r, c.ids, key);
    && b == Frame(c, key, k).(stats := b.stats)
    && Merge(b.stats, Sum(mine, Cells(rest, c.plan, c.now, k))) == Sum(mine, Cells(c.h, c.plan, c.now, k))
  }

  ghost predicate Balanced(out: Output, c: Reading, rest: History)
    requires c.plan.group >= 0
  {
    && out.Keys == KeysOf(c.h, c.r, c.ids)
    && forall key :: key in out ==>
         |out[key]| == c.plan.count && forall k :: 0 <= k < c.plan.count ==> BalancedAt(out[key][k], c, rest, key, k)
  }

  /** Every bucket of the series in `keys` gains `moved` of its index; nothing else changes. */
  ghost predicate Charged(before: Output, after: Output, keys: set<string>, moved: int -> Stats) {
    && after.Keys == before.Keys
    && forall key :: key in before ==>
         |after[key]| == |before[key]|
         && forall k :: 0 <= k < |before[key]| ==>
              after[key][k] == if key in keys then Gains(before[key][k], moved(k)) else before[key][k]
  }

  function Gains(b: OutBucket, moved: Stats): OutBucket {
    b.(stats := Merge(b.stats, moved))
  }

  /** `moved` has been taken out of the cell of `id` and out of no other. */
  ghost predicate MovedFrom(c: Reading, rest: History, left: History, id: int, moved: Stats, k: int, other: int)
    requires c.plan.group >= 0
  {
    EpochCell(rest, c.plan, c.now, other, k)
    == if other == id then Merge(moved, EpochCell(left, c.plan, c.now, other, k))
       else EpochCell(left, c.plan, c.now, other, k)
  }

  ghost predicate MovedCell(c: Reading, rest: History, left: History, id: int, moved: Stats, k: int)
    requires c.plan.group >= 0
  {
    forall other :: MovedFrom(c, rest, left, id, moved, k, other)
  }

  lemma MovesAt(b: OutBucket, c: Reading, rest: History, left: History, id: int, moved: Stats, key: string, k: int)
    requires c.plan.group >= 0 && BalancedAt(b, c, rest, key, k)
    requires id in c.ids && id in c.h.epochs && MovedCell(c, rest, left, id, moved, k)
    ensures BalancedAt(if key in Labels(c.h.epochs[id], c.r) then Gains(b, moved) else b, c, left, key, k)
  {
    hide Merge, EpochCell, Labels, Frame, Sum;
    var mine := Keyed(c.h, c.r, c.ids, key);
    forall other
      ensures Cells(rest, c.plan, c.now, k)(other)
        == if other == id then Merge(moved, Cells(left, c.plan, c.now, k)(other))
           else Cells(left, c.plan, c.now, k)(other)
    {
      assert MovedFrom(c, rest, left, id, moved, k, other);
    }
    SumMoves(mine, Cells(rest, c.plan, c.now, k), Cells(left, c.plan, c.now, k), id, moved);
    MergeAssociates(b.stats, moved, Sum(mine, Cells(left, c.plan, c.now, k)));
  }

  /** Adding a row to the output and taking it out of the tables keeps the account. */
  lemma Moves(before: Output, after: Output, c: Reading, rest: History, left: History, id: int, moved: int -> Stats)
    requires c.plan.group >= 0 && Balanced(before, c, rest)
    requires id in c.ids && id in c.h.epochs && Charged(before, after, Labels(c.h.epochs[id], c.r), moved)
    requires forall k :: 0 <= k < c.plan.count ==> MovedCell(c, rest, left, id, moved(k), k)
    ensures Balanced(after, c, left)
  {
    hide BalancedAt, MovedCell, Labels, KeysOf, Gains;
    forall key, k | key in after && 0 <= k < c.plan.count
      ensures BalancedAt(after[key][k], c, left, key, k)
    {
      MovesAt(before[key][k], c, rest, left, id, moved(k), key, k);
    }
  }

  // ----- a bucket row -----

  function WithoutRow(h: History, row: BucketKey): History {
    h.(buckets := h.buckets - {row})
  }

  function RowMoved(plan: Plan, row: BucketKey, stats: Stats, k: int): Stats {
    if Edge(plan, k) <= row.start < Edge(plan, k + 1) then stats else ZERO
  }

  lemma RowAtWithoutRow(h: History, plan: Plan, row: BucketKey, id: int, start: int)
    requires row in h.buckets && row.resolution == plan.source && plan.retained <= row.start < plan.to
    ensures RowAt(h, plan, id, start)
      == Merge(if id == row.epoch && start == row.start then h.buckets[row] else ZERO,
               RowAt(WithoutRow(h, row), plan, id, start))
  {
    hide Merge;
    MergeZero(RowAt(h, plan, id, start));
  }

  lemma {:induction false} RangeWithoutRow(h: History, plan: Plan, row: BucketKey, id: int, start: int, n: nat)
    requires IsTier(plan.source) && row in h.buckets && row.resolution == plan.source
    requires plan.retained <= row.start < plan.to && Aligned(row.start, plan.source) && Aligned(start, plan.source)
    ensures StoredRange(h, plan, id, start, n)
      == Merge(if id == row.epoch && start <= row.start < start + n * Width(plan.source) then h.buckets[row] else ZERO,
               StoredRange(WithoutRow(h, row), plan, id, start, n))
  {
    hide Merge, Aligned, RowAt;
    MergeZero(ZERO);
    if n > 0 {
      var w, s, left := Width(plan.source), h.buckets[row], WithoutRow(h, row);
      var last := start + (n - 1) * w;
      RangeWithoutRow(h, plan, row, id, start, n - 1);
      RowAtWithoutRow(h, plan, row, id, last);
      StepsAligned(start, n - 1, plan.source);
      assert last + w == start + n * w;
      if last < row.start {
        AlignedApart(last, row.start, plan.source);
      }
      var before := if id == row.epoch && start <= row.start < last then s else ZERO;
      var at := if id == row.epoch && last == row.start then s else ZERO;
      MergeSwap(before, StoredRange(left, plan, id, start, n - 1), at, RowAt(left, plan, id, last));
      MergeZero(s);
    }
  }

  lemma RowMoves(c: Reading, config: HistoryConfig, rest: History, row: BucketKey, k: int)
    requires PlanOk(c.plan, config, c.now) && row in rest.buckets
    requires row.resolution == c.plan.source && Aligned(row.start, c.plan.source)
    requires c.plan.retained <= row.start < c.plan.to
    ensures c.plan.group > 0
    ensures MovedCell(c, rest, WithoutRow(rest, row), row.epoch, RowMoved(c.plan, row, rest.buckets[row], k), k)
  {
    hide PlanOk, Aligned, MovedFrom, RowMoved, Edge;
    PlanEdges(c.plan, config, c.now, k);
    PlanTier(c.plan, config, c.now);
    forall other
      ensures MovedFrom(
        c, rest, WithoutRow(rest, row), row.epoch, RowMoved(c.plan, row, rest.buckets[row], k), k, other)
    {
      RowMovesFrom(c, rest, row, k, other);
    }
  }

  lemma RowMovesFrom(c: Reading, rest: History, row: BucketKey, k: int, other: int)
    requires c.plan.group > 0 && IsTier(c.plan.source) && row in rest.buckets
    requires row.resolution == c.plan.source && Aligned(row.start, c.plan.source)
    requires c.plan.retained <= row.start < c.plan.to
    requires Aligned(Edge(c.plan, k), c.plan.source)
    requires Edge(c.plan, k + 1) == Edge(c.plan, k) + c.plan.group * Width(c.plan.source)
    ensures MovedFrom(c, rest, WithoutRow(rest, row), row.epoch, RowMoved(c.plan, row, rest.buckets[row], k), k, other)
  {
    hide Merge, Aligned, StoredRange, Pending, TailIn, Edge, WindowStart, CellEnd;
    var left := WithoutRow(rest, row);
    var rows := StoredRange(left, c.plan, other, Edge(c.plan, k), c.plan.group);
    var from, to := WindowStart(c.plan, k), CellEnd(c.plan, k);
    RangeWithoutRow(rest, c.plan, row, other, Edge(c.plan, k), c.plan.group);
    SameTail(rest, left, c.now, other, from, to);
    MergeZero(rows);
    MergeAssociates(RowMoved(c.plan, row, rest.buckets[row], k), rows,
                    Merge(Pending(rest.spans, other, from, to), TailIn(rest, c.now, other, from, to)));
  }

  // ----- a queued span -----

  function Emptied(spans: seq<Span>, i: nat): seq<Span>
    requires i < |spans|
  {
    spans[i := spans[i].(cursor := spans[i].end)]
  }

  function WithoutSpan(h: History, i: nat): History
    requires i < |h.spans|
  {
    h.(spans := Emptied(h.spans, i))
  }

  function TimeMoved(plan: Plan, o: Observation, start: int, end: int, k: int): Stats {
    DurationStats(o, Clip(start, end, WindowStart(plan, k), CellEnd(plan, k)))
  }

  lemma {:induction false} PendingWithoutSpan(spans: seq<Span>, i: nat, id: int, from: int, to: int)
    requires i < |spans|
    ensures Pending(spans, id, from, to)
         == Merge(SpanIn(spans[i], id, from, to), Pending(Emptied(spans, i), id, from, to))
  {
    hide Merge, DurationStats, Clip;
    var span, rest := spans[0], spans[1..];
    if i == 0 {
      assert Emptied(spans, 0)[1..] == rest;
      Rollup.ClipEmpty(span.end, from, to);
      NoDuration(span.observation);
      MergeZero(Pending(rest, id, from, to));
    } else {
      var left := Emptied(rest, i - 1);
      PendingWithoutSpan(rest, i - 1, id, from, to);
      assert Emptied(spans, i)[1..] == left;
      var a, b := SpanIn(span, id, from, to), SpanIn(spans[i], id, from, to);
      MergeAssociates(a, b, Pending(left, id, from, to));
      MergeCommutes(a, b);
      MergeAssociates(b, a, Pending(left, id, from, to));
    }
  }

  lemma SpanMoves(c: Reading, rest: History, i: nat, k: int)
    requires c.plan.group >= 0 && i < |rest.spans|
    ensures var span := rest.spans[i];
      MovedCell(
        c, rest, WithoutSpan(rest, i), span.epoch,
        TimeMoved(c.plan, span.observation, span.cursor, span.end, k), k)
  {
    hide MovedFrom, TimeMoved, Emptied;
    var span := rest.spans[i];
    forall other
      ensures MovedFrom(c, rest, WithoutSpan(rest, i), span.epoch,
                        TimeMoved(c.plan, span.observation, span.cursor, span.end, k), k, other)
    {
      SpanMovesFrom(c, rest, i, k, other);
    }
  }

  lemma SpanMovesFrom(c: Reading, rest: History, i: nat, k: int, other: int)
    requires c.plan.group >= 0 && i < |rest.spans|
    ensures var span := rest.spans[i];
      MovedFrom(c, rest, WithoutSpan(rest, i), span.epoch,
                TimeMoved(c.plan, span.observation, span.cursor, span.end, k), k, other)
  {
    hide Merge, StoredRange, Pending, TailIn, Edge, WindowStart, CellEnd, DurationStats, Clip, Emptied;
    var left, from, to := WithoutSpan(rest, i), WindowStart(c.plan, k), CellEnd(c.plan, k);
    PendingWithoutSpan(rest.spans, i, other, from, to);
    MergeZero(Pending(left.spans, other, from, to));
    SameRange(rest, left, c.plan, other, Edge(c.plan, k), c.plan.group);
    SameTail(rest, left, c.now, other, from, to);
    MoveMiddle(StoredRange(rest, c.plan, other, Edge(c.plan, k), c.plan.group), SpanIn(rest.spans[i], other, from, to),
               Pending(left.spans, other, from, to), TailIn(rest, c.now, other, from, to));
  }

  lemma MoveMiddle(rows: Stats, moved: Stats, queue: Stats, tail: Stats)
    ensures Merge(rows, Merge(Merge(moved, queue), tail)) == Merge(moved, Merge(rows, Merge(queue, tail)))
  {
    hide Merge;
    MergeAssociates(moved, queue, tail);
    MergeAssociates(rows, moved, Merge(queue, tail));
    MergeCommutes(rows, moved);
    MergeAssociates(moved, rows, Merge(queue, tail));
  }

  lemma {:induction false} SameRange(h: History, left: History, plan: Plan, id: int, start: int, n: nat)
    requires h.buckets == left.buckets
    ensures StoredRange(h, plan, id, start, n) == StoredRange(left, plan, id, start, n)
  {
    hide Merge;
    if n > 0 {
      SameRange(h, left, plan, id, start, n - 1);
    }
  }

  lemma SameTail(h: History, left: History, now: int, id: int, from: int, to: int)
    requires h.epochs == left.epochs
    ensures TailIn(h, now, id, from, to) == TailIn(left, now, id, from, to)
  {
  }

  // ----- a live tail -----

  function WithoutTail(h: History, id: int): History
    requires id in h.epochs
  {
    h.(epochs := h.epochs[id := h.epochs[id].(last := None)])
  }

  lemma TailMoves(c: Reading, rest: History, id: int, k: int)
    requires c.plan.group >= 0 && id in rest.epochs
    ensures MovedCell(c, rest, WithoutTail(rest, id), id,
                      TailIn(rest, c.now, id, WindowStart(c.plan, k), CellEnd(c.plan, k)), k)
  {
    hide MovedFrom, TailIn, WithoutTail, WindowStart, CellEnd;
    forall other
      ensures MovedFrom(c, rest, WithoutTail(rest, id), id,
                        TailIn(rest, c.now, id, WindowStart(c.plan, k), CellEnd(c.plan, k)), k, other)
    {
      TailMovesFrom(c, rest, id, k, other);
    }
  }

  lemma TailMovesFrom(c: Reading, rest: History, id: int, k: int, other: int)
    requires c.plan.group >= 0 && id in rest.epochs
    ensures MovedFrom(c, rest, WithoutTail(rest, id), id,
                      TailIn(rest, c.now, id, WindowStart(c.plan, k), CellEnd(c.plan, k)), k, other)
  {
    hide Merge, StoredRange, Pending, Edge, WindowStart, CellEnd, HeldBy, EndAt;
    var left, from, to := WithoutTail(rest, id), WindowStart(c.plan, k), CellEnd(c.plan, k);
    SameRange(rest, left, c.plan, other, Edge(c.plan, k), c.plan.group);
    assert other != id ==> TailIn(rest, c.now, other, from, to) == TailIn(left, c.now, other, from, to);
    MoveLast(StoredRange(rest, c.plan, other, Edge(c.plan, k), c.plan.group), Pending(rest.spans, other, from, to),
             TailIn(rest, c.now, other, from, to));
  }

  lemma MoveLast(rows: Stats, queue: Stats, tail: Stats)
    ensures Merge(rows, Merge(queue, tail)) == Merge(tail, Merge(rows, Merge(queue, ZERO)))
  {
    hide Merge;
    MergeZero(queue);
    MergeCommutes(queue, tail);
    MergeAssociates(rows, tail, queue);
    MergeCommutes(rows, tail);
    MergeAssociates(tail, rows, queue);
  }

  // ----- the end -----

  /** None of the rows the chart reads is left. */
  ghost predicate Drained(c: Reading, rest: History) {
    && BucketRows(rest, c.plan, c.ids) == {}
    && (forall i :: 0 <= i < |rest.spans| && rest.spans[i].epoch in c.ids ==>
          || rest.spans[i].cursor == rest.spans[i].end
          || rest.spans[i].end <= c.plan.from
          || c.plan.to <= rest.spans[i].cursor)
    && (forall id :: id in c.ids && id in rest.epochs ==> rest.epochs[id].last.None?)
  }

  lemma {:induction false} NothingQueued(spans: seq<Span>, id: int, from: int, to: int)
    requires forall i :: 0 <= i < |spans| && spans[i].epoch == id ==> Clip(spans[i].cursor, spans[i].end, from, to) == 0
    ensures Pending(spans, id, from, to) == ZERO
  {
    hide Merge, Clip;
    if spans != [] {
      NothingQueued(spans[1..], id, from, to);
      NoDuration(spans[0].observation);
      MergeZero(ZERO);
    }
  }

  /** No row before the start of the range falls in any bucket of it. */
  lemma {:induction false} NoRowsLeft(c: Reading, rest: History, id: int, start: int, n: nat)
    requires BucketRows(rest, c.plan, c.ids) == {} && id in c.ids && c.plan.from <= start && IsTier(c.plan.source)
    ensures StoredRange(rest, c.plan, id, start, n) == ZERO
  {
    hide Merge;
    if n > 0 {
      NoRowsLeft(c, rest, id, start, n - 1);
      var at := start + (n - 1) * Width(c.plan.source);
      assert at >= start;
      assert BucketKey(id, c.plan.source, at) !in BucketRows(rest, c.plan, c.ids);
      MergeZero(ZERO);
    }
  }

  lemma DrainedCell(c: Reading, config: HistoryConfig, rest: History, id: int, k: int)
    requires PlanOk(c.plan, config, c.now) && Drained(c, rest) && id in c.ids && 0 <= k < c.plan.count
    ensures c.plan.group > 0 && EpochCell(rest, c.plan, c.now, id, k) == ZERO
  {
    hide Merge, PlanOk, BucketRows, Edge, StoredRange, Pending;
    PlanEdges(c.plan, config, c.now, k);
    PlanTier(c.plan, config, c.now);
    WindowInRange(c.plan, config, c.now, k);
    FirstEdge(c.plan, config, c.now, k);
    NoRowsLeft(c, rest, id, Edge(c.plan, k), c.plan.group);
    NothingQueued(rest.spans, id, WindowStart(c.plan, k), CellEnd(c.plan, k));
    MergeZero(ZERO);
  }

  lemma FirstEdge(plan: Plan, config: HistoryConfig, now: int, k: nat)
    requires PlanOk(plan, config, now)
    ensures plan.from <= Edge(plan, k)
  {
    hide Boundary, Aligned;
    assert k * PlanWidth(plan) >= 0;
  }

  /** When every row has been read the output is the chart. */
  lemma Settles(out: Output, c: Reading, config: HistoryConfig, rest: History, key: string, k: int)
    requires PlanOk(c.plan, config, c.now) && c.plan.group > 0
    requires Drained(c, rest) && Balanced(out, c, rest) && key in out && 0 <= k < c.plan.count
    ensures out[key][k] == Frame(c, key, k).(stats := Sum(Keyed(c.h, c.r, c.ids, key), Cells(c.h, c.plan, c.now, k)))
  {
    hide Merge, PlanOk, Drained, EpochCell, Frame, Keyed, KeysOf;
    var mine := Keyed(c.h, c.r, c.ids, key);
    Promises.KeyedAreRows(c.h, c.r, c.ids, key);
    forall id | id in mine
      ensures Cells(rest, c.plan, c.now, k)(id) == ZERO
    {
      DrainedCell(c, config, rest, id, k);
    }
    SumZero(mine, Cells(rest, c.plan, c.now, k));
    assert BalancedAt(out[key][k], c, rest, key, k);
    MergeZero(out[key][k].stats);
  }

  /** Before any row has been read. */
  lemma Opens(out: Output, c: Reading)
    requires c.plan.group >= 0 && out.Keys == KeysOf(c.h, c.r, c.ids)
    requires forall key :: key in out ==>
      |out[key]| == c.plan.count && forall k :: 0 <= k < c.plan.count ==> out[key][k] == Frame(c, key, k)
    ensures Balanced(out, c, c.h)
  {
    hide Merge, EpochCell, Frame, Keyed, KeysOf;
    forall key, k | key in out && 0 <= k < c.plan.count
      ensures BalancedAt(out[key][k], c, c.h, key, k)
    {
      MergeZero(Sum(Keyed(c.h, c.r, c.ids, key), Cells(c.h, c.plan, c.now, k)));
      FrameIsEmpty(c, key, k);
    }
  }

  lemma FrameIsEmpty(c: Reading, key: string, k: int)
    ensures Frame(c, key, k).stats == ZERO
  {
  }
}
