/**
 * Answering a history request from the tables: bucket rows, unfinished spans and live tails
 * are added one at a time, in whatever order they are read (`query` and `apply_span`,
 * src/storage/sqlite/history/query.rs:71-93 and 156-314).
 */
module HistoryQuery {
  import opened Prelude
  import opened HistoryStats
  import opened Tiers
  import opened History
  import opened Sums
  import opened Chart
  import opened Plans
  import opened Query
  import opened Accounts
  import opened HistoryDb
  import opened QuerySetup
  import Percentile
  import Promises

  // ----- adding to one bucket -----

  /** The bucket at `index` of every series in `keys` gains `stats`. */
  ghost predicate AddedAt(out: Output, after: Output, keys: set<string>, index: int, stats: Stats) {
    && after.Keys == out.Keys
    && forall key :: key in out ==>
         |after[key]| == |out[key]|
         && forall k :: 0 <= k < |out[key]| ==>
              after[key][k] == if key in keys && k == index then Gains(out[key][k], stats) else out[key][k]
  }

  lemma NoneAdded(out: Output, index: int, stats: Stats)
    ensures AddedAt(out, out, {}, index, stats)
  {
  }

  lemma AddedOne(out: Output, before: Output, done: set<string>, key: string, index: int, stats: Stats)
    requires AddedAt(out, before, done, index, stats) && key !in done
    ensures AddedAt(out, AddTo(before, key, index, stats), done + {key}, index, stats)
  {
    hide Gains;
  }

  /** A series or index that does not exist is skipped. */
  function AddTo(out: Output, key: string, index: int, stats: Stats): Output {
    if key in out && 0 <= index < |out[key]| then out[key := out[key][index := Gains(out[key][index], stats)]] else out
  }

  method MergeInto(out: Output, keys: set<string>, index: int, stats: Stats) returns (after: Output)
    ensures AddedAt(out, after, keys, index, stats)
  {
    hide AddedAt, AddTo;
    after := out;
    var rest := keys;
    ghost var done: set<string> := {};
    NoneAdded(out, index, stats);
    while rest != {}
      invariant done + rest == keys && done !! rest
      invariant AddedAt(out, after, done, index, stats)
      decreases rest
    {
      ghost var some := Member(rest);
      var key: string :| key in rest;
      AddedOne(out, after, done, key, index, stats);
      after := AddTo(after, key, index, stats);
      rest := rest - {key};
      done := done + {key};
    }
    assert done == keys;
  }

  /** An addition at one index is a charge that is zero everywhere else. */
  lemma AddedIsCharged(
    out: Output, after: Output, keys: set<string>, count: int, index: int, stats: Stats, moved: int -> Stats)
    requires AddedAt(out, after, keys, index, stats)
    requires forall key :: key in out ==> |out[key]| == count
    requires forall k :: 0 <= k < count ==> moved(k) == if k == index then stats else ZERO
    ensures Charged(out, after, keys, moved)
  {
    hide Merge;
    forall key, k | key in out && 0 <= k < count
      ensures Gains(out[key][k], ZERO) == out[key][k]
    {
      MergeZero(out[key][k].stats);
    }
  }

  // ----- adding a stretch of time -----

  ghost function Slices(plan: Plan, o: Observation, start: int, end: int): int -> Stats {
    k => DurationStats(o, Clip(start, end, Edge(plan, k), CellEnd(plan, k)))
  }

  lemma EdgesApart(plan: Plan, j: int, k: int)
    requires PlanWidth(plan) > 0 && j < k
    ensures Edge(plan, j + 1) <= Edge(plan, k)
  {
    Multiples(j + 1, k, PlanWidth(plan));
  }

  lemma Multiples(a: int, b: int, w: int)
    requires w > 0 && a <= b
    ensures a * w <= b * w
  {
    assert (b - a) * w >= 0;
  }

  lemma OnlyCell(plan: Plan, at: int, index: int, k: int)
    requires PlanWidth(plan) > 0 && Edge(plan, index) <= at < Edge(plan, index + 1)
    ensures Edge(plan, k) <= at < Edge(plan, k + 1) <==> k == index
  {
    hide Edge, PlanWidth;
    if k < index {
      EdgesApart(plan, k, index);
    } else if index < k {
      EdgesApart(plan, index, k);
    }
  }

  /** A piece inside one bucket belongs to that bucket alone. */
  lemma PieceInCell(plan: Plan, start: int, cursor: int, until: int, index: int, k: int)
    requires PlanWidth(plan) > 0 && Edge(plan, index) <= cursor < until <= CellEnd(plan, index)
    requires start <= cursor
    ensures Clip(start, until, Edge(plan, k), CellEnd(plan, k))
      == Clip(start, cursor, Edge(plan, k), CellEnd(plan, k)) + if k == index then until - cursor else 0
  {
    hide Edge, PlanWidth;
    ClipSplitsInterval(start, cursor, until, Edge(plan, k), CellEnd(plan, k));
    if k < index {
      EdgesApart(plan, k, index);
    } else if index < k {
      EdgesApart(plan, index, k);
    }
  }

  lemma ChargedMore(
    out: Output, before: Output, after: Output, keys: set<string>, plan: Plan, o: Observation, start: int,
    cursor: int, until: int, index: int)
    requires PlanWidth(plan) > 0 && start <= cursor && Edge(plan, index) <= cursor < until <= CellEnd(plan, index)
    requires Charged(out, before, keys, Slices(plan, o, start, cursor))
    requires AddedAt(before, after, keys, index, DurationStats(o, until - cursor))
    ensures Charged(out, after, keys, Slices(plan, o, start, until))
  {
    hide Merge, Edge, CellEnd, PlanWidth, Clip, DurationStats;
    var piece := DurationStats(o, until - cursor);
    forall key, k | key in out && 0 <= k < |out[key]| && key in keys
      ensures after[key][k] == Gains(out[key][k], Slices(plan, o, start, until)(k))
    {
      PieceInCell(plan, start, cursor, until, index, k);
      var held := Slices(plan, o, start, cursor)(k);
      DurationAdds(o, Clip(start, cursor, Edge(plan, k), CellEnd(plan, k)), if k == index then until - cursor else 0);
      MergeAssociates(out[key][k].stats, held, piece);
    }
  }

  /** Nothing of an empty stretch, or of one before the range, falls in any bucket. */
  lemma NothingCharged(out: Output, keys: set<string>, plan: Plan, o: Observation, start: int, end: int)
    requires PlanWidth(plan) > 0
    requires end <= start || end <= plan.from
    ensures Charged(out, out, keys, Slices(plan, o, start, end))
  {
    hide Merge, PlanWidth;
    forall key, k | key in out && 0 <= k < |out[key]|
      ensures Gains(out[key][k], Slices(plan, o, start, end)(k)) == out[key][k]
    {
      assert k * PlanWidth(plan) >= 0;
      NoDuration(o);
      MergeZero(out[key][k].stats);
    }
  }

  /** Add the time of [start, end) to every series in `keys`, bucket by bucket. */
  method ApplySpan(out: Output, keys: set<string>, start: int, end: int, o: Observation, plan: Plan)
    returns (after: Output)
    requires PlanWidth(plan) > 0 && end <= plan.to <= Edge(plan, plan.count)
    ensures Charged(out, after, keys, Slices(plan, o, start, end))
  {
    hide Edge, PlanWidth, Charged, AddedAt, DurationStats, Slices;
    var cursor := Max(start, plan.from);
    after := out;
    NothingCharged(out, keys, plan, o, start, cursor);
    if end <= cursor {
      NothingCharged(out, keys, plan, o, start, end);
    }
    while cursor < end
      invariant Max(start, plan.from) <= cursor
      invariant if cursor == Max(start, plan.from) then after == out else cursor <= end
      invariant Charged(out, after, keys, Slices(plan, o, start, cursor))
      decreases end - cursor
    {
      var width := PlanWidth(plan);
      var index := (cursor - plan.from) / width;
      CellOf(plan, cursor);
      NextEdge(plan, index);
      var until := Min(end, plan.from + (index + 1) * width);
      var before := after;
      after := MergeInto(before, keys, index, DurationStats(o, until - cursor));
      ChargedMore(out, before, after, keys, plan, o, start, cursor, until, index);
      cursor := until;
    }
  }

  lemma NextEdge(plan: Plan, k: int)
    ensures Edge(plan, k + 1) == plan.from + (k + 1) * PlanWidth(plan)
  {
  }

  // ----- the three sources of a chart -----

  /** What the reading methods know about their arguments. */
  ghost predicate Readable(c: Reading, config: HistoryConfig) {
    && PlanOk(c.plan, config, c.now)
    && c.plan.group > 0 && PlanWidth(c.plan) > 0
    && c.plan.to <= Edge(c.plan, c.plan.count)
    && c.ids <= c.h.epochs.Keys
    && OnGrid(c.h.buckets)
  }

  lemma ReadableParts(c: Reading, config: HistoryConfig)
    requires Readable(c, config)
    ensures c.plan.group > 0 && PlanWidth(c.plan) > 0 && c.plan.to <= Edge(c.plan, c.plan.count)
    ensures c.ids <= c.h.epochs.Keys
    ensures PlanOk(c.plan, config, c.now) && OnGrid(c.h.buckets)
  {
  }

  lemma RowAdded(c: Reading, config: HistoryConfig, rest: History, row: BucketKey, before: Output, after: Output)
    requires Readable(c, config) && OnGrid(rest.buckets) && row in BucketRows(rest, c.plan, c.ids)
    requires row.epoch in c.h.epochs
    requires Balanced(before, c, rest)
    requires AddedAt(before, after, Labels(c.h.epochs[row.epoch], c.r),
                     (row.start - c.plan.from) / PlanWidth(c.plan), rest.buckets[row])
    ensures Balanced(after, c, WithoutRow(rest, row))
  {
    hide PlanOk, Edge, Aligned, BalancedAt, AddedAt, Charged, RowMoved, MovedCell, PlanWidth, Labels, KeysOf;
    var index := (row.start - c.plan.from) / PlanWidth(c.plan);
    SourceBucketInOneCell(c.plan, config, c.now, row.start);
    PlanTier(c.plan, config, c.now);
    var moved := k => RowMoved(c.plan, row, rest.buckets[row], k);
    forall k | 0 <= k < c.plan.count
      ensures moved(k) == if k == index then rest.buckets[row] else ZERO
      ensures MovedCell(c, rest, WithoutRow(rest, row), row.epoch, moved(k), k)
    {
      RowInCell(c.plan, row, rest.buckets[row], index, k);
      RowMoves(c, config, rest, row, k);
    }
    AddedIsCharged(before, after, Labels(c.h.epochs[row.epoch], c.r), c.plan.count, index, rest.buckets[row], moved);
    Moves(before, after, c, rest, WithoutRow(rest, row), row.epoch, moved);
  }

  lemma RowInCell(plan: Plan, row: BucketKey, stats: Stats, index: int, k: int)
    requires PlanWidth(plan) > 0 && Width(plan.source) > 0
    requires Edge(plan, index) <= row.start && row.start + Width(plan.source) <= Edge(plan, index + 1)
    ensures RowMoved(plan, row, stats, k) == if k == index then stats else ZERO
  {
    hide Edge, PlanWidth;
    OnlyCell(plan, row.start, index, k);
  }

  lemma FewerRows(h: History, plan: Plan, ids: set<int>, row: BucketKey)
    ensures BucketRows(WithoutRow(h, row), plan, ids) == BucketRows(h, plan, ids) - {row}
  {
  }

  /** Materialised rows of the source tier; more than 200 000 are too many. */
  method AddRows(
    db: Database, ghost c: Reading, r: Request, plan: Plan, ids: set<int>, out: Output, ghost config: HistoryConfig)
    returns (busy: bool, after: Output, ghost rest: History)
    requires c == Reading(db.Tables(), r, plan, c.now, ids) && Readable(c, config) && Balanced(out, c, c.h)
    ensures busy <==> |BucketRows(c.h, plan, ids)| > 200_000
    ensures !busy ==>
      Balanced(after, c, rest) && rest == c.h.(buckets := rest.buckets) && BucketRows(rest, plan, ids) == {}
  {
    hide Readable, Balanced, AddedAt, Labels, WithoutRow, OnGrid;
    ReadableParts(c, config);
    rest, after := db.Tables(), out;
    var todo := set row | row in db.buckets && row.epoch in ids && row.resolution == plan.source
                          && Max(plan.from, plan.retained) <= row.start < plan.to;
    var scanned := 0;
    while todo != {}
      invariant rest == c.h.(buckets := rest.buckets) && OnGrid(rest.buckets)
      invariant todo == BucketRows(rest, plan, ids)
      invariant forall row :: row in todo ==> row in c.h.buckets && rest.buckets[row] == c.h.buckets[row]
      invariant scanned + |todo| == |BucketRows(c.h, plan, ids)| && scanned <= 200_000
      invariant Balanced(after, c, rest)
      decreases todo
    {
      ghost var some := Member(todo);
      var row: BucketKey :| row in todo;
      scanned := scanned + 1;
      if scanned > 200_000 {
        return true, after, rest;
      }
      var before := after;
      after := MergeInto(
        before, Labels(db.epochs[row.epoch], r), (row.start - plan.from) / PlanWidth(plan), db.buckets[row]);
      RowAdded(c, config, rest, row, before, after);
      FewerRows(rest, plan, ids, row);
      LeftRows(rest, row);
      rest := WithoutRow(rest, row);
      todo := todo - {row};
    }
    busy := false;
  }

  lemma LeftRows(h: History, row: BucketKey)
    requires OnGrid(h.buckets)
    ensures OnGrid(WithoutRow(h, row).buckets)
    ensures WithoutRow(h, row) == h.(buckets := WithoutRow(h, row).buckets)
    ensures forall other :: other in h.buckets && other != row ==>
      other in WithoutRow(h, row).buckets && WithoutRow(h, row).buckets[other] == h.buckets[other]
  {
    hide Aligned, IsTier;
  }

  // ----- unfinished spans -----

  lemma SlicesAreWindows(plan: Plan, o: Observation, start: int, end: int, k: int)
    requires PlanWidth(plan) > 0
    ensures Slices(plan, o, Max(start, plan.retained), Min(end, plan.to))(k) == TimeMoved(plan, o, start, end, k)
  {
    hide Edge, Clip, DurationStats;
    ClipOfClipped(start, end, plan.retained, plan.to, Edge(plan, k), Edge(plan, k + 1));
  }

  lemma ClipOfClipped(start: int, end: int, retained: int, to: int, from: int, next: int)
    ensures Clip(Max(start, retained), Min(end, to), from, Min(next, to))
         == Clip(start, end, Max(from, retained), Min(next, to))
  {
  }

  lemma SpanAdded(c: Reading, config: HistoryConfig, rest: History, i: nat, before: Output, after: Output)
    requires Readable(c, config) && i < |rest.spans| && rest.spans[i].epoch in c.ids
    requires rest.spans[i].epoch in c.h.epochs
    requires Balanced(before, c, rest)
    requires var span := rest.spans[i];
      Charged(before, after, Labels(c.h.epochs[span.epoch], c.r),
              Slices(c.plan, span.observation, Max(span.cursor, c.plan.retained), Min(span.end, c.plan.to)))
    ensures Balanced(after, c, WithoutSpan(rest, i))
  {
    hide PlanOk, OnGrid, Edge, BalancedAt, Balanced, Charged, MovedCell, PlanWidth, Labels, Slices, TimeMoved,
         WithoutSpan;
    var span := rest.spans[i];
    var moved := Slices(c.plan, span.observation, Max(span.cursor, c.plan.retained), Min(span.end, c.plan.to));
    forall k | 0 <= k < c.plan.count
      ensures MovedCell(c, rest, WithoutSpan(rest, i), span.epoch, moved(k), k)
    {
      SlicesAreWindows(c.plan, span.observation, span.cursor, span.end, k);
      SpanMoves(c, rest, i, k);
    }
    Moves(before, after, c, rest, WithoutSpan(rest, i), span.epoch, moved);
  }

  /** The queue with the spans read so far emptied. */
  ghost predicate SpansRead(h: History, rest: History, plan: Plan, ids: set<int>, todo: set<int>) {
    && |rest.spans| == |h.spans|
    && forall i :: 0 <= i < |h.spans| ==>
         rest.spans[i]
         == if i in SpanRows(h, plan, ids) && i !in todo then h.spans[i].(cursor := h.spans[i].end) else h.spans[i]
  }

  lemma NoneRead(h: History, rest: History, plan: Plan, ids: set<int>)
    requires rest.spans == h.spans
    ensures SpansRead(h, rest, plan, ids, SpanRows(h, plan, ids))
  {
  }

  lemma SpanRowFacts(h: History, rest: History, plan: Plan, ids: set<int>, todo: set<int>, i: int)
    requires SpansRead(h, rest, plan, ids, todo) && i in todo && todo <= SpanRows(h, plan, ids)
    ensures 0 <= i < |h.spans| && i < |rest.spans| && rest.spans[i] == h.spans[i] && h.spans[i].epoch in ids
  {
  }

  lemma OneRead(h: History, rest: History, plan: Plan, ids: set<int>, todo: set<int>, i: int)
    requires SpansRead(h, rest, plan, ids, todo) && i in todo && todo <= SpanRows(h, plan, ids)
    ensures 0 <= i < |rest.spans|
    ensures SpansRead(h, WithoutSpan(rest, i), plan, ids, todo - {i})
    ensures WithoutSpan(rest, i) == rest.(spans := WithoutSpan(rest, i).spans)
  {
  }

  /** Spans still queued; more than 50 000 are too many. */
  method AddSpans(
    db: Database, ghost c: Reading, r: Request, plan: Plan, ids: set<int>, out: Output, ghost config: HistoryConfig,
    ghost start: History)
    returns (busy: bool, after: Output, ghost rest: History)
    requires c == Reading(db.Tables(), r, plan, c.now, ids) && Readable(c, config)
    requires Balanced(out, c, start) && start.spans == c.h.spans
    ensures busy <==> |SpanRows(c.h, plan, ids)| > 50_000
    ensures !busy ==>
      Balanced(after, c, rest) && rest == start.(spans := rest.spans) && SpansRead(c.h, rest, plan, ids, {})
  {
    hide Readable, Balanced, Charged, Labels, OnGrid, Edge, PlanWidth, Slices, SpansRead, SpanRows, WithoutSpan;
    ReadableParts(c, config);
    rest, after := start, out;
    var todo := SpansInRange(db, plan, ids);
    NoneRead(c.h, rest, plan, ids);
    var scanned := 0;
    while todo != {}
      invariant rest == start.(spans := rest.spans)
      invariant todo <= SpanRows(c.h, plan, ids) && SpansRead(c.h, rest, plan, ids, todo)
      invariant scanned + |todo| == |SpanRows(c.h, plan, ids)| && scanned <= 50_000
      invariant Balanced(after, c, rest)
      decreases todo
    {
      ghost var some := Member(todo);
      var i: int :| i in todo;
      SpanRowFacts(c.h, rest, plan, ids, todo, i);
      scanned := scanned + 1;
      if scanned > 50_000 {
        return true, after, rest;
      }
      var span, before := db.spans[i], after;
      var keys := Labels(db.epochs[span.epoch], r);
      after := ApplySpan(
        before, keys, Max(span.cursor, plan.retained), Min(span.end, plan.to), span.observation, plan);
      SpanAdded(c, config, rest, i, before, after);
      OneRead(c.h, rest, plan, ids, todo, i);
      rest := WithoutSpan(rest, i);
      todo := todo - {i};
    }
    busy := false;
  }

  method SpansInRange(db: Database, plan: Plan, ids: set<int>) returns (found: set<int>)
    ensures found == SpanRows(db.Tables(), plan, ids)
  {
    found := set i | 0 <= i < |db.spans| && db.spans[i].epoch in ids
                     && db.spans[i].cursor < plan.to && db.spans[i].end > plan.from;
  }

  // ----- live tails -----

  lemma TailAdded(c: Reading, config: HistoryConfig, rest: History, id: int, before: Output, after: Output)
    requires Readable(c, config) && id in c.ids && id in c.h.epochs && id in rest.epochs
    requires rest.epochs[id] == c.h.epochs[id]
    requires Balanced(before, c, rest) && c.h.epochs[id].last.Some?
    requires var e := c.h.epochs[id];
      Charged(before, after, Labels(e, c.r),
              Slices(c.plan, e.last.value.observation, Max(e.last.value.at, c.plan.retained),
                     Min(Min(EndAt(e, c.now), c.plan.to), e.last.value.at + e.freshness)))
    ensures Balanced(after, c, WithoutTail(rest, id))
  {
    hide PlanOk, OnGrid, Edge, BalancedAt, Balanced, Charged, MovedCell, PlanWidth, Labels, Slices, WithoutTail;
    var e := c.h.epochs[id];
    var until := HoldsUntil(e.last.value, e.freshness, EndAt(e, c.now));
    var moved := Slices(c.plan, e.last.value.observation, Max(e.last.value.at, c.plan.retained), Min(until, c.plan.to));
    forall k | 0 <= k < c.plan.count
      ensures MovedCell(c, rest, WithoutTail(rest, id), id, moved(k), k)
    {
      SlicesAreWindows(c.plan, e.last.value.observation, e.last.value.at, until, k);
      TailMoves(c, rest, id, k);
    }
    Moves(before, after, c, rest, WithoutTail(rest, id), id, moved);
  }

  /** The epochs with the tails read so far taken out. */
  ghost predicate TailsRead(h: History, rest: History, ids: set<int>, todo: set<int>) {
    && rest.epochs.Keys == h.epochs.Keys
    && (forall id :: id in todo && id in h.epochs ==> rest.epochs[id] == h.epochs[id])
    && (forall id :: id in ids && id in h.epochs && id !in todo ==> rest.epochs[id].last.None?)
  }

  /** The time since the last observation of each selected live epoch. */
  method AddTails(
    db: Database, ghost c: Reading, r: Request, plan: Plan, now: int, ids: set<int>, out: Output,
    ghost config: HistoryConfig, ghost start: History)
    returns (after: Output, ghost rest: History)
    requires c == Reading(db.Tables(), r, plan, now, ids) && Readable(c, config)
    requires Balanced(out, c, start) && start.epochs == c.h.epochs
    ensures Balanced(after, c, rest) && rest == start.(epochs := rest.epochs) && TailsRead(c.h, rest, ids, {})
  {
    hide Readable, Balanced, Charged, Labels, OnGrid, Edge, PlanWidth, Slices;
    ReadableParts(c, config);
    rest, after := start, out;
    var todo := ids;
    while todo != {}
      invariant rest == start.(epochs := rest.epochs)
      invariant todo <= ids && TailsRead(c.h, rest, ids, todo)
      invariant Balanced(after, c, rest)
      decreases todo
    {
      ghost var some := Member(todo);
      var id: int :| id in todo;
      var e, before := db.epochs[id], after;
      if e.last.Some? {
        var last := e.last.value;
        after := ApplySpan(before, Labels(e, r), Max(last.at, plan.retained),
                           Min(Min(EndAt(e, now), plan.to), last.at + e.freshness), last.observation, plan);
        TailAdded(c, config, rest, id, before, after);
        rest := WithoutTail(rest, id);
      }
      todo := todo - {id};
    }
  }

  // ----- the answer -----

  function Finished(plan: Plan, k: int, b: OutBucket): OutBucket {
    var stats := Cleared(plan, k, b.stats);
    b.(stats := stats, p95 := Percentile.P95(stats))
  }

  method FinishSeries(series: seq<OutBucket>, plan: Plan) returns (after: seq<OutBucket>)
    requires forall k :: 0 <= k < |series| ==> series[k].end == CellEnd(plan, k)
    ensures |after| == |series| && forall k :: 0 <= k < |series| ==> after[k] == Finished(plan, k, series[k])
  {
    hide CellEnd, Percentile.P95;
    after := series;
    for k := 0 to |series|
      invariant |after| == |series|
      invariant forall j :: 0 <= j < |series| ==> after[j] == if j < k then Finished(plan, j, series[j]) else series[j]
    {
      var stats := if series[k].end <= plan.retained then ZERO else series[k].stats;
      var p95 := Percentile.LatencyP95(stats);
      after := after[k := series[k].(stats := stats, p95 := p95)];
    }
  }

  /** Clear what the source tier no longer answers for and read off the percentiles. */
  method Finish(out: Output, plan: Plan) returns (after: Output)
    requires forall key :: key in out ==> |out[key]| == plan.count
    requires forall key :: key in out ==> forall k :: 0 <= k < plan.count ==> out[key][k].end == CellEnd(plan, k)
    ensures after.Keys == out.Keys
    ensures forall key :: key in out ==>
      |after[key]| == plan.count && forall k :: 0 <= k < plan.count ==> after[key][k] == Finished(plan, k, out[key][k])
  {
    hide CellEnd, Finished;
    after := out;
    var rest := out.Keys;
    while rest != {}
      invariant rest <= out.Keys && after.Keys == out.Keys
      invariant forall key :: key in rest ==> after[key] == out[key]
      invariant forall key :: key in out && key !in rest ==>
        |after[key]| == plan.count && forall k :: 0 <= k < plan.count ==>
          after[key][k] == Finished(plan, k, out[key][k])
      decreases rest
    {
      ghost var some := Member(rest);
      var key: string :| key in rest;
      var series := FinishSeries(out[key], plan);
      after := after[key := series];
      rest := rest - {key};
    }
  }

  method Earliest(db: Database, plan: Plan, ids: set<int>) returns (at: Option<int>)
    requires ids <= db.epochs.Keys
    ensures IsEarliest(db.Tables(), plan, ids, at)
  {
    at := None;
    var rest := ids;
    while rest != {}
      invariant rest <= ids
      invariant at.None? ==> rest == ids
      invariant at.Some? ==> exists id ::
        id in ids && id in db.epochs && at.value == Max(db.epochs[id].started, plan.retained)
      invariant at.Some? ==>
        forall id :: id in ids && id !in rest ==> at.value <= Max(db.epochs[id].started, plan.retained)
      decreases rest
    {
      ghost var some := Member(rest);
      var id: int :| id in rest;
      var from := Max(db.epochs[id].started, plan.retained);
      if at.None? || from < at.value {
        at := Some(from);
      }
      rest := rest - {id};
    }
  }

  lemma AllRead(c: Reading, config: HistoryConfig, rest: History)
    requires c.ids <= c.h.epochs.Keys && BucketRows(rest, c.plan, c.ids) == {}
    requires SpansRead(c.h, rest, c.plan, c.ids, {}) && TailsRead(c.h, rest, c.ids, {})
    ensures Drained(c, rest)
  {
    hide BucketRows;
    forall i | 0 <= i < |rest.spans| && rest.spans[i].epoch in c.ids
      ensures
        || rest.spans[i].cursor == rest.spans[i].end
        || rest.spans[i].end <= c.plan.from
        || c.plan.to <= rest.spans[i].cursor
    {
      assert i in SpanRows(c.h, c.plan, c.ids) || c.h.spans[i].end <= c.plan.from || c.plan.to <= c.h.spans[i].cursor;
    }
  }

  /** Add up everything the chart is made of, unless there are too many rows. */
  method AddAll(
    db: Database, ghost c: Reading, r: Request, plan: Plan, now: int, ids: set<int>, out: Output,
    ghost config: HistoryConfig)
    returns (busy: bool, after: Output, ghost rest: History)
    requires c == Reading(db.Tables(), r, plan, now, ids) && Readable(c, config) && c.plan.group > 0
    requires Balanced(out, c, c.h)
    ensures busy <==> |BucketRows(c.h, plan, ids)| > 200_000 || |SpanRows(c.h, plan, ids)| > 50_000
    ensures !busy ==> Balanced(after, c, rest) && Drained(c, rest)
  {
    hide Readable, Balanced, BucketRows, SpanRows, SpansRead, TailsRead, Drained;
    busy, after, rest := AddRows(db, c, r, plan, ids, out, config);
    if busy {
      return;
    }
    ghost var rows := rest;
    busy, after, rest := AddSpans(db, c, r, plan, ids, after, config, rest);
    if busy {
      return;
    }
    ghost var spans := rest;
    after, rest := AddTails(db, c, r, plan, now, ids, after, config, rest);
    ReadableParts(c, config);
    SameReads(c, rows, spans, rest);
    AllRead(c, config, rest);
  }

  lemma SameReads(c: Reading, rows: History, spans: History, rest: History)
    requires spans == rows.(spans := spans.spans) && rest == spans.(epochs := rest.epochs)
    ensures BucketRows(rest, c.plan, c.ids) == BucketRows(rows, c.plan, c.ids)
    ensures SpansRead(c.h, spans, c.plan, c.ids, {}) ==> SpansRead(c.h, rest, c.plan, c.ids, {})
  {
  }

  /** A drained, balanced output is the answer once it is finished. */
  lemma FinishedIsAnswer(c: Reading, config: HistoryConfig, rest: History, out: Output, after: Output)
    requires PlanOk(c.plan, config, c.now) && c.plan.group > 0 && Drained(c, rest) && Balanced(out, c, rest)
    requires after.Keys == out.Keys
    requires forall key :: key in out ==>
      |after[key]| == c.plan.count && forall k :: 0 <= k < c.plan.count ==>
        after[key][k] == Finished(c.plan, k, out[key][k])
    ensures after.Keys == KeysOf(c.h, c.r, c.ids)
    ensures forall key :: key in after ==>
      |after[key]| == c.plan.count
      && forall k :: 0 <= k < c.plan.count ==> after[key][k] == Cell(c.h, c.plan, c.now, Keyed(c.h, c.r, c.ids, key), k)
  {
    hide PlanOk, Drained, BalancedAt, Keyed, KeysOf, Edge, CellEnd, EpochCell, Eligibles;
    forall key, k | key in after && 0 <= k < c.plan.count
      ensures after[key][k] == Cell(c.h, c.plan, c.now, Keyed(c.h, c.r, c.ids, key), k)
    {
      Settles(out, c, config, rest, key, k);
    }
  }

  lemma BalancedEnds(out: Output, c: Reading, rest: History)
    requires c.plan.group >= 0 && Balanced(out, c, rest)
    ensures forall key :: key in out ==> |out[key]| == c.plan.count
    ensures forall key :: key in out ==> forall k :: 0 <= k < c.plan.count ==> out[key][k].end == CellEnd(c.plan, k)
  {
    hide Merge, EpochCell, Keyed, KeysOf, Edge, CellEnd;
    forall key, k | key in out && 0 <= k < c.plan.count
      ensures out[key][k].end == CellEnd(c.plan, k)
    {
      assert BalancedAt(out[key][k], c, rest, key, k);
    }
  }

  lemma FramedOpens(out: Output, c: Reading)
    requires c.plan.group >= 0 && Framed(out, c)
    ensures Balanced(out, c, c.h)
  {
    hide Frame, KeysOf;
    Opens(out, c);
  }

  lemma RequestReadable(h: History, request: Request, config: HistoryConfig, now: int)
    requires ValidRequest(request, now) && OnGrid(h.buckets)
    ensures var r := request.(to := Min(request.to, now));
      var plan := PlanFor(r, config, now, |Candidates(h, r, now)|);
      && r.from < r.to <= now && r.maxPoints > 0
      && Readable(Reading(h, r, plan, now, Selected(h, r, plan, now)), config)
      && plan.count >= 1 && plan.group > 0
      && Selected(h, r, plan, now) <= h.epochs.Keys
  {
    hide PlanOk, PlanFor, Candidates, Selected, OnGrid, Edge;
    RequestBounds(request, now);
    var r := request.(to := Min(request.to, now));
    var n := |Candidates(h, r, now)|;
    var plan := PlanFor(r, config, now, n);
    PlanTiles(r, config, now, n);
    PlanEdges(plan, config, now, 0);
    PlanCount(plan, config, now);
    SelectedAreRows(h, r, plan, now);
    assert PlanWidth(plan) > 0;
  }

  lemma PlanCount(plan: Plan, config: HistoryConfig, now: int)
    requires PlanOk(plan, config, now)
    ensures plan.count >= 1 && plan.to <= Edge(plan, plan.count)
  {
  }

  /** The whole request, from validation to the finished series. */
  method Answer(db: Database, request: Request, config: HistoryConfig, now: int) returns (a: Result)
    requires OnGrid(db.buckets)
    ensures IsAnswer(db.Tables(), request, config, now, a)
  {
    hide ValidRequest, OnGrid, Candidates, Selected, KeysOf, BucketRows, SpanRows, PlanFor, Readable, Balanced, Framed,
         Drained, IsEarliest, Cell, Keyed, Finished, CellEnd;
    ghost var h := db.Tables();
    if !ValidRequest(request, now) {
      return Err(InvalidQuery);
    }
    RequestReadable(h, request, config, now);
    var r := request.(to := Min(request.to, now));
    var busy, candidates := ScanEpochs(db, r, now);
    if busy {
      return Err(Busy);
    }
    var plan := ChoosePlan(r, config, now, |candidates|);
    var ids := RetainSelected(db, candidates, r, plan, now);
    ghost var c := Reading(h, r, plan, now, ids);
    var tooMany, out := OpenSeries(db, c, r, plan, now, ids);
    if tooMany {
      return Err(InvalidQuery);
    }
    FramedOpens(out, c);
    ghost var rest := h;
    if ids != {} {
      busy, out, rest := AddAll(db, c, r, plan, now, ids, out, config);
      if busy {
        return Err(Busy);
      }
    } else {
      NothingSelected(c);
    }
    BalancedEnds(out, c, rest);
    ReadableParts(c, config);
    var series := Finish(out, plan);
    FinishedIsAnswer(c, config, rest, out, series);
    var available := Earliest(db, plan, ids);
    a := Ok(Response(plan.from, plan.to, plan.group * plan.source, plan.source, available, series));
  }

  method RetainSelected(db: Database, candidates: set<int>, r: Request, plan: Plan, now: int) returns (ids: set<int>)
    requires candidates == Candidates(db.Tables(), r, now)
    ensures ids == Selected(db.Tables(), r, plan, now)
  {
    hide IsCandidate;
    ids := set id | id in candidates && db.epochs[id].started < plan.to && EndAt(db.epochs[id], now) > plan.from;
  }

  lemma NothingSelected(c: Reading)
    requires c.ids == {}
    ensures Drained(c, c.h)
  {
  }
}
