/**
 * Materialising queued spans into buckets (src/storage/sqlite/history/rollup.rs, `rollup`).
 * `Step` is one iteration of its loop; conservation is proved bucket by bucket.
 */
module Rollup {
  import opened Prelude
  import opened HistoryStats
  import opened Tiers
  import opened History

  function AddStats(
    buckets: map<BucketKey, Stats>, epoch: int, resolution: int, start: int, stats: Stats): map<BucketKey, Stats>
  {
    var key := BucketKey(epoch, resolution, start);
    buckets[key := Merge(if key in buckets then buckets[key] else ZERO, stats)]
  }

  // ----- one chunk -----

  /** Time before the daily boundary belongs to no tier any more. */
  function ChunkStart(cursor: int, now: int, config: HistoryConfig): int {
    Max(cursor, Boundary(now, config, DAY))
  }

  /** The finest tier that still keeps `start`. */
  function Smallest(start: int, now: int, config: HistoryConfig): int {
    if start >= Boundary(now, config, FIVE_MINUTES) then FIVE_MINUTES
    else if start >= Boundary(now, config, HOUR) then HOUR
    else DAY
  }

  function StopAt(until: int, start: int, boundary: int): int {
    if boundary > start then Min(until, boundary) else until
  }

  function ChunkEnd(start: int, end: int, now: int, config: HistoryConfig): int {
    var smallest := Smallest(start, now, config);
    var until := Min(end, Floor(start, smallest) + Width(smallest));
    StopAt(StopAt(StopAt(until, start, Boundary(now, config, FIVE_MINUTES)),
                  start, Boundary(now, config, HOUR)),
           start, Boundary(now, config, DAY))
  }

  /** Whether a tier still receives time starting at `start`. */
  predicate Receives(resolution: int, start: int, now: int, config: HistoryConfig)
    requires resolution > 0
  {
    start >= Boundary(now, config, resolution)
  }

  lemma ChunkInsideBucket(start: int, end: int, now: int, config: HistoryConfig, resolution: int)
    requires IsTier(resolution) && start < end
    ensures var until := ChunkEnd(start, end, now, config);
      && start < until <= end
      && (Receives(resolution, start, now, config) ==>
            Floor(start, resolution) <= start && until <= Floor(start, resolution) + Width(resolution))
      && (!Receives(resolution, start, now, config) ==> until <= Boundary(now, config, resolution))
  {
    hide Floor;
    var smallest := Smallest(start, now, config);
    FloorBounds(start, smallest);
    FloorBounds(start, resolution);
    if smallest <= resolution {
      FloorNests(start, smallest, resolution);
    }
  }

  /** The time a chunk moves out of the queue is the time the receiving bucket gains. */
  lemma ChunkBalances(cursor: int, end: int, now: int, config: HistoryConfig, resolution: int, bucket: int)
    requires config.Valid() && IsTier(resolution) && Aligned(bucket, resolution)
    requires Boundary(now, config, resolution) <= bucket
    requires cursor < end && ChunkStart(cursor, now, config) < end
    ensures var start := ChunkStart(cursor, now, config);
      var until := ChunkEnd(start, end, now, config);
      && cursor < until <= end
      && Clip(cursor, end, bucket, bucket + Width(resolution))
         == (if Receives(resolution, start, now, config) && Floor(start, resolution) == bucket then until - start
             else 0)
            + Clip(until, end, bucket, bucket + Width(resolution))
  {
    hide Floor, Aligned;
    var start := ChunkStart(cursor, now, config);
    var until := ChunkEnd(start, end, now, config);
    var next := bucket + Width(resolution);
    ChunkInsideBucket(start, end, now, config, resolution);
    BoundariesOrdered(now, config, resolution, DAY);
    assert Clip(cursor, start, bucket, next) == 0;
    ClipSplitsInterval(cursor, start, end, bucket, next);
    ClipSplitsInterval(start, until, end, bucket, next);
    var home := Floor(start, resolution);
    FloorBounds(start, resolution);
    if Receives(resolution, start, now, config) && home != bucket {
      if home < bucket {
        AlignedApart(home, bucket, resolution);
      } else {
        AlignedApart(bucket, home, resolution);
      }
    }
  }

  // ----- one iteration -----

  function Credit(
    buckets: map<BucketKey, Stats>, epoch: int, start: int, stats: Stats, now: int, config: HistoryConfig,
    resolution: int)
    : map<BucketKey, Stats>
    requires resolution > 0
  {
    if Receives(resolution, start, now, config) then
      AddStats(buckets, epoch, resolution, Floor(start, resolution), stats)
    else buckets
  }

  function CreditAll(
    buckets: map<BucketKey, Stats>, epoch: int, start: int, stats: Stats, now: int, config: HistoryConfig)
    : map<BucketKey, Stats>
  {
    var fine := Credit(buckets, epoch, start, stats, now, config, FIVE_MINUTES);
    var hourly := Credit(fine, epoch, start, stats, now, config, HOUR);
    Credit(hourly, epoch, start, stats, now, config, DAY)
  }

  function Step(h: History, now: int, config: HistoryConfig): History
    requires h.spans != []
  {
    var span := h.spans[0];
    var start := ChunkStart(span.cursor, now, config);
    if start >= span.end then h.(spans := h.spans[1..])
    else
      var until := ChunkEnd(start, span.end, now, config);
      ChunkInsideBucket(start, span.end, now, config, DAY);
      var stats := DurationStats(span.observation, until - start);
      h.(buckets := CreditAll(h.buckets, span.epoch, start, stats, now, config),
         spans := if until == span.end then h.spans[1..] else [span.(cursor := until)] + h.spans[1..])
  }

  /** `n` iterations; an iteration on an empty queue does nothing. */
  function Steps(h: History, now: int, config: HistoryConfig, n: nat): History {
    if n == 0 then h
    else
      var before := Steps(h, now, config, n - 1);
      if before.spans == [] then before else Step(before, now, config)
  }

  lemma CreditedRow(
    h: History, epoch: int, start: int, stats: Stats, now: int, config: HistoryConfig, id: int, resolution: int,
    bucket: int)
    requires IsTier(resolution)
    ensures var after := h.(buckets := CreditAll(h.buckets, epoch, start, stats, now, config));
      Stored(after, id, resolution, bucket)
      == if id == epoch && Receives(resolution, start, now, config) && Floor(start, resolution) == bucket
         then Merge(Stored(h, id, resolution, bucket), stats)
         else Stored(h, id, resolution, bucket)
  {
    hide Merge, Boundary, Floor;
  }

  /** A span wholly before the daily boundary has no time in any bucket still answered for. */
  lemma ExpiredIsOutside(cursor: int, end: int, now: int, config: HistoryConfig, resolution: int, bucket: int)
    requires config.Valid() && IsTier(resolution) && Boundary(now, config, resolution) <= bucket
    requires end <= ChunkStart(cursor, now, config) && cursor < end
    ensures Clip(cursor, end, bucket, bucket + Width(resolution)) == 0
  {
    BoundariesOrdered(now, config, resolution, DAY);
  }

  lemma MoveStats(row: Stats, gained: Stats, left: Stats, queued: Stats)
    ensures Merge(row, Merge(Merge(gained, left), queued)) == Merge(Merge(row, gained), Merge(left, queued))
  {
    hide Merge;
    MergeAssociates(gained, left, queued);
    MergeAssociates(row, gained, Merge(left, queued));
  }

  /** The queue after a chunk holds what is left of the first span and all the others. */
  lemma QueueAfterChunk(spans: seq<Span>, until: int, id: int, from: int, to: int)
    requires spans != []
    ensures var left := if until == spans[0].end then spans[1..] else [spans[0].(cursor := until)] + spans[1..];
      Pending(left, id, from, to)
      == Merge(SpanIn(spans[0].(cursor := until), id, from, to), Pending(spans[1..], id, from, to))
  {
    hide Merge, Clip, DurationStats;
    var rest := spans[1..];
    if until == spans[0].end {
      ClipEmpty(until, from, to);
      NoDuration(spans[0].observation);
      MergeZero(Pending(rest, id, from, to));
    } else {
      assert ([spans[0].(cursor := until)] + rest)[1..] == rest;
    }
  }

  lemma StepKeepsContent(h: History, now: int, config: HistoryConfig, id: int, resolution: int, bucket: int)
    requires config.Valid() && h.spans != [] && h.spans[0].cursor < h.spans[0].end
    requires IsTier(resolution) && Aligned(bucket, resolution) && Boundary(now, config, resolution) <= bucket
    ensures Content(Step(h, now, config), id, resolution, bucket) == Content(h, id, resolution, bucket)
  {
    hide Merge, Boundary, Floor, Aligned, DurationStats, Clip, ChunkEnd, ChunkStart, CreditAll, Pending;
    var span := h.spans[0];
    var next := bucket + Width(resolution);
    var start := ChunkStart(span.cursor, now, config);
    var queued := Pending(h.spans[1..], id, bucket, next);
    PendingFirst(h.spans, id, bucket, next);
    if start >= span.end {
      ExpiredIsOutside(span.cursor, span.end, now, config, resolution, bucket);
      NoDuration(span.observation);
      MergeZero(queued);
    } else {
      var until := ChunkEnd(start, span.end, now, config);
      ChunkInsideBucket(start, span.end, now, config, resolution);
      ChunkBalances(span.cursor, span.end, now, config, resolution, bucket);
      CreditedRow(
        h, span.epoch, start, DurationStats(span.observation, until - start), now, config, id, resolution,
        bucket);
      QueueAfterChunk(h.spans, until, id, bucket, next);
      ChunkMovesStats(h, span, start, until, now, config, id, resolution, bucket, queued);
    }
  }

  lemma PendingFirst(spans: seq<Span>, id: int, from: int, to: int)
    requires spans != []
    ensures Pending(spans, id, from, to) == Merge(SpanIn(spans[0], id, from, to), Pending(spans[1..], id, from, to))
  {
  }

  lemma ChunkMovesStats(
    h: History, span: Span, start: int, until: int, now: int, config: HistoryConfig, id: int, resolution: int,
    bucket: int, queued: Stats)
    requires IsTier(resolution) && start < until
    requires Clip(span.cursor, span.end, bucket, bucket + Width(resolution))
      == (if Receives(resolution, start, now, config) && Floor(start, resolution) == bucket then until - start else 0)
         + Clip(until, span.end, bucket, bucket + Width(resolution))
    ensures var mine := id == span.epoch && Receives(resolution, start, now, config);
      var gains := mine && Floor(start, resolution) == bucket;
      var row, next := Stored(h, id, resolution, bucket), bucket + Width(resolution);
      Merge(row, Merge(SpanIn(span, id, bucket, next), queued))
      == Merge(if gains then Merge(row, DurationStats(span.observation, until - start)) else row,
               Merge(SpanIn(span.(cursor := until), id, bucket, next), queued))
  {
    hide Merge, Boundary, Floor, DurationStats, Clip, Stored;
    var o, row := span.observation, Stored(h, id, resolution, bucket);
    if id == span.epoch && Receives(resolution, start, now, config) && Floor(start, resolution) == bucket {
      var remains := Clip(until, span.end, bucket, bucket + Width(resolution));
      DurationAdds(o, until - start, remains);
      MoveStats(row, DurationStats(o, until - start), DurationStats(o, remains), queued);
    }
  }

  lemma ClipEmpty(at: int, from: int, to: int)
    ensures Clip(at, at, from, to) == 0
  {
  }

  lemma AddKeepsGrid(buckets: map<BucketKey, Stats>, epoch: int, resolution: int, at: int, stats: Stats)
    requires OnGrid(buckets) && IsTier(resolution)
    ensures OnGrid(AddStats(buckets, epoch, resolution, Floor(at, resolution), stats))
  {
    hide Merge;
    FloorBounds(at, resolution);
  }

  lemma CreditKeepsGrid(
    buckets: map<BucketKey, Stats>, epoch: int, start: int, stats: Stats, now: int, config: HistoryConfig)
    requires OnGrid(buckets)
    ensures OnGrid(CreditAll(buckets, epoch, start, stats, now, config))
  {
    hide OnGrid, AddStats, Boundary, Floor;
    AddKeepsGrid(buckets, epoch, FIVE_MINUTES, start, stats);
    var fine := Credit(buckets, epoch, start, stats, now, config, FIVE_MINUTES);
    AddKeepsGrid(fine, epoch, HOUR, start, stats);
    var hourly := Credit(fine, epoch, start, stats, now, config, HOUR);
    AddKeepsGrid(hourly, epoch, DAY, start, stats);
  }

  lemma CreditKeepsReferences(
    buckets: map<BucketKey, Stats>, epochs: set<int>, epoch: int, start: int, stats: Stats, now: int,
    config: HistoryConfig)
    requires epoch in epochs && forall k :: k in buckets ==> k.epoch in epochs
    ensures forall k :: k in CreditAll(buckets, epoch, start, stats, now, config) ==> k.epoch in epochs
  {
    hide Merge, Boundary, Floor;
  }

  lemma StepKeepsRows(h: History, now: int, config: HistoryConfig)
    requires h.spans != [] && SpansOk(h) && Referenced(h)
    ensures var after := Step(h, now, config);
      Referenced(after) && SpansOk(after) && after.epochs == h.epochs && after.log == h.log
  {
    hide Merge, Boundary, Floor, DurationStats, ChunkEnd, SpanOk, OnGrid, CreditAll, SpansOk;
    var span := h.spans[0];
    var start := ChunkStart(span.cursor, now, config);
    var after := Step(h, now, config);
    QueueShrinks(h, after);
    if start < span.end {
      var until := ChunkEnd(start, span.end, now, config);
      ChunkInsideBucket(start, span.end, now, config, DAY);
      var stats := DurationStats(span.observation, until - start);
      CreditKeepsGrid(h.buckets, span.epoch, start, stats, now, config);
      CreditKeepsReferences(h.buckets, h.epochs.Keys, span.epoch, start, stats, now, config);
      if until < span.end {
        FirstShrinks(h, after, until);
      }
    }
  }

  lemma QueueShrinks(h: History, after: History)
    requires SpansOk(h) && h.spans != [] && after.epochs == h.epochs
    ensures after.spans == h.spans[1..] ==> SpansOk(after)
  {
    hide SpanOk;
  }

  lemma FirstShrinks(h: History, after: History, until: int)
    requires SpansOk(h) && h.spans != [] && after.epochs == h.epochs
    requires after.spans == [h.spans[0].(cursor := until)] + h.spans[1..] && h.spans[0].cursor <= until < h.spans[0].end
    ensures SpansOk(after)
  {
    assert after.spans == h.spans[0 := h.spans[0].(cursor := until)];
    ShorterSpanOk(h.spans[0], until, h.epochs[h.spans[0].epoch]);
    hide SpanOk;
  }

  lemma ShorterSpanOk(span: Span, until: int, epoch: Epoch)
    requires SpanOk(span, epoch) && span.cursor <= until
    ensures until < span.end ==> SpanOk(span.(cursor := until), epoch)
  {
  }

  /** One iteration keeps every invariant; the boundaries may have moved since the last one. */
  lemma StepKeepsInv(h: History, now: int, config: HistoryConfig)
    requires config.Valid() && Inv(h, config, now) && h.spans != []
    ensures Inv(Step(h, now, config), config, now)
  {
    hide Content, Ledger, Boundary, Aligned, EpochOk, Step;
    StepKeepsRows(h, now, config);
    var after := Step(h, now, config);
    forall id, resolution, start |
      id in h.epochs && IsTier(resolution) && Aligned(start, resolution) && Boundary(now, config, resolution) <= start
      ensures ConservedAt(after, id, resolution, start)
    {
      assert ConservedAt(h, id, resolution, start);
      StepKeepsContent(h, now, config, id, resolution, start);
    }
  }

  // ----- whole batches -----

  lemma {:induction false} StepsKeepInv(h: History, now: int, config: HistoryConfig, n: nat)
    requires config.Valid() && Inv(h, config, now)
    ensures Inv(Steps(h, now, config, n), config, now)
    ensures Steps(h, now, config, n).epochs == h.epochs && Steps(h, now, config, n).log == h.log
  {
    hide Inv, Step;
    if n > 0 {
      var before := Steps(h, now, config, n - 1);
      StepsKeepInv(h, now, config, n - 1);
      if before.spans != [] {
        assert SpansOk(before) && Referenced(before) by { InvParts(before, config, now); }
        StepKeepsRows(before, now, config);
        StepKeepsInv(before, now, config);
      }
    }
  }

  /** Queued milliseconds. */
  function Backlog(spans: seq<Span>): int {
    if spans == [] then 0 else spans[0].end - spans[0].cursor + Backlog(spans[1..])
  }

  lemma {:induction false} BacklogPositive(spans: seq<Span>)
    requires forall i :: 0 <= i < |spans| ==> spans[i].cursor < spans[i].end
    ensures |spans| <= Backlog(spans)
  {
    if spans != [] {
      BacklogPositive(spans[1..]);
    }
  }

  /** Each iteration removes a span or advances its cursor without passing its end. */
  lemma StepMakesProgress(h: History, now: int, config: HistoryConfig)
    requires h.spans != [] && h.spans[0].cursor < h.spans[0].end
    ensures var after := Step(h, now, config);
      || after.spans == h.spans[1..]
      || (&& |after.spans| == |h.spans| && after.spans[1..] == h.spans[1..]
          && after.spans[0] == h.spans[0].(cursor := after.spans[0].cursor)
          && h.spans[0].cursor < after.spans[0].cursor < h.spans[0].end)
    ensures Backlog(Step(h, now, config).spans) < Backlog(h.spans)
  {
    hide Boundary, DurationStats, ChunkEnd, CreditAll;
    var span := h.spans[0];
    var start := ChunkStart(span.cursor, now, config);
    if start < span.end {
      ChunkInsideBucket(start, span.end, now, config, DAY);
      var left := [span.(cursor := ChunkEnd(start, span.end, now, config))] + h.spans[1..];
      assert left[1..] == h.spans[1..];
    }
  }

  /** Enough iterations, in batches of any size, empty the queue. */
  lemma {:induction false} StepsDrain(h: History, now: int, config: HistoryConfig, n: nat)
    requires config.Valid() && Inv(h, config, now)
    ensures Backlog(Steps(h, now, config, n).spans) <= Max(0, Backlog(h.spans) - n)
    ensures n >= Backlog(h.spans) ==> Steps(h, now, config, n).spans == []
  {
    hide Inv, Step;
    var after := Steps(h, now, config, n);
    StepsKeepInv(h, now, config, n);
    InvParts(after, config, now);
    BacklogPositive(after.spans);
    if n > 0 {
      var before := Steps(h, now, config, n - 1);
      StepsDrain(h, now, config, n - 1);
      if before.spans != [] {
        StepsKeepInv(h, now, config, n - 1);
        InvParts(before, config, now);
        StepMakesProgress(before, now, config);
      }
    } else {
      InvParts(h, config, now);
      BacklogPositive(h.spans);
    }
  }
}
