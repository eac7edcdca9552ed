/**
 * Accepting observations and opening and closing epochs
 * (src/storage/sqlite/history/ingest.rs).
 */
module Ingest {
  import opened Prelude
  import opened HistoryStats
  import opened Tiers
  import opened History
  import opened Rollup

  /** Queue the time the last observation has held, up to `end` or its freshness limit. */
  function FlushTail(spans: seq<Span>, id: int, epoch: Epoch, end: int): seq<Span> {
    match epoch.last
    case None => spans
    case Some(entry) =>
      var until := HoldsUntil(entry, epoch.freshness, end);
      if until > entry.at then spans + [Span(id, entry.at, until, entry.observation)] else spans
  }

  predicate Live(epochs: map<int, Epoch>, id: int, key: CheckKey) {
    id in epochs && epochs[id].key == key && epochs[id].ended.None?
  }

  predicate HasLive(epochs: map<int, Epoch>, key: CheckKey) {
    exists id :: id in epochs && Live(epochs, id, key)
  }

  // ----- record -----

  /** Late, repeated and future observations are ignored. */
  predicate Accepts(h: History, id: int, at: int, now: int)
    requires id in h.epochs
  {
    var e := h.epochs[id];
    && at <= now
    && e.started <= at
    && (e.last.Some? ==> e.last.value.at < at)
    && (id, at) !in h.raw
  }

  function EventsWith(h: History, id: int, at: int, o: Observation): map<(int, int), Event>
    requires id in h.epochs
  {
    var last := h.epochs[id].last;
    if (last.Some? && !o.ChangedFrom(last.value.observation)) || (id, at) in h.events then h.events
    else h.events[(id, at) := Event(if last.Some? then Some(last.value.observation.state) else None, o)]
  }

  function AddSample(buckets: map<BucketKey, Stats>, id: int, at: int, o: Observation): map<BucketKey, Stats> {
    var fine := AddStats(buckets, id, FIVE_MINUTES, Floor(at, FIVE_MINUTES), SampleStats(o));
    var hourly := AddStats(fine, id, HOUR, Floor(at, HOUR), SampleStats(o));
    AddStats(hourly, id, DAY, Floor(at, DAY), SampleStats(o))
  }

  /** The rows of an accepted observation. */
  function Accepted(h: History, id: int, at: int, o: Observation): (after: History)
    requires id in h.epochs && id in h.log
    ensures id in after.epochs && id in after.log
  {
    var e := h.epochs[id];
    History(
      h.epochs[id := e.(last := Some(Entry(at, o)))],
      h.raw[(id, at) := o],
      EventsWith(h, id, at, o),
      AddSample(h.buckets, id, at, o),
      FlushTail(h.spans, id, e, at),
      h.log[id := Then(h.log[id], Entry(at, o))])
  }

  function RecordInto(h: History, id: int, at: int, o: Observation, now: int): (after: History)
    requires id in h.epochs && id in h.log
    ensures id in after.epochs && id in after.log
  {
    if Accepts(h, id, at, now) then Accepted(h, id, at, o) else h
  }

  // ----- epochs -----

  function Close(h: History, id: int, now: int): History
    requires id in h.epochs
  {
    var e := h.epochs[id];
    h.(epochs := h.epochs[id := e.(ended := Some(Max(e.started, now)), last := None)],
       spans := FlushTail(h.spans, id, e, now))
  }

  /** A check the inventory asks for. */
  datatype Wanted = Wanted(key: CheckKey, name: string, groups: set<string>, signature: Signature, freshness: int)

  function Open(h: History, id: int, w: Wanted, now: int): History {
    h.(epochs := h.epochs[id := Epoch(w.key, w.name, w.groups, w.signature, now, None, w.freshness, None)],
       log := h.log[id := Start])
  }

  // ----- conservation -----

  lemma FlushedQueue(spans: seq<Span>, id: int, epoch: Epoch, end: int, other: int, from: int, to: int)
    ensures Pending(FlushTail(spans, id, epoch, end), other, from, to)
      == Merge(Pending(spans, other, from, to),
               if other == id && epoch.last.Some? then HeldBy(epoch.last.value, epoch.freshness, end, from, to)
               else ZERO)
  {
    hide Merge, DurationStats, Pending;
    MergeZero(Pending(spans, other, from, to));
    if epoch.last.Some? {
      var entry := epoch.last.value;
      var until := HoldsUntil(entry, epoch.freshness, end);
      NoDuration(entry.observation);
      if until > entry.at {
        PendingAppend(spans, Span(id, entry.at, until, entry.observation), other, from, to);
      } else {
        ClipBackwards(entry.at, until, from, to);
      }
    }
  }

  lemma ClipBackwards(start: int, end: int, from: int, to: int)
    requires end <= start
    ensures Clip(start, end, from, to) == 0
  {
  }

  lemma SampledRow(h: History, id: int, at: int, o: Observation, other: int, resolution: int, bucket: int)
    requires IsTier(resolution) && Aligned(bucket, resolution)
    ensures Stored(h.(buckets := AddSample(h.buckets, id, at, o)), other, resolution, bucket)
      == Merge(Stored(h, other, resolution, bucket),
               if other == id && bucket <= at < bucket + Width(resolution) then SampleStats(o) else ZERO)
  {
    hide Merge, Floor, Aligned, SampleStats;
    MergeZero(Stored(h, other, resolution, bucket));
    FloorBounds(at, resolution);
    if bucket <= at < bucket + Width(resolution) {
      FloorUnique(at, resolution, bucket);
    }
  }

  lemma RecordConserves(h: History, id: int, at: int, o: Observation, resolution: int, bucket: int)
    requires id in h.epochs && id in h.log
    requires h.epochs[id].ended.None? && h.epochs[id].last == Newest(h.log[id])
    requires IsTier(resolution) && Aligned(bucket, resolution)
    requires ConservedAt(h, id, resolution, bucket)
    ensures ConservedAt(Accepted(h, id, at, o), id, resolution, bucket)
  {
    hide Merge, Floor, Aligned, SampleStats, AddSample, FlushTail, EventsWith, Pending, HeldBy;
    var e, log, next := h.epochs[id], h.log[id], bucket + Width(resolution);
    var sample := if bucket <= at < next then SampleStats(o) else ZERO;
    var tail := if e.last.Some? then HeldBy(e.last.value, e.freshness, at, bucket, next) else ZERO;
    SampledRow(h, id, at, o, id, resolution, bucket);
    FlushedQueue(h.spans, id, e, at, id, bucket, next);
    var row, queue := Stored(h, id, resolution, bucket), Pending(h.spans, id, bucket, next);
    var taken, settled := Sampled(log, bucket, next), Settled(e, log, bucket, next);
    assert Settled(e.(last := Some(Entry(at, o))), Then(log, Entry(at, o)), bucket, next) == Merge(settled, tail) by {
      MergeZero(ZERO);
    }
    MergeSwap(row, sample, queue, tail);
    MergeSwap(taken, sample, settled, tail);
    assert Content(Accepted(h, id, at, o), id, resolution, bucket) == Merge(Merge(row, queue), Merge(sample, tail));
  }

  lemma CloseConserves(h: History, id: int, now: int, resolution: int, bucket: int)
    requires id in h.epochs && id in h.log
    requires h.epochs[id].ended.None? && h.epochs[id].last == Newest(h.log[id]) && h.epochs[id].started <= now
    requires IsTier(resolution) && ConservedAt(h, id, resolution, bucket)
    ensures ConservedAt(Close(h, id, now), id, resolution, bucket)
  {
    hide Merge, FlushTail, Pending, HeldBy;
    var e, log, next := h.epochs[id], h.log[id], bucket + Width(resolution);
    var tail := if e.last.Some? then HeldBy(e.last.value, e.freshness, now, bucket, next) else ZERO;
    FlushedQueue(h.spans, id, e, now, id, bucket, next);
    var row, queue := Stored(h, id, resolution, bucket), Pending(h.spans, id, bucket, next);
    var taken, settled := Sampled(log, bucket, next), Settled(e, log, bucket, next);
    assert Held(log, e.freshness, now, bucket, next) == Merge(settled, tail) by {
      MergeZero(ZERO);
    }
    MergeAssociates(row, queue, tail);
    MergeAssociates(taken, settled, tail);
  }

  /** A change to one epoch leaves every other epoch's buckets as they were. */
  lemma OthersConserved(h: History, after: History, id: int, other: int, resolution: int, bucket: int)
    requires other in h.epochs && other in h.log && other in after.epochs && other in after.log
    requires after.epochs[other] == h.epochs[other] && after.log[other] == h.log[other]
    requires Stored(after, other, resolution, bucket) == Stored(h, other, resolution, bucket)
    requires Pending(after.spans, other, bucket, bucket + Width(resolution))
          == Pending(h.spans, other, bucket, bucket + Width(resolution))
    requires ConservedAt(h, other, resolution, bucket)
    ensures ConservedAt(after, other, resolution, bucket)
  {
  }

  // ----- every invariant -----

  lemma FlushKeepsSpans(h: History, after: History, id: int, end: int)
    requires SpansOk(h) && id in h.epochs && h.epochs[id].ended.None?
    requires h.epochs[id].last.Some? ==> h.epochs[id].started <= h.epochs[id].last.value.at
    requires after.spans == FlushTail(h.spans, id, h.epochs[id], end)
    requires after.epochs.Keys == h.epochs.Keys
    requires forall k :: k in h.epochs && k != id ==> after.epochs[k] == h.epochs[k]
    requires after.epochs[id].started == h.epochs[id].started && after.epochs[id].freshness == h.epochs[id].freshness
    requires SettledUntil(h.epochs[id]) <= end == SettledUntil(after.epochs[id])
    ensures SpansOk(after)
  {
    forall i | 0 <= i < |after.spans|
      ensures after.spans[i].epoch in after.epochs && SpanOk(after.spans[i], after.epochs[after.spans[i].epoch])
    {
      if i < |h.spans| {
        assert after.spans[i] == h.spans[i];
      }
    }
    forall i, j | 0 <= i < j < |after.spans| && after.spans[i].epoch == after.spans[j].epoch
      ensures after.spans[i].end <= after.spans[j].cursor
    {
      assert after.spans[i] == h.spans[i];
    }
  }

  lemma SampleKeepsGrid(buckets: map<BucketKey, Stats>, id: int, at: int, o: Observation)
    requires OnGrid(buckets)
    ensures OnGrid(AddSample(buckets, id, at, o))
  {
    hide OnGrid, AddStats, Floor, SampleStats;
    var stats := SampleStats(o);
    AddKeepsGrid(buckets, id, FIVE_MINUTES, at, stats);
    var fine := AddStats(buckets, id, FIVE_MINUTES, Floor(at, FIVE_MINUTES), stats);
    AddKeepsGrid(fine, id, HOUR, at, stats);
    AddKeepsGrid(AddStats(fine, id, HOUR, Floor(at, HOUR), stats), id, DAY, at, stats);
  }

  lemma SampleKeepsReferences(buckets: map<BucketKey, Stats>, epochs: set<int>, id: int, at: int, o: Observation)
    requires id in epochs && forall k :: k in buckets ==> k.epoch in epochs
    ensures forall k :: k in AddSample(buckets, id, at, o) ==> k.epoch in epochs
  {
    hide Merge, Floor, SampleStats;
  }

  lemma RecordKeepsEpochs(h: History, id: int, at: int, o: Observation, now: int)
    requires EpochsOk(h, now) && LifetimesApart(h)
    requires id in h.epochs && h.epochs[id].ended.None? && Accepts(h, id, at, now)
    ensures EpochsOk(Accepted(h, id, at, o), now) && LifetimesApart(Accepted(h, id, at, o))
  {
    hide AddSample, FlushTail, EventsWith;
    OrderedBelow(h.log[id], h.epochs[id].started, EndAt(h.epochs[id], now), at);
  }

  lemma RecordKeepsReferences(h: History, id: int, at: int, o: Observation)
    requires Referenced(h) && id in h.epochs && id in h.log
    ensures Referenced(Accepted(h, id, at, o))
  {
    hide OnGrid, AddSample, FlushTail;
    SampleKeepsGrid(h.buckets, id, at, o);
    SampleKeepsReferences(h.buckets, h.epochs.Keys, id, at, o);
    FlushReferences(h, id, at);
  }

  lemma RecordKeepsShape(h: History, id: int, at: int, o: Observation, now: int)
    requires EpochsOk(h, now) && LifetimesApart(h) && Referenced(h) && SpansOk(h)
    requires id in h.epochs && h.epochs[id].ended.None? && Accepts(h, id, at, now)
    ensures var after := Accepted(h, id, at, o);
      EpochsOk(after, now) && LifetimesApart(after) && Referenced(after) && SpansOk(after)
  {
    hide EpochsOk, LifetimesApart, Referenced, SpansOk, Accepted, Accepts;
    LastInTime(h, id, now);
    RecordKeepsEpochs(h, id, at, o, now);
    RecordKeepsReferences(h, id, at, o);
    RecordKeepsSpans(h, id, at, o, now);
  }

  lemma LastInTime(h: History, id: int, now: int)
    requires EpochsOk(h, now) && id in h.epochs
    ensures id in h.log && (h.epochs[id].last.Some? ==> h.epochs[id].started <= h.epochs[id].last.value.at)
  {
    assert EpochOk(h.epochs[id], h.log[id], now);
  }

  lemma RecordKeepsSpans(h: History, id: int, at: int, o: Observation, now: int)
    requires SpansOk(h) && id in h.epochs && id in h.log && h.epochs[id].ended.None? && Accepts(h, id, at, now)
    requires h.epochs[id].last.Some? ==> h.epochs[id].started <= h.epochs[id].last.value.at
    ensures SpansOk(Accepted(h, id, at, o))
  {
    hide AddSample, FlushTail, EventsWith, SpansOk;
    FlushKeepsSpans(h, Accepted(h, id, at, o), id, at);
  }

  lemma FlushReferences(h: History, id: int, end: int)
    requires Referenced(h) && id in h.epochs
    ensures var spans := FlushTail(h.spans, id, h.epochs[id], end);
      forall i :: 0 <= i < |spans| ==> spans[i].epoch in h.epochs
  {
  }

  lemma OrderedBelow(log: Log, started: int, end: int, at: int)
    requires Ordered(log, started, end)
    requires log.Then? ==> log.newest.at < at
    ensures Ordered(log, started, at - 1)
  {
  }

  lemma CloseKeepsShape(h: History, id: int, now: int)
    requires EpochsOk(h, now) && LifetimesApart(h) && Referenced(h) && SpansOk(h)
    requires id in h.epochs && h.epochs[id].ended.None?
    ensures var after := Close(h, id, now);
      EpochsOk(after, now) && LifetimesApart(after) && Referenced(after) && SpansOk(after)
  {
    var after := Close(h, id, now);
    FlushKeepsSpans(h, after, id, now);
    hide FlushTail;
    FlushReferences(h, id, now);
  }

  lemma OpenKeepsShape(h: History, id: int, w: Wanted, now: int)
    requires EpochsOk(h, now) && LifetimesApart(h) && Referenced(h) && SpansOk(h)
    requires id !in h.epochs && !HasLive(h.epochs, w.key) && w.freshness >= 0
    ensures var after := Open(h, id, w, now);
      EpochsOk(after, now) && LifetimesApart(after) && Referenced(after) && SpansOk(after)
  {
    var after := Open(h, id, w, now);
    forall j | j in h.epochs && h.epochs[j].key == w.key
      ensures Before(h.epochs[j], after.epochs[id])
    {
      assert !Live(h.epochs, j, w.key);
      assert EpochOk(h.epochs[j], h.log[j], now);
    }
  }

  lemma RecordKeepsInv(h: History, id: int, at: int, o: Observation, config: HistoryConfig, now: int)
    requires Inv(h, config, now) && id in h.epochs && h.epochs[id].ended.None?
    ensures Inv(RecordInto(h, id, at, o, now), config, now)
  {
    hide Merge, Boundary, Aligned, ConservedAt, Accepts, Accepted, EpochOk, LifetimesApart, SpansOk, Referenced;
    if Accepts(h, id, at, now) {
      RecordKeepsShape(h, id, at, o, now);
      var after := Accepted(h, id, at, o);
      AcceptedEpochs(h, id, at, o);
      forall k, resolution, start |
        && k in after.epochs && IsTier(resolution) && Aligned(start, resolution)
        && Boundary(now, config, resolution) <= start
        ensures ConservedAt(after, k, resolution, start)
      {
        RecordConservesAll(h, id, at, o, config, now, k, resolution, start);
      }
    }
  }

  lemma AcceptedEpochs(h: History, id: int, at: int, o: Observation)
    requires id in h.epochs && id in h.log
    ensures Accepted(h, id, at, o).epochs.Keys == h.epochs.Keys
  {
  }

  lemma RecordConservesAll(
    h: History, id: int, at: int, o: Observation, config: HistoryConfig, now: int, k: int, resolution: int,
    start: int)
    requires EpochsOk(h, now) && Conserved(h, config, now)
    requires id in h.epochs && h.epochs[id].ended.None? && k in h.epochs
    requires IsTier(resolution) && Aligned(start, resolution) && Boundary(now, config, resolution) <= start
    ensures ConservedAt(Accepted(h, id, at, o), k, resolution, start)
  {
    hide Merge, Boundary, Aligned, FlushTail, AddSample, Pending, SampleStats, Content, Ledger;
    assert ConservedAt(h, k, resolution, start);
    assert EpochOk(h.epochs[id], h.log[id], now);
    if k == id {
      RecordConserves(h, id, at, o, resolution, start);
    } else {
      SampledRow(h, id, at, o, k, resolution, start);
      FlushedQueue(h.spans, id, h.epochs[id], at, k, start, start + Width(resolution));
      MergeZero(Stored(h, k, resolution, start));
      MergeZero(Pending(h.spans, k, start, start + Width(resolution)));
      OthersConserved(h, Accepted(h, id, at, o), id, k, resolution, start);
    }
  }

  lemma CloseKeepsInv(h: History, id: int, config: HistoryConfig, now: int)
    requires Inv(h, config, now) && id in h.epochs && h.epochs[id].ended.None?
    ensures Inv(Close(h, id, now), config, now)
  {
    hide Merge, Boundary, Aligned, ConservedAt, Close, EpochOk, LifetimesApart, SpansOk, Referenced;
    CloseKeepsShape(h, id, now);
    ClosedEpochs(h, id, now);
    var after := Close(h, id, now);
    forall k, resolution, start |
      && k in after.epochs && IsTier(resolution) && Aligned(start, resolution)
      && Boundary(now, config, resolution) <= start
      ensures ConservedAt(after, k, resolution, start)
    {
      CloseConservesAll(h, id, config, now, k, resolution, start);
    }
  }

  lemma ClosedEpochs(h: History, id: int, now: int)
    requires id in h.epochs
    ensures Close(h, id, now).epochs.Keys == h.epochs.Keys
  {
    hide FlushTail;
  }

  lemma CloseConservesAll(h: History, id: int, config: HistoryConfig, now: int, k: int, resolution: int, start: int)
    requires EpochsOk(h, now) && Conserved(h, config, now)
    requires id in h.epochs && h.epochs[id].ended.None? && k in h.epochs
    requires IsTier(resolution) && Aligned(start, resolution) && Boundary(now, config, resolution) <= start
    ensures ConservedAt(Close(h, id, now), k, resolution, start)
  {
    hide Merge, Boundary, Aligned, FlushTail, Content, Ledger, Pending, HeldBy;
    assert ConservedAt(h, k, resolution, start);
    assert EpochOk(h.epochs[id], h.log[id], now);
    if k == id {
      CloseConserves(h, id, now, resolution, start);
    } else {
      FlushedQueue(h.spans, id, h.epochs[id], now, k, start, start + Width(resolution));
      MergeZero(Pending(h.spans, k, start, start + Width(resolution)));
      OthersConserved(h, Close(h, id, now), id, k, resolution, start);
    }
  }

  lemma OpenKeepsInv(h: History, id: int, w: Wanted, config: HistoryConfig, now: int)
    requires Inv(h, config, now) && id !in h.epochs && !HasLive(h.epochs, w.key) && w.freshness >= 0
    ensures Inv(Open(h, id, w, now), config, now)
  {
    hide Merge, Boundary, Aligned, ConservedAt, EpochOk, LifetimesApart, SpansOk, Referenced, HasLive;
    OpenKeepsShape(h, id, w, now);
    var after := Open(h, id, w, now);
    forall k, resolution, start |
      && k in after.epochs && IsTier(resolution) && Aligned(start, resolution)
      && Boundary(now, config, resolution) <= start
      ensures ConservedAt(after, k, resolution, start)
    {
      assert k != id ==> ConservedAt(h, k, resolution, start);
      OpenConserves(h, id, w, now, k, resolution, start);
    }
  }

  lemma OpenConserves(h: History, id: int, w: Wanted, now: int, k: int, resolution: int, start: int)
    requires Referenced(h) && id !in h.epochs
    requires k != id ==> ConservedAt(h, k, resolution, start)
    ensures ConservedAt(Open(h, id, w, now), k, resolution, start)
  {
    hide Merge;
    if k == id {
      NoQueue(h.spans, id, start, start + Width(resolution));
      MergeZero(ZERO);
    }
  }

  /** Retrying an observation that is already stored changes nothing. */
  lemma RecordTwice(h: History, id: int, at: int, o: Observation, o': Observation, now: int, later: int)
    requires id in h.epochs && id in h.log
    requires Accepts(h, id, at, now)
    ensures var after := RecordInto(h, id, at, o, now); RecordInto(after, id, at, o', later) == after
  {
    hide AddSample, FlushTail, EventsWith;
  }
}
