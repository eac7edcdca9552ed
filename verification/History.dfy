/**
 * The tables of the tiered history engine (src/storage/sqlite/history/mod.rs) as one
 * value, the log of every accepted observation, and the invariants that tie them.
 */
module History {
  import opened Prelude
  import opened HistoryStats
  import opened Tiers

  /** One accepted observation, and the accepted observations of one epoch, newest outermost. */
  datatype Entry = Entry(at: int, observation: Observation)

  datatype Log = Start | Then(older: Log, newest: Entry)

  datatype CheckKey = CheckKey(host: string, kind: string, check: string)

  /** What a check must keep to stay in the same epoch. */
  datatype Signature = Signature(
    address: string, name: string, groups: set<string>, interval: int, timeout: int, port: int)

  datatype Epoch = Epoch(
    key: CheckKey,
    name: string,
    groups: set<string>,
    signature: Signature,
    started: int,
    ended: Option<int>,
    freshness: int,
    last: Option<Entry>)

  /** A queued stretch of time: `observation` held on [cursor, end). */
  datatype Span = Span(epoch: int, cursor: int, end: int, observation: Observation)

  datatype Event = Event(previous: Option<string>, observation: Observation)

  datatype BucketKey = BucketKey(epoch: int, resolution: int, start: int)

  /** Spans are listed by row id: new rows go last, rollup reads the first. */
  datatype History = History(
    epochs: map<int, Epoch>,
    raw: map<(int, int), Observation>,
    events: map<(int, int), Event>,
    buckets: map<BucketKey, Stats>,
    spans: seq<Span>,
    log: map<int, Log>)

  const EMPTY := History(map[], map[], map[], map[], [], map[])

  // ----- the meaning of the log -----

  /** Samples taken in [from, to). */
  ghost function Sampled(log: Log, from: int, to: int): Stats {
    match log
    case Start => ZERO
    case Then(older, newest) =>
      Merge(Sampled(older, from, to), if from <= newest.at < to then SampleStats(newest.observation) else ZERO)
  }

  /** The observation accepted at a time. */
  ghost function EntryAt(log: Log, at: int): Option<Observation> {
    match log
    case Start => None
    case Then(older, newest) => if newest.at == at then Some(newest.observation) else EntryAt(older, at)
  }

  /** How long an entry holds when the next thing happens at `end`. */
  function HoldsUntil(entry: Entry, freshness: int, end: int): int {
    Min(end, entry.at + freshness)
  }

  /** The part of one entry's time that falls in [from, to). */
  function HeldBy(entry: Entry, freshness: int, end: int, from: int, to: int): Stats {
    DurationStats(entry.observation, Clip(entry.at, HoldsUntil(entry, freshness, end), from, to))
  }

  /**
   * The integral of the log over [from, to): every entry holds until the next entry, its
   * freshness limit or, for the newest, `end`.
   */
  ghost function Held(log: Log, freshness: int, end: int, from: int, to: int): Stats {
    match log
    case Start => ZERO
    case Then(older, newest) =>
      Merge(Held(older, freshness, newest.at, from, to), HeldBy(newest, freshness, end, from, to))
  }

  /** The integral up to the newest entry of a live epoch, or to the end of a closed one. */
  ghost function Settled(epoch: Epoch, log: Log, from: int, to: int): Stats {
    if epoch.ended.Some? then Held(log, epoch.freshness, epoch.ended.value, from, to)
    else match log
    case Start => ZERO
    case Then(older, newest) => Held(older, epoch.freshness, newest.at, from, to)
  }

  ghost function Ledger(epoch: Epoch, log: Log, from: int, to: int): Stats {
    Merge(Sampled(log, from, to), Settled(epoch, log, from, to))
  }

  // ----- the meaning of the tables -----

  function Stored(h: History, epoch: int, resolution: int, start: int): Stats {
    var key := BucketKey(epoch, resolution, start);
    if key in h.buckets then h.buckets[key] else ZERO
  }

  function SpanIn(span: Span, epoch: int, from: int, to: int): Stats {
    if span.epoch == epoch then DurationStats(span.observation, Clip(span.cursor, span.end, from, to)) else ZERO
  }

  /** Queued time of one epoch that falls in [from, to). */
  function Pending(spans: seq<Span>, epoch: int, from: int, to: int): Stats {
    if spans == [] then ZERO
    else Merge(SpanIn(spans[0], epoch, from, to), Pending(spans[1..], epoch, from, to))
  }

  /** What a bucket amounts to: its row and the time still queued for it. */
  function Content(h: History, epoch: int, resolution: int, start: int): Stats {
    Merge(Stored(h, epoch, resolution, start),
          Pending(h.spans, epoch, start, start + Width(resolution)))
  }

  // ----- invariants -----

  /** Entries lie in [started, end] and their times strictly increase. */
  predicate Ordered(log: Log, started: int, end: int) {
    log.Then? ==> started <= log.newest.at <= end && Ordered(log.older, started, log.newest.at - 1)
  }

  function Newest(log: Log): Option<Entry> {
    if log.Then? then Some(log.newest) else None
  }

  function EndAt(epoch: Epoch, now: int): int {
    if epoch.ended.Some? then Min(epoch.ended.value, now) else now
  }

  predicate EpochOk(epoch: Epoch, log: Log, clock: int) {
    && epoch.started <= EndAt(epoch, clock)
    && epoch.freshness >= 0
    && (epoch.ended.Some? ==> epoch.ended.value <= clock && epoch.last.None?)
    && (epoch.ended.None? ==> epoch.last == Newest(log))
    && Ordered(log, epoch.started, EndAt(epoch, clock))
  }

  ghost predicate EpochsOk(h: History, clock: int) {
    && h.log.Keys == h.epochs.Keys
    && forall id :: id in h.epochs ==> EpochOk(h.epochs[id], h.log[id], clock)
  }

  predicate Before(a: Epoch, b: Epoch) {
    a.ended.Some? && a.ended.value <= b.started
  }

  /** Lifetimes of one check never overlap; in particular at most one epoch of it is live. */
  ghost predicate LifetimesApart(h: History) {
    forall i, j :: i in h.epochs && j in h.epochs && i != j && h.epochs[i].key == h.epochs[j].key ==>
      Before(h.epochs[i], h.epochs[j]) || Before(h.epochs[j], h.epochs[i])
  }

  /** Bucket rows belong to a tier and start on its grid. */
  ghost predicate OnGrid(buckets: map<BucketKey, Stats>) {
    forall k :: k in buckets ==> IsTier(k.resolution) && Aligned(k.start, k.resolution)
  }

  /** Every row belongs to an epoch (the foreign keys). */
  ghost predicate Referenced(h: History) {
    && (forall k :: k in h.raw ==> k.0 in h.epochs)
    && (forall k :: k in h.events ==> k.0 in h.epochs)
    && (forall k :: k in h.buckets ==> k.epoch in h.epochs)
    && OnGrid(h.buckets)
    && (forall i :: 0 <= i < |h.spans| ==> h.spans[i].epoch in h.epochs)
  }

  /** Where the settled time of an epoch stops: queued spans end by then, the live tail starts there. */
  function SettledUntil(epoch: Epoch): int {
    if epoch.ended.Some? then epoch.ended.value
    else if epoch.last.Some? then epoch.last.value.at
    else epoch.started
  }

  predicate SpanOk(span: Span, epoch: Epoch) {
    && epoch.started <= span.cursor < span.end <= SettledUntil(epoch)
    && span.end - span.cursor <= epoch.freshness
  }

  /** Queued spans lie in their epoch's settled time, apart from each other, none longer than the freshness limit. */
  ghost predicate SpansOk(h: History) {
    && (forall i :: 0 <= i < |h.spans| ==>
        h.spans[i].epoch in h.epochs && SpanOk(h.spans[i], h.epochs[h.spans[i].epoch]))
    && (forall i, j :: 0 <= i < j < |h.spans| && h.spans[i].epoch == h.spans[j].epoch ==>
          h.spans[i].end <= h.spans[j].cursor)
  }

  ghost predicate ConservedAt(h: History, id: int, resolution: int, start: int) {
    && id in h.epochs && id in h.log
    && Content(h, id, resolution, start)
       == Ledger(h.epochs[id], h.log[id], start, start + Width(resolution))
  }

  /**
   * Conservation: at or after a tier's boundary, each bucket's row and queue add up to
   * exactly the samples and the settled time of the log.
   */
  ghost predicate Conserved(h: History, config: HistoryConfig, clock: int) {
    forall id, resolution, start ::
      id in h.epochs && IsTier(resolution) && Aligned(start, resolution)
      && Boundary(clock, config, resolution) <= start ==>
        ConservedAt(h, id, resolution, start)
  }

  ghost predicate Inv(h: History, config: HistoryConfig, clock: int) {
    && EpochsOk(h, clock)
    && LifetimesApart(h)
    && Referenced(h)
    && SpansOk(h)
    && Conserved(h, config, clock)
  }

  lemma {:induction false} OrderedLater(log: Log, started: int, end: int, later: int)
    requires Ordered(log, started, end) && end <= later
    ensures Ordered(log, started, later)
  {
  }

  lemma {:induction false} EntryInLifetime(log: Log, started: int, end: int, at: int)
    requires Ordered(log, started, end) && EntryAt(log, at).Some?
    ensures started <= at <= end
  {
    if log.newest.at != at {
      EntryInLifetime(log.older, started, log.newest.at - 1, at);
    }
  }

  lemma InvLater(h: History, config: HistoryConfig, clock: int, now: int)
    requires Inv(h, config, clock) && clock <= now
    ensures Inv(h, config, now)
  {
    forall id | id in h.epochs
      ensures EpochOk(h.epochs[id], h.log[id], now)
    {
      var e := h.epochs[id];
      OrderedLater(h.log[id], e.started, EndAt(e, clock), EndAt(e, now));
    }
    forall id, resolution, start |
      id in h.epochs && IsTier(resolution) && Aligned(start, resolution)
      && Boundary(now, config, resolution) <= start
      ensures ConservedAt(h, id, resolution, start)
    {
      hide Merge, Floor;
      BoundaryAdvances(clock, now, config, resolution);
    }
  }

  lemma InvParts(h: History, config: HistoryConfig, clock: int)
    requires Inv(h, config, clock)
    ensures EpochsOk(h, clock) && LifetimesApart(h) && SpansOk(h) && Referenced(h) && h.log.Keys == h.epochs.Keys
  {
  }

  lemma InvConserved(h: History, config: HistoryConfig, clock: int, id: int, resolution: int, start: int)
    requires Inv(h, config, clock) && id in h.epochs
    requires IsTier(resolution) && Aligned(start, resolution) && Boundary(clock, config, resolution) <= start
    ensures ConservedAt(h, id, resolution, start)
  {
    hide Boundary, Aligned, Content, Ledger, EpochsOk, LifetimesApart, Referenced, SpansOk;
  }

  lemma EmptyInv(config: HistoryConfig, clock: int)
    ensures Inv(EMPTY, config, clock)
  {
  }

  // ----- pending time is additive -----

  lemma {:induction false} NoQueue(spans: seq<Span>, epoch: int, from: int, to: int)
    requires forall i :: 0 <= i < |spans| ==> spans[i].epoch != epoch
    ensures Pending(spans, epoch, from, to) == ZERO
  {
    hide Merge;
    if spans != [] {
      NoQueue(spans[1..], epoch, from, to);
      MergeZero(ZERO);
    }
  }

  lemma {:induction false} PendingAppend(spans: seq<Span>, span: Span, epoch: int, from: int, to: int)
    ensures Pending(spans + [span], epoch, from, to)
         == Merge(Pending(spans, epoch, from, to), SpanIn(span, epoch, from, to))
  {
    var x := SpanIn(span, epoch, from, to);
    if spans == [] {
      assert spans + [span] == [span];
      assert Pending([span], epoch, from, to) == Merge(x, ZERO);
      MergeCommutes(x, ZERO);
    } else {
      var first, rest := SpanIn(spans[0], epoch, from, to), Pending(spans[1..], epoch, from, to);
      assert (spans + [span])[1..] == spans[1..] + [span];
      PendingAppend(spans[1..], span, epoch, from, to);
      MergeAssociates(first, rest, x);
    }
  }

  lemma {:induction false} PendingSplitsWindow(spans: seq<Span>, epoch: int, from: int, middle: int, to: int)
    requires from <= middle <= to
    ensures Pending(spans, epoch, from, to)
         == Merge(Pending(spans, epoch, from, middle), Pending(spans, epoch, middle, to))
  {
    hide Merge, DurationStats, Clip;
    if spans == [] {
      MergeZero(ZERO);
    } else {
      PendingSplitsWindow(spans[1..], epoch, from, middle, to);
      var s := spans[0];
      ClipSplitsWindow(s.cursor, s.end, from, middle, to);
      DurationAdds(s.observation, Clip(s.cursor, s.end, from, middle), Clip(s.cursor, s.end, middle, to));
      MergeZero(ZERO);
      assert SpanIn(s, epoch, from, to) == Merge(SpanIn(s, epoch, from, middle), SpanIn(s, epoch, middle, to));
      MergeSwap(SpanIn(s, epoch, from, middle), SpanIn(s, epoch, middle, to),
                Pending(spans[1..], epoch, from, middle), Pending(spans[1..], epoch, middle, to));
    }
  }

  lemma {:induction false} HeldSplitsWindow(log: Log, freshness: int, end: int, from: int, middle: int, to: int)
    requires from <= middle <= to
    ensures Held(log, freshness, end, from, to)
         == Merge(Held(log, freshness, end, from, middle), Held(log, freshness, end, middle, to))
  {
    hide Merge, DurationStats, Clip;
    match log
    case Start => MergeZero(ZERO);
    case Then(older, newest) =>
      HeldSplitsWindow(older, freshness, newest.at, from, middle, to);
      var until := HoldsUntil(newest, freshness, end);
      ClipSplitsWindow(newest.at, until, from, middle, to);
      DurationAdds(newest.observation, Clip(newest.at, until, from, middle), Clip(newest.at, until, middle, to));
      MergeSwap(Held(older, freshness, newest.at, from, middle), Held(older, freshness, newest.at, middle, to),
                HeldBy(newest, freshness, end, from, middle), HeldBy(newest, freshness, end, middle, to));
  }

  lemma {:induction false} SampledSplitsWindow(log: Log, from: int, middle: int, to: int)
    requires from <= middle <= to
    ensures Sampled(log, from, to) == Merge(Sampled(log, from, middle), Sampled(log, middle, to))
  {
    hide Merge, SampleStats;
    match log
    case Start => MergeZero(ZERO);
    case Then(older, newest) =>
      SampledSplitsWindow(older, from, middle, to);
      var s := SampleStats(newest.observation);
      var left := if from <= newest.at < middle then s else ZERO;
      var right := if middle <= newest.at < to then s else ZERO;
      MergeZero(s);
      MergeZero(ZERO);
      assert Merge(left, right) == if from <= newest.at < to then s else ZERO;
      MergeSwap(Sampled(older, from, middle), Sampled(older, middle, to), left, right);
  }
}
