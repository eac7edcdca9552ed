/**
 * How much time each single observation is credited (docs/history-maintenance.md:40-42): never more
 * than its freshness limit, in one bucket or over all of them.
 */
module Credits {
  import opened Prelude
  import opened HistoryStats
  import opened Tiers
  import opened History
  import opened Chart
  import opened Query
  import opened Promises

  /** An observation and the moment the next thing happened. */
  datatype Holding = Holding(entry: Entry, end: int)

  /** The observations of an epoch, oldest first. */
  function Holdings(log: Log, end: int): seq<Holding> {
    match log
    case Start => []
    case Then(older, newest) => Holdings(older, newest.at) + [Holding(newest, end)]
  }

  /** The ones whose time is settled: all of a closed epoch, all but the newest of a live one. */
  function SettledHoldings(e: Epoch, log: Log): seq<Holding> {
    if e.ended.Some? then Holdings(log, e.ended.value)
    else if log.Then? then Holdings(log.older, log.newest.at)
    else []
  }

  /** What one observation is credited with in [from, to). */
  function Share(x: Holding, freshness: int, from: int, to: int): Stats {
    HeldBy(x.entry, freshness, x.end, from, to)
  }

  function Combined(xs: seq<Holding>, freshness: int, from: int, to: int): Stats {
    if xs == [] then ZERO
    else Merge(Combined(xs[..|xs| - 1], freshness, from, to), Share(xs[|xs| - 1], freshness, from, to))
  }

  predicate Within(s: Stats, ms: int) {
    s.upMs + s.downMs <= ms && s.usageMs <= ms
  }

  /** Each observation is credited at most its freshness limit, and nothing where it cannot hold. */
  ghost predicate EachWithin(xs: seq<Holding>, freshness: int, from: int, to: int) {
    forall i :: 0 <= i < |xs| ==>
      && Within(Share(xs[i], freshness, from, to), freshness)
      && (to <= xs[i].entry.at || xs[i].entry.at + freshness <= from ==> Share(xs[i], freshness, from, to) == ZERO)
  }

  lemma {:induction false} HeldIsCombined(log: Log, freshness: int, end: int, from: int, to: int)
    ensures Held(log, freshness, end, from, to) == Combined(Holdings(log, end), freshness, from, to)
  {
    hide Merge, HeldBy;
    if log.Then? {
      HeldIsCombined(log.older, freshness, log.newest.at, from, to);
      var xs := Holdings(log, end);
      assert xs[..|xs| - 1] == Holdings(log.older, log.newest.at);
    }
  }

  lemma SettledIsCombined(e: Epoch, log: Log, from: int, to: int)
    ensures Settled(e, log, from, to) == Combined(SettledHoldings(e, log), e.freshness, from, to)
  {
    hide Merge, HeldBy, Held, Combined, Holdings;
    if e.ended.Some? {
      HeldIsCombined(log, e.freshness, e.ended.value, from, to);
    } else if log.Then? {
      HeldIsCombined(log.older, e.freshness, log.newest.at, from, to);
    } else {
      assert Combined([], e.freshness, from, to) == ZERO by { NothingCombined(e.freshness, from, to); }
    }
  }

  lemma NothingCombined(freshness: int, from: int, to: int)
    ensures Combined([], freshness, from, to) == ZERO
  {
  }

  lemma CreditsWithin(xs: seq<Holding>, freshness: int, from: int, to: int)
    requires freshness >= 0
    ensures EachWithin(xs, freshness, from, to)
  {
    hide DurationStats;
    forall i | 0 <= i < |xs|
      ensures Within(Share(xs[i], freshness, from, to), freshness)
      ensures to <= xs[i].entry.at || xs[i].entry.at + freshness <= from ==> Share(xs[i], freshness, from, to) == ZERO
    {
      OneEntryFits(xs[i].entry, freshness, xs[i].end, from, to);
      NoDuration(xs[i].entry.observation);
    }
  }

  /**
   * Main result for one bucket of an answer: materialised rows, unfinished spans and live tail of an
   * epoch add up to its samples and one credit per observation, none above the freshness limit.
   */
  lemma CellPerEntry(h: History, plan: Plan, config: HistoryConfig, now: int, id: int, k: int)
    requires PlanOk(plan, config, now) && Inv(h, config, now) && id in h.epochs
    ensures id in h.log && plan.group > 0
    ensures var e, from, to := h.epochs[id], WindowStart(plan, k), CellEnd(plan, k);
      var xs := Holdings(h.log[id], EndAt(e, now));
      var samples := Sampled(h.log[id], Clamp(plan, Edge(plan, k)), Clamp(plan, Edge(plan, k + 1)));
      && EpochCell(h, plan, now, id, k) == Merge(samples, Combined(xs, e.freshness, from, to))
      && EachWithin(xs, e.freshness, from, to)
  {
    hide PlanOk, Inv, Held, Sampled, EpochCell, Clamp, Edge, WindowStart, CellEnd, Ordered, Merge, Combined, EachWithin,
         Holdings;
    PlanEdges(plan, config, now, k);
    InvParts(h, config, now);
    CellIsTruth(h, plan, config, now, id, k);
    var e := h.epochs[id];
    assert EpochOk(e, h.log[id], now);
    HeldIsCombined(h.log[id], e.freshness, EndAt(e, now), WindowStart(plan, k), CellEnd(plan, k));
    CreditsWithin(Holdings(h.log[id], EndAt(e, now)), e.freshness, WindowStart(plan, k), CellEnd(plan, k));
  }

  /** The same for what a stored bucket has materialised and queued. */
  lemma StoredPerEntry(h: History, config: HistoryConfig, clock: int, id: int, resolution: int, start: int)
    requires Inv(h, config, clock) && id in h.epochs
    requires IsTier(resolution) && Aligned(start, resolution) && Boundary(clock, config, resolution) <= start
    ensures id in h.log
    ensures var e, next := h.epochs[id], start + Width(resolution);
      var xs := SettledHoldings(e, h.log[id]);
      && Content(h, id, resolution, start)
         == Merge(Sampled(h.log[id], start, next), Combined(xs, e.freshness, start, next))
      && EachWithin(xs, e.freshness, start, next)
  {
    hide Inv, Settled, Sampled, Content, Boundary, Aligned, Ordered, LifetimesApart, SpansOk, Referenced, Merge,
         Combined, EachWithin, SettledHoldings;
    InvParts(h, config, clock);
    InvConserved(h, config, clock, id, resolution, start);
    var e, next := h.epochs[id], start + Width(resolution);
    assert EpochOk(e, h.log[id], clock);
    SettledIsCombined(e, h.log[id], start, next);
    CreditsWithin(SettledHoldings(e, h.log[id]), e.freshness, start, next);
  }

  // ----- one observation over many buckets -----

  function EdgeAt(base: int, width: int, n: int): int {
    base + n * width
  }

  /** Its credit in `n` neighbouring windows of one width, each cut to [lo, hi). */
  function Across(x: Holding, freshness: int, base: int, width: int, lo: int, hi: int, n: nat): Stats {
    if n == 0 then ZERO
    else
      Merge(Across(x, freshness, base, width, lo, hi, n - 1),
            Share(x, freshness, Max(EdgeAt(base, width, n - 1), lo), Min(EdgeAt(base, width, n), hi)))
  }

  lemma ShareFits(x: Holding, freshness: int, base: int, from: int, next: int, lo: int, hi: int)
    requires base <= from <= next
    ensures var until := HoldsUntil(x.entry, freshness, x.end);
      Within(
        Share(x, freshness, Max(from, lo), Min(next, hi)),
        Clip(x.entry.at, until, base, next) - Clip(x.entry.at, until, base, from))
  {
    ClipSplitsWindow(x.entry.at, HoldsUntil(x.entry, freshness, x.end), base, from, next);
    assert "up"[0] != "down"[0];
  }

  lemma {:induction false} AcrossClips(x: Holding, freshness: int, base: int, width: int, lo: int, hi: int, n: nat)
    requires width > 0
    ensures Within(
      Across(x, freshness, base, width, lo, hi, n),
      Clip(x.entry.at, HoldsUntil(x.entry, freshness, x.end), base, EdgeAt(base, width, n)))
  {
    hide Share, HoldsUntil, Clip, EdgeAt;
    if n > 0 {
      AcrossClips(x, freshness, base, width, lo, hi, n - 1);
      NextEdge(base, width, n);
      ShareFits(x, freshness, base, EdgeAt(base, width, n - 1), EdgeAt(base, width, n), lo, hi);
    }
  }

  lemma NextEdge(base: int, width: int, n: nat)
    requires n > 0 && width > 0
    ensures base <= EdgeAt(base, width, n - 1) <= EdgeAt(base, width, n)
  {
  }

  /** Over any number of neighbouring buckets an observation is credited at most its freshness limit. */
  lemma AcrossFits(x: Holding, freshness: int, base: int, width: int, lo: int, hi: int, n: nat)
    requires width > 0 && freshness >= 0
    ensures Within(Across(x, freshness, base, width, lo, hi, n), freshness)
  {
    hide Across, EdgeAt;
    AcrossClips(x, freshness, base, width, lo, hi, n);
  }

  /** Main result: over all buckets of an answer no observation is credited more than its freshness limit. */
  lemma EntryAcrossBuckets(h: History, plan: Plan, config: HistoryConfig, now: int, id: int, i: nat)
    requires PlanOk(plan, config, now) && Inv(h, config, now) && id in h.epochs && id in h.log
    requires i < |Holdings(h.log[id], EndAt(h.epochs[id], now))|
    ensures var e := h.epochs[id];
      var x := Holdings(h.log[id], EndAt(e, now))[i];
      && PlanWidth(plan) > 0 && plan.count >= 0
      && Within(
           Across(x, e.freshness, plan.from, PlanWidth(plan), plan.retained, plan.to, plan.count), e.freshness)
      && forall k :: WindowStart(plan, k) == Max(EdgeAt(plan.from, PlanWidth(plan), k), plan.retained)
                     && CellEnd(plan, k) == Min(EdgeAt(plan.from, PlanWidth(plan), k + 1), plan.to)
  {
    hide Inv, Held, Ordered, Across, Share, Holdings, Within, Boundary, Aligned;
    InvParts(h, config, now);
    var e := h.epochs[id];
    assert EpochOk(e, h.log[id], now);
    assert PlanWidth(plan) > 0 by { assert plan.group * Width(plan.source) > 0; }
    var x := Holdings(h.log[id], EndAt(e, now))[i];
    AcrossFits(x, e.freshness, plan.from, PlanWidth(plan), plan.retained, plan.to, plan.count);
  }

  /** And over any run of a tier's buckets, in what they have materialised and queued. */
  lemma EntryAcrossTier(
    h: History, config: HistoryConfig, clock: int, id: int, resolution: int, start: int, n: nat, i: nat)
    requires Inv(h, config, clock) && id in h.epochs && id in h.log && IsTier(resolution)
    requires i < |SettledHoldings(h.epochs[id], h.log[id])|
    ensures var e, w := h.epochs[id], Width(resolution);
      var x := SettledHoldings(e, h.log[id])[i];
      Within(Across(x, e.freshness, start, w, start, EdgeAt(start, w, n), n), e.freshness)
  {
    hide Inv, Ordered, Across, Share, Within, SettledHoldings;
    InvParts(h, config, clock);
    var e, w := h.epochs[id], Width(resolution);
    assert EpochOk(e, h.log[id], clock);
    AcrossFits(SettledHoldings(e, h.log[id])[i], e.freshness, start, w, start, EdgeAt(start, w, n), n);
  }
}
