/**
 * What a chart is made of (src/storage/sqlite/history/query.rs) and what it means:
 * every cell equals the integral of the accepted observations.
 */
module Chart {
  import opened Prelude
  import opened HistoryStats
  import opened Tiers
  import opened History
  import opened Sums

  // ----- the request -----

  datatype Request = Request(
    from: int,
    to: int,
    kind: string,
    check: Option<string>,
    hosts: seq<string>,
    groups: seq<string>,
    breakdown: string,
    maxPoints: int)

  predicate ValidName(s: string) {
    1 <= |s| <= 128
  }

  predicate ValidRequest(r: Request, now: int) {
    && 0 <= r.from < now
    && r.from < r.to <= now + 60_000
    && r.to - r.from <= 3660 * 86_400_000
    && 10 <= r.maxPoints <= 1000
    && (r.kind == "icmp" || r.kind == "tcp" || r.kind == "usage")
    && (r.breakdown == "all" || r.breakdown == "group" || r.breakdown == "host")
    && |r.hosts| <= 16 && |r.groups| <= 16
    && (forall i :: 0 <= i < |r.hosts| ==> ValidName(r.hosts[i]))
    && (forall i :: 0 <= i < |r.groups| ==> ValidName(r.groups[i]))
    && (r.check.Some? ==> ValidName(r.check.value))
  }

  /** The epoch is of the kind, hosts, groups and check asked for. */
  predicate InScope(e: Epoch, r: Request) {
    && e.key.kind == r.kind
    && (r.hosts == [] || e.key.host in r.hosts)
    && (r.groups == [] || exists g :: g in e.groups && g in r.groups)
    && (r.check.Some? ==> e.key.check == r.check.value)
  }

  /** The series an epoch counts in. */
  function Labels(e: Epoch, r: Request): set<string> {
    if r.breakdown == "host" then {e.key.host}
    else if r.breakdown == "group" then set g | g in e.groups && (r.groups == [] || g in r.groups)
    else {"all"}
  }

  /** What a request asks of the epochs in one of its series, condition by condition. */
  predicate AskedFor(e: Epoch, r: Request, key: string) {
    && e.key.kind == r.kind
    && (|r.hosts| > 0 ==> exists i :: 0 <= i < |r.hosts| && r.hosts[i] == e.key.host)
    && (|r.groups| > 0 ==> exists i :: 0 <= i < |r.groups| && r.groups[i] in e.groups)
    && (r.check.Some? ==> r.check.value == e.key.check)
    && (r.breakdown == "host" ==> key == e.key.host)
    && (r.breakdown == "group" ==> key in e.groups && (|r.groups| > 0 ==> key in r.groups))
    && (r.breakdown != "host" && r.breakdown != "group" ==> key == "all")
  }

  lemma AskedIsScope(e: Epoch, r: Request, key: string)
    ensures AskedFor(e, r, key) <==> InScope(e, r) && key in Labels(e, r)
  {
  }

  // ----- the plan -----

  /**
   * `group` source buckets make one output bucket; `retained` is the source tier's boundary
   * and `top` the end of the last source bucket.
   */
  datatype Plan = Plan(source: int, from: int, to: int, top: int, retained: int, group: int, count: int)

  function PlanWidth(plan: Plan): int {
    plan.group * Width(plan.source)
  }

  function Edge(plan: Plan, k: int): int {
    plan.from + k * PlanWidth(plan)
  }

  function CellEnd(plan: Plan, k: int): int {
    Min(Edge(plan, k + 1), plan.to)
  }

  predicate PlanOk(plan: Plan, config: HistoryConfig, now: int) {
    && IsTier(plan.source)
    && Aligned(plan.from, plan.source) && Aligned(plan.top, plan.source)
    && plan.retained == Boundary(now, config, plan.source)
    && plan.from < plan.to == Min(plan.top, now)
    && plan.top - Width(plan.source) < plan.to
    && plan.group >= 1
    && plan.count >= 1
    && Edge(plan, plan.count - 1) < plan.to <= Edge(plan, plan.count)
  }

  // ----- one epoch in one output bucket -----

  function RowAt(h: History, plan: Plan, id: int, start: int): Stats {
    if plan.retained <= start < plan.to then Stored(h, id, plan.source, start) else ZERO
  }

  /** The rows of `n` consecutive source buckets. */
  function StoredRange(h: History, plan: Plan, id: int, start: int, n: nat): Stats {
    if n == 0 then ZERO
    else Merge(StoredRange(h, plan, id, start, n - 1), RowAt(h, plan, id, start + (n - 1) * Width(plan.source)))
  }

  function WindowStart(plan: Plan, k: int): int {
    Max(Edge(plan, k), plan.retained)
  }

  function TailIn(h: History, now: int, id: int, from: int, to: int): Stats {
    if id in h.epochs && h.epochs[id].last.Some? then
      HeldBy(h.epochs[id].last.value, h.epochs[id].freshness, EndAt(h.epochs[id], now), from, to)
    else ZERO
  }

  /** Materialised rows, unfinished spans and the live tail. */
  function EpochCell(h: History, plan: Plan, now: int, id: int, k: int): Stats
    requires plan.group >= 0
  {
    Merge(StoredRange(h, plan, id, Edge(plan, k), plan.group),
          Merge(Pending(h.spans, id, WindowStart(plan, k), CellEnd(plan, k)),
                TailIn(h, now, id, WindowStart(plan, k), CellEnd(plan, k))))
  }

  // ----- the truth -----

  function Clamp(plan: Plan, at: int): int {
    Max(plan.retained, Min(at, plan.top))
  }

  /** The integral of one epoch's log over the retained part of the bucket. */
  ghost function IntegralOf(e: Epoch, log: Log, plan: Plan, now: int, k: int): Stats {
    Held(log, e.freshness, EndAt(e, now), WindowStart(plan, k), CellEnd(plan, k))
  }

  /** Its samples in the bucket and that integral. */
  ghost function TruthOf(e: Epoch, log: Log, plan: Plan, now: int, k: int): Stats {
    Merge(Sampled(log, Clamp(plan, Edge(plan, k)), Clamp(plan, Edge(plan, k + 1))), IntegralOf(e, log, plan, now, k))
  }

  ghost function EpochTruth(h: History, plan: Plan, now: int, id: int, k: int): Stats {
    if id in h.epochs && id in h.log then TruthOf(h.epochs[id], h.log[id], plan, now, k) else ZERO
  }

  ghost function EpochIntegral(h: History, plan: Plan, now: int, id: int, k: int): Stats {
    if id in h.epochs && id in h.log then IntegralOf(h.epochs[id], h.log[id], plan, now, k) else ZERO
  }

  // ----- the cell is the truth -----

  /** An aligned source bucket is either kept whole by the clamp or cut away whole. */
  lemma ClampKeepsOrDrops(plan: Plan, config: HistoryConfig, now: int, start: int)
    requires PlanOk(plan, config, now) && Aligned(start, plan.source)
    ensures var next := start + Width(plan.source);
      if plan.retained <= start < plan.to
      then Clamp(plan, start) == start && Clamp(plan, next) == next
      else Clamp(plan, start) == Clamp(plan, next)
  {
    hide Boundary, Aligned, PlanWidth;
    BoundaryAdvances(now, now, config, plan.source);
    var next := start + Width(plan.source);
    if start < plan.top {
      AlignedApart(start, plan.top, plan.source);
    }
    if start < plan.retained {
      AlignedApart(start, plan.retained, plan.source);
    }
  }

  /** Rows and queue against samples and settled time, over `n` consecutive source buckets. */
  lemma {:induction false} RangeConserved(
    h: History, plan: Plan, config: HistoryConfig, now: int, id: int, start: int, n: nat)
    requires PlanOk(plan, config, now) && Inv(h, config, now) && id in h.epochs && Aligned(start, plan.source)
    ensures var from, to := Clamp(plan, start), Clamp(plan, start + n * Width(plan.source));
      Merge(StoredRange(h, plan, id, start, n), Pending(h.spans, id, from, to))
      == Ledger(h.epochs[id], h.log[id], from, to)
  {
    hide Merge, PlanOk, Inv, Clamp, Pending, Ledger, Aligned, RowAt, EpochsOk, LifetimesApart, SpansOk, Referenced;
    InvParts(h, config, now);
    PlanTier(plan, config, now);
    var e, log, w := h.epochs[id], h.log[id], Width(plan.source);
    var a := Clamp(plan, start);
    if n == 0 {
      assert start + n * w == start;
      EmptyWindow(h, id, a);
    } else {
      var last := start + (n - 1) * w;
      var b, c := Clamp(plan, last), Clamp(plan, start + n * w);
      assert last + w == start + n * w;
      RangeConserved(h, plan, config, now, id, start, n - 1);
      StaysAligned(plan, config, now, start, n - 1);
      BucketConserved(h, plan, config, now, id, last);
      ClampMonotone(plan, start, last, start + n * w);
      PendingSplitsWindow(h.spans, id, a, b, c);
      LedgerSplits(e, log, a, b, c);
      MergeSwap(StoredRange(h, plan, id, start, n - 1), RowAt(h, plan, id, last),
                Pending(h.spans, id, a, b), Pending(h.spans, id, b, c));
    }
  }

  lemma ClampMonotone(plan: Plan, x: int, y: int, z: int)
    requires x <= y <= z
    ensures Clamp(plan, x) <= Clamp(plan, y) <= Clamp(plan, z)
  {
  }

  lemma StaysAligned(plan: Plan, config: HistoryConfig, now: int, start: int, n: nat)
    requires PlanOk(plan, config, now) && Aligned(start, plan.source)
    ensures Aligned(start + n * Width(plan.source), plan.source)
    ensures start <= start + n * Width(plan.source) <= start + (n + 1) * Width(plan.source)
  {
    hide Boundary, Aligned;
    StepsAligned(start, n, plan.source);
  }

  lemma BucketConserved(h: History, plan: Plan, config: HistoryConfig, now: int, id: int, start: int)
    requires PlanOk(plan, config, now) && Inv(h, config, now) && id in h.epochs && Aligned(start, plan.source)
    ensures var from, to := Clamp(plan, start), Clamp(plan, start + Width(plan.source));
      Merge(RowAt(h, plan, id, start), Pending(h.spans, id, from, to)) == Ledger(h.epochs[id], h.log[id], from, to)
  {
    hide Merge, Inv, Clamp, Pending, Ledger, Aligned, Boundary, PlanOk, EpochsOk, LifetimesApart, SpansOk, Referenced;
    InvParts(h, config, now);
    ClampKeepsOrDrops(plan, config, now, start);
    PlanTier(plan, config, now);
    if plan.retained <= start < plan.to {
      InvConserved(h, config, now, id, plan.source, start);
    } else {
      EmptyWindow(h, id, Clamp(plan, start));
    }
  }

  lemma PlanTier(plan: Plan, config: HistoryConfig, now: int)
    requires PlanOk(plan, config, now)
    ensures IsTier(plan.source) && plan.retained == Boundary(now, config, plan.source)
  {
  }

  lemma EmptyWindow(h: History, id: int, at: int)
    requires id in h.epochs && id in h.log
    ensures Merge(ZERO, Pending(h.spans, id, at, at)) == Ledger(h.epochs[id], h.log[id], at, at)
  {
    hide Merge, Pending, Sampled, Held;
    NoPending(h.spans, id, at);
    NoSamples(h.log[id], at);
    forall freshness, end, log {
      NoneHeld(log, freshness, end, at);
    }
  }

  lemma {:induction false} NoPending(spans: seq<Span>, id: int, at: int)
    ensures Pending(spans, id, at, at) == ZERO
  {
    hide Merge;
    if spans != [] {
      NoPending(spans[1..], id, at);
      NoDuration(spans[0].observation);
      MergeZero(ZERO);
    }
  }

  lemma {:induction false} NoSamples(log: Log, at: int)
    ensures Sampled(log, at, at) == ZERO
  {
    hide Merge;
    MergeZero(ZERO);
    if log.Then? {
      NoSamples(log.older, at);
    }
  }

  lemma {:induction false} NoneHeld(log: Log, freshness: int, end: int, at: int)
    ensures Held(log, freshness, end, at, at) == ZERO
  {
    hide Merge;
    MergeZero(ZERO);
    if log.Then? {
      NoneHeld(log.older, freshness, log.newest.at, at);
      NoDuration(log.newest.observation);
    }
  }

  lemma LedgerSplits(e: Epoch, log: Log, from: int, middle: int, to: int)
    requires from <= middle <= to
    ensures Ledger(e, log, from, to) == Merge(Ledger(e, log, from, middle), Ledger(e, log, middle, to))
  {
    hide Merge, Sampled, Held;
    SampledSplitsWindow(log, from, middle, to);
    MergeZero(ZERO);
    if e.ended.Some? {
      HeldSplitsWindow(log, e.freshness, e.ended.value, from, middle, to);
    } else if log.Then? {
      HeldSplitsWindow(log.older, e.freshness, log.newest.at, from, middle, to);
    }
    MergeSwap(Sampled(log, from, middle), Sampled(log, middle, to),
              Settled(e, log, from, middle), Settled(e, log, middle, to));
  }

  /** Cutting the clamped source range to the returned range loses no time, since none lies after `now`. */
  lemma WindowCut(plan: Plan, config: HistoryConfig, now: int, k: int, start: int, end: int)
    requires PlanOk(plan, config, now) && end <= now
    ensures Clip(start, end, Clamp(plan, Edge(plan, k)), Clamp(plan, Edge(plan, k + 1)))
         == Clip(start, end, WindowStart(plan, k), CellEnd(plan, k))
  {
    EdgeStep(plan, k);
    hide Edge, Boundary, Aligned;
    assert Edge(plan, k) <= Edge(plan, k + 1) && plan.to == Min(plan.top, now);
  }

  lemma EdgeStep(plan: Plan, k: int)
    requires plan.group >= 1 && IsTier(plan.source)
    ensures Edge(plan, k + 1) == Edge(plan, k) + plan.group * Width(plan.source) > Edge(plan, k)
  {
    assert (k + 1) * PlanWidth(plan) == k * PlanWidth(plan) + PlanWidth(plan);
  }

  lemma {:induction false} PendingCut(spans: seq<Span>, plan: Plan, config: HistoryConfig, now: int, id: int, k: int)
    requires PlanOk(plan, config, now) && forall i :: 0 <= i < |spans| ==> spans[i].end <= now
    ensures Pending(spans, id, Clamp(plan, Edge(plan, k)), Clamp(plan, Edge(plan, k + 1)))
         == Pending(spans, id, WindowStart(plan, k), CellEnd(plan, k))
  {
    hide Merge, PlanOk, Clamp, Clip, Edge, DurationStats, WindowStart, CellEnd;
    if spans != [] {
      WindowCut(plan, config, now, k, spans[0].cursor, spans[0].end);
      PendingCut(spans[1..], plan, config, now, id, k);
    }
  }

  lemma {:induction false} HeldCut(
    log: Log, freshness: int, end: int, plan: Plan, config: HistoryConfig, now: int, k: int, started: int)
    requires PlanOk(plan, config, now) && end <= now && Ordered(log, started, end)
    ensures Held(log, freshness, end, Clamp(plan, Edge(plan, k)), Clamp(plan, Edge(plan, k + 1)))
         == Held(log, freshness, end, WindowStart(plan, k), CellEnd(plan, k))
  {
    hide Merge, PlanOk, Clamp, Clip, Edge, DurationStats, WindowStart, CellEnd;
    if log.Then? {
      WindowCut(plan, config, now, k, log.newest.at, HoldsUntil(log.newest, freshness, end));
      OrderedLater(log.older, started, log.newest.at - 1, log.newest.at);
      HeldCut(log.older, freshness, log.newest.at, plan, config, now, k, started);
    }
  }

  /** The settled time and the live tail make up the whole integral. */
  lemma SettledAndTail(h: History, now: int, id: int, from: int, to: int)
    requires EpochsOk(h, now) && id in h.epochs
    ensures Merge(Settled(h.epochs[id], h.log[id], from, to), TailIn(h, now, id, from, to))
         == Held(h.log[id], h.epochs[id].freshness, EndAt(h.epochs[id], now), from, to)
  {
    hide Merge, HeldBy, Ordered;
    var e := h.epochs[id];
    assert EpochOk(e, h.log[id], now);
    MergeZero(Settled(e, h.log[id], from, to));
  }

  lemma SpansEnded(h: History, now: int)
    requires EpochsOk(h, now) && SpansOk(h)
    ensures forall i :: 0 <= i < |h.spans| ==> h.spans[i].end <= now
  {
    hide Ordered;
    forall i | 0 <= i < |h.spans|
      ensures h.spans[i].end <= now
    {
      var id := h.spans[i].epoch;
      assert EpochOk(h.epochs[id], h.log[id], now);
      NewestInTime(h, id, now);
    }
  }

  lemma NewestInTime(h: History, id: int, now: int)
    requires EpochsOk(h, now) && id in h.epochs
    ensures SettledUntil(h.epochs[id]) <= now
  {
    assert EpochOk(h.epochs[id], h.log[id], now);
  }

  /**
   * Main result for one epoch: materialised rows, unfinished spans and the live tail add up to
   * the bucket's samples and the integral of the accepted observations.
   */
  lemma CellIsTruth(h: History, plan: Plan, config: HistoryConfig, now: int, id: int, k: int)
    requires PlanOk(plan, config, now) && Inv(h, config, now) && id in h.epochs
    ensures EpochCell(h, plan, now, id, k) == EpochTruth(h, plan, now, id, k)
  {
    hide Merge, PlanOk, Inv, Clamp, Pending, Sampled, Settled, Held, Boundary, Aligned,
         EpochsOk, LifetimesApart, SpansOk, Referenced, Edge, StoredRange, HeldBy;
    InvParts(h, config, now);
    PlanEdges(plan, config, now, k);
    SpansEnded(h, now);
    var e, log, w := h.epochs[id], h.log[id], Width(plan.source);
    var a, z := Clamp(plan, Edge(plan, k)), Clamp(plan, Edge(plan, k + 1));
    var x, y := WindowStart(plan, k), CellEnd(plan, k);
    var rows := StoredRange(h, plan, id, Edge(plan, k), plan.group);
    RangeConserved(h, plan, config, now, id, Edge(plan, k), plan.group);
    PendingCut(h.spans, plan, config, now, id, k);
    SettledAndTail(h, now, id, a, z);
    TailCut(h, plan, config, now, id, k);
    WholeLogCut(h, plan, config, now, id, k);
    MergeAssociates(rows, Pending(h.spans, id, a, z), TailIn(h, now, id, a, z));
    MergeAssociates(Sampled(log, a, z), Settled(e, log, a, z), TailIn(h, now, id, a, z));
  }

  lemma PlanEdges(plan: Plan, config: HistoryConfig, now: int, k: int)
    requires PlanOk(plan, config, now)
    ensures IsTier(plan.source) && plan.group >= 1
    ensures Aligned(Edge(plan, k), plan.source)
    ensures Edge(plan, k + 1) == Edge(plan, k) + plan.group * Width(plan.source)
  {
    hide Boundary;
    EdgeStep(plan, k);
    Regroup(k, plan.group, Width(plan.source));
    StepsAligned(plan.from, k * plan.group, plan.source);
    hide Aligned;
  }

  lemma Regroup(k: int, group: int, w: int)
    ensures k * (group * w) == (k * group) * w
  {
  }

  lemma TailCut(h: History, plan: Plan, config: HistoryConfig, now: int, id: int, k: int)
    requires PlanOk(plan, config, now)
    ensures TailIn(h, now, id, Clamp(plan, Edge(plan, k)), Clamp(plan, Edge(plan, k + 1)))
         == TailIn(h, now, id, WindowStart(plan, k), CellEnd(plan, k))
  {
    hide PlanOk, Clamp, Clip, Edge, DurationStats, WindowStart, CellEnd;
    if id in h.epochs && h.epochs[id].last.Some? {
      var e := h.epochs[id];
      WindowCut(plan, config, now, k, e.last.value.at, HoldsUntil(e.last.value, e.freshness, EndAt(e, now)));
    }
  }

  lemma WholeLogCut(h: History, plan: Plan, config: HistoryConfig, now: int, id: int, k: int)
    requires PlanOk(plan, config, now) && EpochsOk(h, now) && id in h.epochs
    ensures Held(h.log[id], h.epochs[id].freshness, EndAt(h.epochs[id], now),
                 Clamp(plan, Edge(plan, k)), Clamp(plan, Edge(plan, k + 1)))
         == EpochIntegral(h, plan, now, id, k)
  {
    hide PlanOk, Clamp, Clip, Edge, DurationStats, WindowStart, CellEnd, Held, Ordered;
    var e := h.epochs[id];
    assert EpochOk(e, h.log[id], now);
    HeldCut(h.log[id], e.freshness, EndAt(e, now), plan, config, now, k, e.started);
  }
}
