/**
 * Choosing a source tier and laying out the output buckets
 * (`query`, src/storage/sqlite/history/query.rs:166-194).
 */
module Plans {
  import opened Prelude
  import opened Tiers
  import opened Chart

  /** The finest tier that covers the range and keeps enough points. */
  function DesiredSource(r: Request, config: HistoryConfig, now: int): int
    requires r.maxPoints > 0
  {
    var desired := (r.to - r.from) / (r.maxPoints * 1000);
    if r.from < Cutoff(now, config.hourlyRetention) || desired >= DAY then DAY
    else if r.from < Cutoff(now, config.fiveMinuteRetention) || desired >= HOUR then HOUR
    else FIVE_MINUTES
  }

  /** Estimated work above the limit moves to a coarser tier. */
  function Coarsen(source: int, r: Request, epochs: nat): (tier: int)
    requires IsTier(source)
    ensures IsTier(tier) && tier >= source
    ensures tier < DAY ==> epochs * ((r.to - r.from) / Width(tier) + 1) <= 150_000
    decreases DAY - source
  {
    if source < DAY && epochs * ((r.to - r.from) / Width(source) + 1) > 150_000 then
      Coarsen(if source == FIVE_MINUTES then HOUR else DAY, r, epochs)
    else source
  }

  /** How many lengths of `b` it takes to cover `a`. */
  function CeilDiv(a: int, b: int): (n: nat)
    requires b > 0
    decreases Max(0, a)
  {
    if a <= 0 then 0 else 1 + CeilDiv(a - b, b)
  }

  function PlanWith(r: Request, config: HistoryConfig, now: int, source: int): Plan
    requires r.maxPoints > 0 && IsTier(source)
  {
    var from := Floor(r.from, source);
    var top := Floor(r.to - 1, source) + Width(source);
    var to := Min(top, now);
    var group := Max(CeilDiv(to - from, r.maxPoints * Width(source)), 1);
    Plan(source, from, to, top, Boundary(now, config, source), group, CeilDiv(to - from, group * Width(source)))
  }

  /** `r` already ends at or before `now`. */
  function PlanFor(r: Request, config: HistoryConfig, now: int, epochs: nat): Plan
    requires r.maxPoints > 0
  {
    PlanWith(r, config, now, Coarsen(DesiredSource(r, config, now), r, epochs))
  }

  /** Nothing of the range is past the tier's retention. */
  predicate Retains(tier: int, r: Request, config: HistoryConfig, now: int) {
    Cutoff(now, Retention(config, tier)) <= r.from
  }

  /** The tier is no finer than the points asked for, and reading it is little enough work. */
  predicate Affordable(tier: int, coarser: int, r: Request, epochs: nat)
    requires r.maxPoints > 0 && tier > 0
  {
    (r.to - r.from) / (r.maxPoints * 1000) < coarser && epochs * ((r.to - r.from) / Width(tier) + 1) <= 150_000
  }

  /**
   * The source is the finest tier that retains the whole range and is affordable; the daily tier
   * serves when no finer one does.
   */
  lemma SourceIsFinest(r: Request, config: HistoryConfig, now: int, epochs: nat)
    requires r.maxPoints > 0 && config.Valid()
    ensures var source := PlanFor(r, config, now, epochs).source;
      var fine := Retains(FIVE_MINUTES, r, config, now) && Affordable(FIVE_MINUTES, HOUR, r, epochs);
      var hourly := Retains(HOUR, r, config, now) && Affordable(HOUR, DAY, r, epochs);
      source == if fine then FIVE_MINUTES else if hourly then HOUR else DAY
  {
    hide Floor, Boundary, CeilDiv;
    PlanSource(r, config, now, epochs);
  }

  lemma PlanSource(r: Request, config: HistoryConfig, now: int, epochs: nat)
    requires r.maxPoints > 0
    ensures PlanFor(r, config, now, epochs).source == Coarsen(DesiredSource(r, config, now), r, epochs)
  {
    hide Floor, Boundary, CeilDiv, Coarsen, DesiredSource;
  }

  /** A range within the source's retention starts at or after its boundary, so none of it is cut away. */
  lemma SourceRetainsRange(r: Request, config: HistoryConfig, now: int, epochs: nat)
    requires r.maxPoints > 0 && config.Valid() && PlanFor(r, config, now, epochs).source < DAY
    ensures var plan := PlanFor(r, config, now, epochs); plan.retained <= plan.from
  {
    SourceIsFinest(r, config, now, epochs);
    hide CeilDiv, Coarsen, DesiredSource, Floor, Affordable;
    var plan := PlanFor(r, config, now, epochs);
    FloorMonotone(Cutoff(now, Retention(config, plan.source)), r.from, plan.source);
  }

  lemma {:induction false} CeilDivBounds(a: int, b: int)
    requires a > 0 && b > 0
    ensures (CeilDiv(a, b) - 1) * b < a <= CeilDiv(a, b) * b
    decreases a
  {
    var n := CeilDiv(a - b, b);
    assert (n + 1) * b == n * b + b;
    if a > b {
      CeilDivBounds(a - b, b);
      assert (n - 1) * b == n * b - b;
    }
  }

  /** The program rounds up by adding before it divides. */
  lemma RoundsUp(a: int, b: int)
    requires a > 0 && b > 0
    ensures (a + b - 1) / b == CeilDiv(a, b)
  {
    hide CeilDiv;
    CeilDivBounds(a, b);
    DivBounds(a + b - 1, b);
    var q, n := (a + b - 1) / b, CeilDiv(a, b);
    assert (n - 1) * b == n * b - b;
    assert (q + 1) * b == q * b + b;
    Cancel(q - 1, n, b);
    Cancel(n, q + 1, b);
  }

  lemma DivBounds(a: int, b: int)
    requires b > 0
    ensures a / b * b <= a < (a / b + 1) * b
  {
    assert a == a / b * b + a % b;
    assert (a / b + 1) * b == a / b * b + b;
  }

  lemma NotPositive(x: int, w: int)
    requires w > 0 && x <= 0
    ensures x * w <= 0
  {
  }

  lemma Cancel(a: int, b: int, w: int)
    requires w > 0 && a * w < b * w
    ensures a < b
  {
    assert (b - a) * w == b * w - a * w;
    if a >= b {
      NotPositive(b - a, w);
    }
  }

  /** The output buckets tile the returned range and there are between 1 and `maxPoints` of them. */
  lemma PlanTiles(r: Request, config: HistoryConfig, now: int, epochs: nat)
    requires r.from < r.to <= now && r.maxPoints > 0
    ensures var plan := PlanFor(r, config, now, epochs);
      && PlanOk(plan, config, now)
      && 1 <= plan.count <= r.maxPoints
      && plan.from <= r.from && r.to <= plan.to
  {
    hide Boundary, CeilDiv, Coarsen, DesiredSource;
    var plan := PlanFor(r, config, now, epochs);
    var source, length := plan.source, plan.to - plan.from;
    FloorBounds(r.from, source);
    FloorBounds(r.to - 1, source);
    FloorBounds(r.from, source);
    hide Floor;
    assert Aligned(plan.top, source) by { NextAligned(r.to - 1, source); }
    assert plan.from < plan.to;
    TileCount(length, r.maxPoints, Width(source));
    PlanEdgesFrom(plan);
  }

  lemma PlanEdgesFrom(plan: Plan)
    ensures Edge(plan, plan.count) - plan.from == plan.count * (plan.group * Width(plan.source))
    ensures Edge(plan, plan.count - 1) - plan.from == (plan.count - 1) * (plan.group * Width(plan.source))
  {
  }

  lemma TileCount(length: int, points: int, w: int)
    requires length > 0 && points > 0 && w > 0
    ensures var group := Max(CeilDiv(length, points * w), 1);
      var count := CeilDiv(length, group * w);
      && group * w > 0
      && (count - 1) * (group * w) < length <= count * (group * w)
      && 1 <= count <= points
  {
    hide CeilDiv;
    assert points * w > 0;
    CeilDivBounds(length, points * w);
    var need := CeilDiv(length, points * w);
    var group := Max(need, 1);
    assert group * w > 0;
    CeilDivBounds(length, group * w);
    var count := CeilDiv(length, group * w);
    assert need * (points * w) <= points * (group * w) by {
      assert need * (points * w) == points * (need * w);
      assert need * w <= group * w by {
        assert (group - need) * w >= 0;
        assert (group - need) * w == group * w - need * w;
      }
      assert points * (group * w - need * w) >= 0;
      assert points * (group * w - need * w) == points * (group * w) - points * (need * w);
    }
    Cancel(count - 1, points, group * w);
    assert count * (group * w) > 0 * (group * w);
    Cancel(0, count, group * w);
  }

  /** The bucket that holds a moment of the range. */
  lemma CellOf(plan: Plan, at: int)
    requires PlanWidth(plan) > 0 && plan.from <= at < plan.to <= Edge(plan, plan.count)
    ensures var k := (at - plan.from) / PlanWidth(plan);
      0 <= k < plan.count && Edge(plan, k) <= at < Edge(plan, k + 1)
  {
    var w := PlanWidth(plan);
    var k := (at - plan.from) / w;
    DivBounds(at - plan.from, w);
    Cancel(k, plan.count, w);
    Cancel(-1, k, w);
  }

  lemma InOneCell(j: int, k: int, group: int, w: int, count: int)
    requires group >= 1 && w > 0
    requires k * (group * w) <= j * w < (k + 1) * (group * w)
    requires 0 <= j * w < count * (group * w)
    ensures 0 <= k < count && j * w + w <= (k + 1) * (group * w)
  {
    var cells := (k + 1) * group;
    assert (k + 1) * (group * w) == cells * w;
    Cancel(j, cells, w);
    assert (j + 1 - cells) * w == j * w + w - cells * w;
    NotPositive(j + 1 - cells, w);
    assert group * w > 0;
    Cancel(k, count, group * w);
    assert 0 * (group * w) < (k + 1) * (group * w);
    Cancel(0, k + 1, group * w);
  }

  /** The output bucket a source bucket belongs to exists and holds all of it. */
  lemma SourceBucketInOneCell(plan: Plan, config: HistoryConfig, now: int, start: int)
    requires PlanOk(plan, config, now) && Aligned(start, plan.source) && plan.from <= start < plan.to
    ensures PlanWidth(plan) > 0
    ensures var k := (start - plan.from) / PlanWidth(plan);
      && 0 <= k < plan.count
      && Edge(plan, k) <= start && start + Width(plan.source) <= Edge(plan, k + 1)
  {
    hide Boundary;
    var w, group := Width(plan.source), plan.group;
    assert group * w > 0;
    var k := (start - plan.from) / (group * w);
    DivBounds(start - plan.from, group * w);
    var j := start / w - plan.from / w;
    Multiple(start, w);
    Multiple(plan.from, w);
    assert j * w == start / w * w - plan.from / w * w;
    InOneCell(j, k, group, w, plan.count);
  }

  lemma Multiple(x: int, w: int)
    requires w > 0 && x % w == 0
    ensures x == x / w * w
  {
  }
}
