/**
 * Bucket alignment and retention boundaries (src/storage/sqlite/history/mod.rs,
 * src/domain/maintenance.rs).  Times and durations are whole milliseconds.
 */
module Tiers {
  import opened Prelude

  const FIVE_MINUTES := 300
  const HOUR := 3600
  const DAY := 86400

  /** The three bucket resolutions, in seconds. */
  predicate IsTier(resolution: int) {
    resolution == FIVE_MINUTES || resolution == HOUR || resolution == DAY
  }

  function Width(resolution: int): int {
    resolution * 1000
  }

  datatype HistoryConfig = HistoryConfig(
    rawRetention: int,
    fiveMinuteRetention: int,
    hourlyRetention: int,
    dailyRetention: int,
    eventRetention: int)
  {
    /** At least one day each, and longer as the resolution becomes coarser; however long. */
    predicate Valid() {
      && Width(DAY) <= rawRetention <= fiveMinuteRetention <= hourlyRetention <= dailyRetention
      && Width(DAY) <= eventRetention
    }
  }

  function Floor(at: int, resolution: int): int
    requires resolution > 0
  {
    at / Width(resolution) * Width(resolution)
  }

  predicate Aligned(at: int, resolution: int)
    requires resolution > 0
  {
    at % Width(resolution) == 0
  }

  function Cutoff(now: int, duration: int): int {
    now - duration
  }

  function Retention(config: HistoryConfig, resolution: int): int {
    if resolution == FIVE_MINUTES then config.fiveMinuteRetention
    else if resolution == HOUR then config.hourlyRetention
    else config.dailyRetention
  }

  /** The oldest bucket start a tier still answers for. */
  function Boundary(now: int, config: HistoryConfig, resolution: int): int
    requires resolution > 0
  {
    Floor(Cutoff(now, Retention(config, resolution)), resolution)
  }

  // ----- alignment -----

  lemma FloorBounds(at: int, resolution: int)
    requires IsTier(resolution)
    ensures Floor(at, resolution) <= at < Floor(at, resolution) + Width(resolution)
    ensures Aligned(Floor(at, resolution), resolution)
  {
  }

  lemma FloorUnique(at: int, resolution: int, start: int)
    requires IsTier(resolution) && Aligned(start, resolution)
    requires start <= at < start + Width(resolution)
    ensures Floor(at, resolution) == start
  {
  }

  /** Two different buckets of one tier do not overlap. */
  lemma AlignedApart(a: int, b: int, resolution: int)
    requires IsTier(resolution) && Aligned(a, resolution) && Aligned(b, resolution)
    requires a < b
    ensures a + Width(resolution) <= b
  {
  }

  lemma FloorMonotone(a: int, b: int, resolution: int)
    requires IsTier(resolution) && a <= b
    ensures Floor(a, resolution) <= Floor(b, resolution)
  {
  }

  lemma CoarseIsAligned(at: int, fine: int, coarse: int)
    requires IsTier(fine) && IsTier(coarse) && fine <= coarse && Aligned(at, coarse)
    ensures Aligned(at, fine)
  {
    var k := at / Width(coarse);
    if fine == FIVE_MINUTES && coarse == HOUR {
      assert at == 12 * k * 300000;
    } else if fine == HOUR && coarse == DAY {
      assert at == 24 * k * 3600000;
    } else if fine == FIVE_MINUTES && coarse == DAY {
      assert at == 288 * k * 300000;
    }
  }

  lemma MultipleAligned(q: int, resolution: int)
    requires IsTier(resolution)
    ensures Aligned(q * Width(resolution), resolution)
  {
  }

  lemma AlignedMultiple(start: int, resolution: int)
    requires IsTier(resolution) && Aligned(start, resolution)
    ensures start == start / Width(resolution) * Width(resolution)
  {
  }

  /** Whole buckets away from a bucket start is another. */
  lemma StepsAligned(start: int, n: int, resolution: int)
    requires IsTier(resolution) && Aligned(start, resolution)
    ensures Aligned(start + n * Width(resolution), resolution)
  {
    hide Aligned;
    AlignedMultiple(start, resolution);
    var w := Width(resolution);
    assert start + n * w == (start / w + n) * w;
    MultipleAligned(start / w + n, resolution);
  }

  lemma NextAligned(at: int, resolution: int)
    requires IsTier(resolution)
    ensures Aligned(Floor(at, resolution) + Width(resolution), resolution)
  {
  }

  /** A finer bucket lies inside the coarser bucket that holds its start. */
  lemma FloorNests(at: int, fine: int, coarse: int)
    requires IsTier(fine) && IsTier(coarse) && fine <= coarse
    ensures Floor(at, coarse) <= Floor(at, fine)
    ensures Floor(at, fine) + Width(fine) <= Floor(at, coarse) + Width(coarse)
  {
    hide Floor, Aligned;
    var c, f, next := Floor(at, coarse), Floor(at, fine), Floor(at, coarse) + Width(coarse);
    NextAligned(at, coarse);
    FloorBounds(at, fine);
    FloorBounds(at, coarse);
    CoarseIsAligned(c, fine, coarse);
    CoarseIsAligned(next, fine, coarse);
    if f < c {
      AlignedApart(f, c, fine);
    }
    AlignedApart(f, next, fine);
  }

  lemma BoundaryAdvances(earlier: int, now: int, config: HistoryConfig, resolution: int)
    requires IsTier(resolution) && earlier <= now
    ensures Boundary(earlier, config, resolution) <= Boundary(now, config, resolution)
    ensures Aligned(Boundary(now, config, resolution), resolution)
  {
    FloorMonotone(
      Cutoff(earlier, Retention(config, resolution)), Cutoff(now, Retention(config, resolution)), resolution);
    FloorBounds(Cutoff(now, Retention(config, resolution)), resolution);
  }

  /** A tier answers for exactly the buckets that end after its retention begins. */
  lemma AnsweredFor(now: int, config: HistoryConfig, resolution: int, start: int)
    requires IsTier(resolution) && start % (resolution * 1000) == 0
    ensures Boundary(now, config, resolution) <= start <==>
      start + resolution * 1000 > now - (if resolution == 300 then config.fiveMinuteRetention
                                         else if resolution == 3600 then config.hourlyRetention
                                         else config.dailyRetention)
  {
    var boundary := Boundary(now, config, resolution);
    FloorBounds(Cutoff(now, Retention(config, resolution)), resolution);
    if start < boundary {
      AlignedApart(start, boundary, resolution);
    } else if boundary < start {
      AlignedApart(boundary, start, resolution);
    }
  }

  /** Coarser tiers reach further back. */
  lemma BoundariesOrdered(now: int, config: HistoryConfig, fine: int, coarse: int)
    requires IsTier(fine) && IsTier(coarse) && fine <= coarse && config.Valid()
    ensures Boundary(now, config, coarse) <= Boundary(now, config, fine) < now
  {
    var c, f := Cutoff(now, Retention(config, coarse)), Cutoff(now, Retention(config, fine));
    FloorMonotone(c, f, coarse);
    FloorNests(f, fine, coarse);
    FloorBounds(f, fine);
  }

  // ----- clipping -----

  /** The length of [start, end) inside the window [from, to). */
  function Clip(start: int, end: int, from: int, to: int): nat {
    Max(0, Min(end, to) - Max(start, from))
  }

  lemma ClipSplitsInterval(start: int, middle: int, end: int, from: int, to: int)
    requires start <= middle <= end
    ensures Clip(start, end, from, to) == Clip(start, middle, from, to) + Clip(middle, end, from, to)
  {
  }

  lemma ClipSplitsWindow(start: int, end: int, from: int, middle: int, to: int)
    requires from <= middle <= to
    ensures Clip(start, end, from, to) == Clip(start, end, from, middle) + Clip(start, end, middle, to)
  {
  }
}
