/**
 * What a record says after records were merged in any order: the 95th percentile estimate read
 * off the histogram (`latency_p95`, src/domain/history.rs:50-63), the totals and the extremes.
 */
module Percentile {
  import opened Prelude
  import opened HistoryStats

  /** The rank the estimate looks for: 95% of `n`, rounded up. */
  function Target(n: nat): nat {
    (19 * n + 19) / 20
  }

  /** The first bin, from `bin` on, at which the running count reaches `target`. */
  function Scan(h: Histogram, target: nat, bin: nat, count: nat): Option<nat>
    requires bin <= 17
    decreases 17 - bin
  {
    if bin == 17 then None
    else if count + h[bin] >= target then Some(bin)
    else Scan(h, target, bin + 1, count + h[bin])
  }

  function BoundOf(s: Stats, bin: nat): Option<real> {
    if bin < 16 then Some(BOUNDS[bin]) else s.latencyMax
  }

  function P95(s: Stats): Option<real> {
    if s.latencyCount == 0 then None
    else
      match Scan(s.histogram, Target(s.latencyCount), 0, 0)
      case None => None
      case Some(bin) => BoundOf(s, bin)
  }

  lemma ScanNext(h: Histogram, target: nat, bin: nat, count: nat)
    requires bin < 17
    ensures Scan(h, target, bin, count)
         == if count + h[bin] >= target then Some(bin) else Scan(h, target, bin + 1, count + h[bin])
  {
  }

  lemma ScanEnds(h: Histogram, target: nat, count: nat)
    ensures Scan(h, target, 17, count) == None
  {
  }

  method LatencyP95(s: Stats) returns (p: Option<real>)
    ensures p == P95(s)
  {
    hide BoundOf, Target, Scan;
    if s.latencyCount == 0 {
      return None;
    }
    var target := Target(s.latencyCount);
    var count := 0;
    for bin := 0 to 17
      invariant Scan(s.histogram, target, bin, count) == Scan(s.histogram, target, 0, 0)
    {
      ScanNext(s.histogram, target, bin, count);
      count := count + s.histogram[bin];
      if count >= target {
        return BoundOf(s, bin);
      }
    }
    ScanEnds(s.histogram, target, count);
    return None;
  }

  // ----- records merged in any order -----

  datatype Merged =
    | Nothing
    | Sample(o: Observation)
    | Stretch(o: Observation, ms: nat)
    | Both(left: Merged, right: Merged)

  function Value(t: Merged): Stats {
    match t
    case Nothing => ZERO
    case Sample(o) => SampleStats(o)
    case Stretch(o, ms) => DurationStats(o, ms)
    case Both(l, r) => Merge(Value(l), Value(r))
  }

  /** A successful attempt that measured how long it took. */
  predicate Timed(o: Observation) {
    o.success && o.latency.Some? && 0.0 <= o.latency.value
  }

  /** How many latency samples went in, how many of them are at most `x`, and how many below `x`. */
  function Latencies(t: Merged): nat {
    match t
    case Sample(o) => if Timed(o) then 1 else 0
    case Both(l, r) => Latencies(l) + Latencies(r)
    case _ => 0
  }

  function AtMost(t: Merged, x: real): nat {
    match t
    case Sample(o) => if Timed(o) && o.latency.value <= x then 1 else 0
    case Both(l, r) => AtMost(l, x) + AtMost(r, x)
    case _ => 0
  }

  function Below(t: Merged, x: real): nat {
    match t
    case Sample(o) => if Timed(o) && o.latency.value < x then 1 else 0
    case Both(l, r) => Below(l, x) + Below(r, x)
    case _ => 0
  }

  // ----- the histogram counts what it should -----

  function InBins(h: Histogram, n: nat): nat
    requires n <= 17
  {
    if n == 0 then 0 else InBins(h, n - 1) + h[n - 1]
  }

  lemma {:induction false} InBinsAdd(a: Histogram, b: Histogram, n: nat)
    requires n <= 17
    ensures InBins(AddHistograms(a, b), n) == InBins(a, n) + InBins(b, n)
  {
    if n > 0 {
      InBinsAdd(a, b, n - 1);
    }
  }

  lemma {:induction false} InBinsSingle(bin: nat, n: nat)
    requires bin < 17 && n <= 17
    ensures InBins(EMPTY_HISTOGRAM, n) == 0
    ensures InBins(EMPTY_HISTOGRAM[bin := 1], n) == if bin < n then 1 else 0
  {
    if n > 0 {
      InBinsSingle(bin, n - 1);
    }
  }

  lemma BoundsIncrease(i: nat, j: nat)
    requires i <= j < 16
    ensures BOUNDS[i] <= BOUNDS[j]
    ensures i < j ==> BOUNDS[i] < BOUNDS[j]
    decreases j - i
  {
    if i < j {
      BoundsIncrease(i + 1, j);
    }
  }

  lemma SampleBins(o: Observation, n: nat)
    requires n <= 17
    ensures InBins(SampleStats(o).histogram, n) == if o.CountsLatency() && Bin(o.latency.value) < n then 1 else 0
    ensures SampleStats(o).latencyCount == if o.CountsLatency() then 1 else 0
  {
    InBinsSingle(0, n);
    if o.CountsLatency() {
      InBinsSingle(Bin(o.latency.value), n);
    }
  }

  lemma DurationBins(o: Observation, ms: nat, n: nat)
    requires n <= 17
    ensures InBins(DurationStats(o, ms).histogram, n) == 0 && DurationStats(o, ms).latencyCount == 0
    ensures InBins(ZERO.histogram, n) == 0
  {
    InBinsSingle(0, n);
  }

  /** A sample is at most a bound exactly when its bin is at most the bound's. */
  lemma BinIsRank(v: real, i: nat)
    requires i < 16
    ensures Bin(v) < i + 1 <==> v <= BOUNDS[i]
  {
    var bin := Bin(v);
    if bin <= i {
      BoundsIncrease(bin, i);
    }
  }

  lemma MergedBins(a: Stats, b: Stats, n: nat)
    requires n <= 17
    ensures InBins(Merge(a, b).histogram, n) == InBins(a.histogram, n) + InBins(b.histogram, n)
    ensures Merge(a, b).latencyCount == a.latencyCount + b.latencyCount
  {
    hide InBins;
    InBinsAdd(a.histogram, b.histogram, n);
  }

  lemma {:induction false} HistogramCounts(t: Merged, i: nat)
    requires i < 16
    ensures InBins(Value(t).histogram, i + 1) == AtMost(t, BOUNDS[i])
  {
    hide SampleStats, DurationStats, InBins, Merge, Bin;
    match t
    case Nothing => DurationBins(Observation("", false, None, None, None, None), 0, i + 1);
    case Sample(o) =>
      SampleBins(o, i + 1);
      if o.CountsLatency() {
        BinIsRank(o.latency.value, i);
      }
    case Stretch(o, ms) => DurationBins(o, ms, i + 1);
    case Both(l, r) =>
      HistogramCounts(l, i);
      HistogramCounts(r, i);
      MergedBins(Value(l), Value(r), i + 1);
  }

  /** Over any merges the histogram total equals the latency count. */
  lemma {:induction false} HistogramTotal(t: Merged)
    ensures InBins(Value(t).histogram, 17) == Value(t).latencyCount == Latencies(t)
  {
    hide SampleStats, DurationStats, InBins, Merge, Bin;
    match t
    case Nothing => DurationBins(Observation("", false, None, None, None, None), 0, 17);
    case Sample(o) => SampleBins(o, 17);
    case Stretch(o, ms) => DurationBins(o, ms, 17);
    case Both(l, r) =>
      HistogramTotal(l);
      HistogramTotal(r);
      MergedBins(Value(l), Value(r), 17);
  }

  lemma {:induction false} MoreAtMost(t: Merged, x: real, y: real)
    requires x <= y
    ensures Below(t, x) <= Below(t, y) <= AtMost(t, y) <= Latencies(t)
    ensures AtMost(t, x) <= AtMost(t, y)
    ensures x < y ==> AtMost(t, x) <= Below(t, y)
  {
    if t.Both? {
      MoreAtMost(t.left, x, y);
      MoreAtMost(t.right, x, y);
    }
  }

  /** The extremes are latencies that went in, and none is outside them. */
  ghost predicate Extremes(t: Merged, min: Option<real>, max: Option<real>) {
    if Latencies(t) == 0 then min.None? && max.None?
    else
      && min.Some? && Below(t, min.value) == 0 && AtMost(t, min.value) > 0
      && max.Some? && Below(t, max.value) < Latencies(t) == AtMost(t, max.value)
  }

  lemma LeafExtremes(t: Merged)
    requires !t.Both?
    ensures Extremes(t, Value(t).latencyMin, Value(t).latencyMax)
  {
  }

  lemma BothCounts(l: Merged, r: Merged, x: real)
    ensures Below(Both(l, r), x) == Below(l, x) + Below(r, x)
    ensures AtMost(Both(l, r), x) == AtMost(l, x) + AtMost(r, x)
    ensures Latencies(Both(l, r)) == Latencies(l) + Latencies(r)
  {
  }

  lemma ExtremesJoin(l: Merged, r: Merged, min: Option<real>, max: Option<real>, min': Option<real>, max': Option<real>)
    requires Extremes(l, min, max) && Extremes(r, min', max')
    ensures Extremes(Both(l, r), Lesser(min, min'), Greater(max, max'))
  {
    hide Below, AtMost, Latencies;
    BothCounts(l, r, 0.0);
    if Latencies(l) > 0 && Latencies(r) > 0 {
      var low, high := Lesser(min, min').value, Greater(max, max').value;
      BothCounts(l, r, low);
      BothCounts(l, r, high);
      MoreAtMost(l, low, min.value);
      MoreAtMost(r, low, min'.value);
      MoreAtMost(l, max.value, high);
      MoreAtMost(r, max'.value, high);
    } else if Latencies(l) > 0 {
      BothCounts(l, r, min.value);
      BothCounts(l, r, max.value);
      MoreAtMost(r, min.value, min.value);
      MoreAtMost(r, max.value, max.value);
    } else if Latencies(r) > 0 {
      BothCounts(l, r, min'.value);
      BothCounts(l, r, max'.value);
      MoreAtMost(l, min'.value, min'.value);
      MoreAtMost(l, max'.value, max'.value);
    }
  }

  lemma MergedExtremes(a: Stats, b: Stats)
    ensures Merge(a, b).latencyMin == Lesser(a.latencyMin, b.latencyMin)
    ensures Merge(a, b).latencyMax == Greater(a.latencyMax, b.latencyMax)
  {
    hide Lesser, Greater, AddHistograms;
  }

  lemma {:induction false} ExtremesAreExact(t: Merged)
    ensures Extremes(t, Value(t).latencyMin, Value(t).latencyMax)
  {
    hide Extremes, Merge, SampleStats, DurationStats, Lesser, Greater;
    if t.Both? {
      var a, b := Value(t.left), Value(t.right);
      ExtremesAreExact(t.left);
      ExtremesAreExact(t.right);
      ExtremesJoin(t.left, t.right, a.latencyMin, a.latencyMax, b.latencyMin, b.latencyMax);
      MergedExtremes(a, b);
    } else {
      LeafExtremes(t);
    }
  }

  lemma NoBins(h: Histogram)
    ensures InBins(h, 0) == 0
  {
  }

  lemma {:induction false} ScanFinds(h: Histogram, target: nat, bin: nat)
    requires bin <= 17 && InBins(h, bin) < target <= InBins(h, 17)
    ensures var found := Scan(h, target, bin, InBins(h, bin));
      found.Some? && bin <= found.value < 17 && InBins(h, found.value) < target <= InBins(h, found.value + 1)
    decreases 17 - bin
  {
    if InBins(h, bin + 1) < target {
      ScanFinds(h, target, bin + 1);
    }
  }

  /** The estimate is absent exactly when there is no latency sample. */
  lemma P95Present(t: Merged)
    ensures P95(Value(t)).Some? <==> Latencies(t) > 0
  {
    HistogramTotal(t);
    ExtremesAreExact(t);
    if Latencies(t) > 0 {
      ScanFinds(Value(t).histogram, Target(Latencies(t)), 0);
    }
  }

  /** The bin the estimate comes from: the first at which 95 in 100 of the latencies are counted. */
  lemma P95Bin(t: Merged) returns (bin: nat)
    requires Latencies(t) > 0
    ensures bin < 17 && P95(Value(t)).Some? && P95(Value(t)) == BoundOf(Value(t), bin)
    ensures bin < 16 ==> 20 * AtMost(t, BOUNDS[bin]) >= 19 * Latencies(t)
    ensures bin > 0 ==> 20 * AtMost(t, BOUNDS[bin - 1]) < 19 * Latencies(t)
    ensures bin == 16 ==> Below(t, P95(Value(t)).value) < Latencies(t) == AtMost(t, P95(Value(t)).value)
  {
    hide Value, InBins, Latencies, AtMost, Below, Scan, Bin;
    var s, target := Value(t), Target(Latencies(t));
    NoBins(s.histogram);
    HistogramTotal(t);
    ExtremesAreExact(t);
    ScanFinds(s.histogram, target, 0);
    bin := Scan(s.histogram, target, 0, 0).value;
    if bin < 16 {
      HistogramCounts(t, bin);
    }
    if bin > 0 {
      HistogramCounts(t, bin - 1);
    }
  }

  /**
   * Main result: the estimate is the 95th percentile as far as a histogram can tell it.  At least 95
   * in 100 of the latencies are at most the estimate, fewer than that are at most any bound below it,
   * and it is a bound of the histogram or, past the last one, the largest latency itself.
   */
  lemma P95IsNinetyFive(t: Merged)
    requires Latencies(t) > 0
    ensures P95(Value(t)).Some?
    ensures var p := P95(Value(t)).value;
      && 20 * AtMost(t, p) >= 19 * Latencies(t)
      && (forall i :: 0 <= i < 16 && BOUNDS[i] < p ==> 20 * AtMost(t, BOUNDS[i]) < 19 * Latencies(t))
      && (p in BOUNDS || (BOUNDS[15] < p && Below(t, p) < Latencies(t) == AtMost(t, p)))
  {
    hide Value, Latencies, AtMost, Below, P95;
    var bin := P95Bin(t);
    var p := P95(Value(t)).value;
    if bin < 16 {
      assert BOUNDS[bin] in BOUNDS;
    } else if p <= BOUNDS[15] {
      MoreAtMost(t, p, BOUNDS[15]);
    }
    forall i | 0 <= i < 16 && BOUNDS[i] < p
      ensures 20 * AtMost(t, BOUNDS[i]) < 19 * Latencies(t)
    {
      if i >= bin {
        BoundsIncrease(bin, i);
      } else {
        BoundsIncrease(i, bin - 1);
        MoreAtMost(t, BOUNDS[i], BOUNDS[bin - 1]);
      }
    }
  }

  /**
   * The latency at which 95 in 100 are counted in order is at most the estimate, and above every
   * histogram bound that is below the estimate.
   */
  lemma P95Brackets(t: Merged, v: real)
    requires 20 * AtMost(t, v) >= 19 * Latencies(t) > 20 * Below(t, v)
    ensures P95(Value(t)).Some?
    ensures v <= P95(Value(t)).value
    ensures forall i :: 0 <= i < 16 && BOUNDS[i] < P95(Value(t)).value ==> BOUNDS[i] < v
  {
    hide Value, Latencies, AtMost, Below, P95;
    P95IsNinetyFive(t);
    var p := P95(Value(t)).value;
    if p < v {
      MoreAtMost(t, p, v);
    }
    forall i | 0 <= i < 16 && BOUNDS[i] < p
      ensures BOUNDS[i] < v
    {
      if v <= BOUNDS[i] {
        MoreAtMost(t, v, BOUNDS[i]);
      }
    }
  }

  // ----- counts, sums and extremes -----

  function Samples(t: Merged, onlySuccesses: bool): nat {
    match t
    case Sample(o) => if onlySuccesses && !o.success then 0 else 1
    case Both(l, r) => Samples(l, onlySuccesses) + Samples(r, onlySuccesses)
    case _ => 0
  }

  function LatencySum(t: Merged): real {
    match t
    case Sample(o) => if Timed(o) then o.latency.value else 0.0
    case Both(l, r) => LatencySum(l) + LatencySum(r)
    case _ => 0.0
  }

  /** How long observations of one state held. */
  function StateMs(t: Merged, state: string): nat {
    match t
    case Stretch(o, ms) => if o.state == state then ms else 0
    case Both(l, r) => StateMs(l, state) + StateMs(r, state)
    case _ => 0
  }

  /** How long user counts were known, each millisecond weighted by `weight`. */
  function UserMs(t: Merged, weight: Observation -> nat): nat {
    match t
    case Stretch(o, ms) => if o.success && o.console.Some? && o.remote.Some? then weight(o) * ms else 0
    case Both(l, r) => UserMs(l, weight) + UserMs(r, weight)
    case _ => 0
  }

  function Consoles(o: Observation): nat {
    if o.console.Some? then o.console.value else 0
  }

  function Remotes(o: Observation): nat {
    if o.remote.Some? then o.remote.value else 0
  }

  function Once(o: Observation): nat {
    1
  }

  /** Every column is the total of what went in. */
  ghost predicate Totals(t: Merged, s: Stats) {
    && s.samples == Samples(t, false) && s.successes == Samples(t, true) && s.latencySum == LatencySum(t)
    && s.upMs == StateMs(t, "up") && s.downMs == StateMs(t, "down")
    && s.usageMs == UserMs(t, Once) && s.consoleMs == UserMs(t, Consoles) && s.remoteMs == UserMs(t, Remotes)
  }

  lemma LeafTotals(t: Merged)
    requires !t.Both?
    ensures Totals(t, Value(t))
  {
  }

  lemma BothTotals(l: Merged, r: Merged, a: Stats, b: Stats)
    requires Totals(l, a) && Totals(r, b)
    ensures Totals(Both(l, r), Merge(a, b))
  {
    hide Lesser, Greater, AddHistograms;
  }

  /** Whatever was merged in whatever order, every column is the total of what went in. */
  lemma {:induction false} ColumnsAreTotals(t: Merged)
    ensures Totals(t, Value(t))
  {
    hide Totals, Merge, SampleStats, DurationStats;
    if t.Both? {
      ColumnsAreTotals(t.left);
      ColumnsAreTotals(t.right);
      BothTotals(t.left, t.right, Value(t.left), Value(t.right));
    } else {
      LeafTotals(t);
    }
  }
}
