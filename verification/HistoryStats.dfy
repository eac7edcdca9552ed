/**
 * Mergeable history statistics (src/domain/history.rs).
 *
 * A record is a value: it is read from a row, merged and written back.  Floating-point
 * sums are exact here: latencies are `real`, user-milliseconds are `nat`.
 */
module HistoryStats {
  import opened Prelude

  // Inclusive upper bounds of the latency histogram; bin 16 is the overflow bin.
  const BOUNDS: seq<real> := [
    0.5, 1.0, 2.0, 4.0, 8.0, 16.0, 32.0, 64.0, 128.0, 256.0, 512.0, 1024.0, 2048.0, 4096.0, 8192.0, 16384.0
  ]

  type Histogram = h: seq<nat> | |h| == 17 witness [0, 0, 0, 0, 0, 0, 0, 0, 0, 0, 0, 0, 0, 0, 0, 0, 0]

  const EMPTY_HISTOGRAM: Histogram := [0, 0, 0, 0, 0, 0, 0, 0, 0, 0, 0, 0, 0, 0, 0, 0, 0]

  datatype Stats = Stats(
    samples: nat,
    successes: nat,
    latencyCount: nat,
    latencySum: real,
    latencyMin: Option<real>,
    latencyMax: Option<real>,
    histogram: Histogram,
    upMs: nat,
    downMs: nat,
    usageMs: nat,
    consoleMs: nat,
    remoteMs: nat)

  const ZERO: Stats := Stats(0, 0, 0, 0.0, None, None, EMPTY_HISTOGRAM, 0, 0, 0, 0, 0)

  datatype Observation = Observation(
    state: string,
    success: bool,
    latency: Option<real>,
    console: Option<nat>,
    remote: Option<nat>,
    error: Option<string>)
  {
    /** An observation is an event when anything but its latency changed. */
    predicate ChangedFrom(previous: Observation) {
      || state != previous.state
      || console != previous.console
      || remote != previous.remote
      || error != previous.error
    }

    predicate CountsLatency() {
      success && latency.Some? && latency.value >= 0.0
    }
  }

  /** The bounds double from half a millisecond to over sixteen seconds. */
  lemma BoundsDouble(i: nat)
    requires i < 16
    ensures |BOUNDS| == 16 && BOUNDS[0] == 0.5 && (i > 0 ==> BOUNDS[i] == 2.0 * BOUNDS[i - 1])
    ensures BOUNDS[15] == 16384.0
  {
    assert i == 0 || i == 1 || i == 2 || i == 3 || i == 4 || i == 5 || i == 6 || i == 7
           || i == 8 || i == 9 || i == 10 || i == 11 || i == 12 || i == 13 || i == 14 || i == 15;
  }

  // ----- merge -----

  function Lesser(a: Option<real>, b: Option<real>): Option<real> {
    match (a, b)
    case (Some(x), Some(y)) => Some(if y < x then y else x)
    case (None, _) => b
    case (_, None) => a
  }

  function Greater(a: Option<real>, b: Option<real>): Option<real> {
    match (a, b)
    case (Some(x), Some(y)) => Some(if y > x then y else x)
    case (None, _) => b
    case (_, None) => a
  }

  function AddHistograms(a: Histogram, b: Histogram): (h: Histogram)
    ensures forall i :: 0 <= i < 17 ==> h[i] == a[i] + b[i]
  {
    seq(17, i requires 0 <= i < 17 => a[i] + b[i])
  }

  function Merge(a: Stats, b: Stats): Stats {
    Stats(
      a.samples + b.samples,
      a.successes + b.successes,
      a.latencyCount + b.latencyCount,
      a.latencySum + b.latencySum,
      Lesser(a.latencyMin, b.latencyMin),
      Greater(a.latencyMax, b.latencyMax),
      AddHistograms(a.histogram, b.histogram),
      a.upMs + b.upMs,
      a.downMs + b.downMs,
      a.usageMs + b.usageMs,
      a.consoleMs + b.consoleMs,
      a.remoteMs + b.remoteMs)
  }

  lemma MergeZero(a: Stats)
    ensures Merge(a, ZERO) == a
    ensures Merge(ZERO, a) == a
  {
    assert AddHistograms(a.histogram, EMPTY_HISTOGRAM) == a.histogram;
    assert AddHistograms(EMPTY_HISTOGRAM, a.histogram) == a.histogram;
  }

  lemma MergeCommutes(a: Stats, b: Stats)
    ensures Merge(a, b) == Merge(b, a)
  {
    assert AddHistograms(a.histogram, b.histogram) == AddHistograms(b.histogram, a.histogram);
  }

  lemma MergeAssociates(a: Stats, b: Stats, c: Stats)
    ensures Merge(Merge(a, b), c) == Merge(a, Merge(b, c))
  {
    assert AddHistograms(AddHistograms(a.histogram, b.histogram), c.histogram)
        == AddHistograms(a.histogram, AddHistograms(b.histogram, c.histogram));
  }

  /** The rearrangement every proof about rows in arbitrary order needs. */
  lemma MergeSwap(a: Stats, b: Stats, c: Stats, d: Stats)
    ensures Merge(Merge(a, b), Merge(c, d)) == Merge(Merge(a, c), Merge(b, d))
  {
    MergeAssociates(a, b, Merge(c, d));
    MergeAssociates(b, c, d);
    MergeCommutes(b, c);
    MergeAssociates(c, b, d);
    MergeAssociates(a, c, Merge(b, d));
  }

  // ----- what one observation contributes -----

  function Bin(latency: real, from: nat := 0): (bin: nat)
    requires from <= 16
    ensures from <= bin <= 16
    ensures bin < 16 ==> latency <= BOUNDS[bin]
    ensures forall i :: from <= i < bin ==> BOUNDS[i] < latency
    decreases 16 - from
  {
    if from == 16 || latency <= BOUNDS[from] then from else Bin(latency, from + 1)
  }

  function SampleStats(o: Observation): Stats {
    var counted := ZERO.(samples := 1, successes := if o.success then 1 else 0);
    if o.CountsLatency() then
      var v := o.latency.value;
      counted.(latencyCount := 1, latencySum := v, latencyMin := Some(v), latencyMax := Some(v),
               histogram := EMPTY_HISTOGRAM[Bin(v) := 1])
    else
      counted
  }

  function DurationStats(o: Observation, ms: nat): Stats {
    var measured := o.success && o.console.Some? && o.remote.Some?;
    ZERO.(
      upMs := if o.state == "up" then ms else 0,
      downMs := if o.state == "down" then ms else 0,
      usageMs := if measured then ms else 0,
      consoleMs := if measured then o.console.value * ms else 0,
      remoteMs := if measured then o.remote.value * ms else 0)
  }

  lemma WeightAdds(weight: nat, m: nat, n: nat)
    ensures weight * (m + n) == weight * m + weight * n
  {
  }

  lemma DurationAdds(o: Observation, m: nat, n: nat)
    ensures DurationStats(o, m + n) == Merge(DurationStats(o, m), DurationStats(o, n))
  {
    if o.console.Some? && o.remote.Some? {
      WeightAdds(o.console.value, m, n);
      WeightAdds(o.remote.value, m, n);
    }
    MergeDurations(DurationStats(o, m), DurationStats(o, n));
  }

  /** Merging two records that hold durations only adds them column by column. */
  lemma MergeDurations(a: Stats, b: Stats)
    requires a == Durations(a) && b == Durations(b)
    ensures Merge(a, b) == ZERO.(
      upMs := a.upMs + b.upMs,
      downMs := a.downMs + b.downMs,
      usageMs := a.usageMs + b.usageMs,
      consoleMs := a.consoleMs + b.consoleMs,
      remoteMs := a.remoteMs + b.remoteMs)
  {
    assert AddHistograms(EMPTY_HISTOGRAM, EMPTY_HISTOGRAM) == EMPTY_HISTOGRAM;
  }

  lemma NoDuration(o: Observation)
    ensures DurationStats(o, 0) == ZERO
  {
  }

  /** Only the duration columns of a record. */
  function Durations(s: Stats): Stats {
    ZERO.(upMs := s.upMs, downMs := s.downMs, usageMs := s.usageMs, consoleMs := s.consoleMs, remoteMs := s.remoteMs)
  }

  lemma DurationsMerge(a: Stats, b: Stats)
    ensures Durations(Merge(a, b)) == Merge(Durations(a), Durations(b))
  {
    assert AddHistograms(EMPTY_HISTOGRAM, EMPTY_HISTOGRAM) == EMPTY_HISTOGRAM;
  }
}
