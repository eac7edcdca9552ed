/**
 * What a check result is worth to the history (`record` as called from src/storage/sqlite/mod.rs and
 * tcp.rs, src/domain/history.rs:76-114): the sample and the time it stands for, from what was observed.
 */
module Samples {
  import opened Prelude
  import opened HistoryStats
  import Usage
  import Icmp
  import IcmpHistory

  /** A sample without latency adds to the counts only. */
  function Attempt(success: bool): Stats {
    ZERO.(samples := 1, successes := if success then 1 else 0)
  }

  /** And a measured one to the latencies. */
  function Timed(latency: real): Stats {
    if latency < 0.0 then Attempt(true)
    else
      Attempt(true).(latencyCount := 1, latencySum := latency, latencyMin := Some(latency), latencyMax := Some(latency),
                     histogram := EMPTY_HISTOGRAM[Bin(latency) := 1])
  }

  lemma StatesDiffer()
    ensures "up" != "down" && "up" != "unknown" && "down" != "unknown"
  {
    assert |"up"| == 2 && |"down"| == 4 && |"unknown"| == 7;
  }

  /** A poll that reported counts is a success and tells its users for as long as it holds; a failed one nothing. */
  lemma PollIsWorth(s: Usage.Snapshot, ms: nat)
    requires s.Valid()
    ensures SampleStats(s.Sample()) == Attempt(s.status == Usage.Reporting)
    ensures DurationStats(s.Sample(), ms)
      == if s.status == Usage.Reporting
         then ZERO.(upMs := ms, usageMs := ms, consoleMs := s.console.value * ms, remoteMs := s.remote.value * ms)
         else ZERO
    ensures s.Sample().error == s.error
  {
    StatesDiffer();
  }

  /** A TCP connection is up and as fast as it was made; a refused one is down. */
  lemma ConnectionIsWorth(t: Usage.TcpSnapshot, ms: nat)
    ensures t.Connected? ==>
      SampleStats(t.Sample()) == Timed(t.duration) && DurationStats(t.Sample(), ms) == ZERO.(upMs := ms)
      && t.Sample().error == None
    ensures t.Unreachable? ==>
      SampleStats(t.Sample()) == Attempt(false) && DurationStats(t.Sample(), ms) == ZERO.(downMs := ms)
      && t.Sample().error == Some(t.reason)
  {
    hide Bin;
    StatesDiffer();
  }

  /** What the history is told of a host that is in a status after a check. */
  lemma StateIsWorth(state: Icmp.RuntimeState, ms: nat)
    ensures var o := IcmpHistory.SampleOf(state);
      && (state.lastError.None? && state.latency.Some? ==> SampleStats(o) == Timed(state.latency.value))
      && (state.lastError.Some? ==> SampleStats(o) == Attempt(false))
      && o.error == state.lastError
      && DurationStats(o, ms)
         == ZERO.(upMs := if state.status == Icmp.Up then ms else 0,
                  downMs := if state.status == Icmp.Down then ms else 0)
  {
    hide Bin;
    StatesDiffer();
  }

  /** A ping counts by its own reply, while the time it stands for counts by the status it left the host in. */
  lemma PingIsWorth(checks: seq<Icmp.Check>, ms: nat)
    requires checks != []
    ensures var c, state := checks[|checks| - 1], Icmp.Replay(checks).0;
      var o := IcmpHistory.SampleOf(state);
      && SampleStats(o) == (if c.outcome.Reply? then Timed(c.outcome.latency) else Attempt(false))
      && o.error == (if c.outcome.Reply? then None else Some(c.outcome.error))
      && DurationStats(o, ms)
         == ZERO.(upMs := if state.status == Icmp.Up then ms else 0,
                  downMs := if state.status == Icmp.Down then ms else 0)
  {
    hide SampleStats, DurationStats, Timed, Attempt, Icmp.Replay, Icmp.MadeBy, IcmpHistory.SampleOf;
    Icmp.StateIsLastCheck(checks);
    StateIsWorth(Icmp.Replay(checks).0, ms);
  }
}
