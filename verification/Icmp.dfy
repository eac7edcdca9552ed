/** ICMP checks and the status changes they make (src/modules/icmp/monitor.rs). */
module Icmp {
  import opened Prelude

  datatype HostStatus = Unknown | Up | Down

  const MAX_COUNT := 0xFFFF_FFFF

  /** Counters are 32 bits wide and saturate. */
  type Count = n: nat | n <= MAX_COUNT

  datatype RuntimeState = RuntimeState(
    status: HostStatus,
    lastChecked: Option<int>,
    lastChange: Option<int>,
    latency: Option<real>,
    successes: Count,
    failures: Count,
    lastError: Option<string>)

  const FRESH := RuntimeState(Unknown, None, None, None, 0, 0, None)

  datatype Transition = Transition(
    previous: HostStatus, next: HostStatus, at: int, latency: Option<real>, error: Option<string>, reason: string)

  datatype Thresholds = Thresholds(failure: Count, success: Count)

  datatype Outcome = Reply(latency: real) | NoReply(error: string)

  /** One check: its time, its outcome and the thresholds in force. */
  datatype Check = Check(at: int, outcome: Outcome, thresholds: Thresholds)

  datatype Observation = Observation(state: RuntimeState, transition: Option<Transition>)

  // ----- one check -----

  function Counted(n: Count): Count {
    if n < MAX_COUNT then n + 1 else n
  }

  function Checked(state: RuntimeState, c: Check): RuntimeState {
    match c.outcome
    case Reply(latency) =>
      state.(lastChecked := Some(c.at), latency := Some(latency), successes := Counted(state.successes),
          failures := 0, lastError := None)
    case NoReply(error) =>
      state.(lastChecked := Some(c.at), latency := None, failures := Counted(state.failures), successes := 0,
          lastError := Some(error))
  }

  function TransitionTo(
    state: RuntimeState, next: HostStatus, at: int, latency: Option<real>, error: Option<string>, reason: string)
    : Observation
  {
    var t := Transition(state.status, next, at, latency, error, reason);
    Observation(state.(status := next, lastChange := Some(at)), Some(t))
  }

  function CheckOnce(state: RuntimeState, c: Check): Observation {
    var counted := Checked(state, c);
    match c.outcome
    case Reply(latency) =>
      if counted.status != Up && counted.successes >= c.thresholds.success then
        TransitionTo(counted, Up, c.at, Some(latency), None, "success threshold reached")
      else Observation(counted, None)
    case NoReply(error) =>
      if counted.status != Down && counted.failures >= c.thresholds.failure then
        TransitionTo(counted, Down, c.at, None, Some(error), "failure threshold reached")
      else Observation(counted, None)
  }

  // ----- every check once -----

  /** The state and the transitions after a list of checks, each made and stored exactly once. */
  function Replay(checks: seq<Check>): (RuntimeState, seq<Transition>) {
    if checks == [] then (FRESH, [])
    else
      var (state, transitions) := Replay(checks[..|checks| - 1]);
      var o := CheckOnce(state, checks[|checks| - 1]);
      (o.state, if o.transition.Some? then transitions + [o.transition.value] else transitions)
  }

  lemma ReplayNext(checks: seq<Check>, c: Check)
    ensures var (state, transitions) := Replay(checks);
      var o := CheckOnce(state, c);
      Replay(checks + [c]) == (o.state, if o.transition.Some? then transitions + [o.transition.value] else transitions)
  {
    assert (checks + [c])[..|checks|] == checks;
  }

  // ----- the meaning of the replay -----

  /** How many of the newest checks in a row had that result. */
  function Trailing(checks: seq<Check>, replied: bool): nat {
    if checks == [] || checks[|checks| - 1].outcome.Reply? != replied then 0
    else Trailing(checks[..|checks| - 1], replied) + 1
  }

  lemma {:induction false} CountersAreRuns(checks: seq<Check>)
    ensures Replay(checks).0.successes == Min(Trailing(checks, true), MAX_COUNT)
    ensures Replay(checks).0.failures == Min(Trailing(checks, false), MAX_COUNT)
  {
    if checks != [] {
      CountersAreRuns(checks[..|checks| - 1]);
    }
  }

  /** The status a check changes to, told from the results alone. */
  function ThresholdReached(checks: seq<Check>, status: HostStatus): Option<HostStatus>
    requires checks != []
  {
    var c := checks[|checks| - 1];
    if c.outcome.Reply? && status != Up && Trailing(checks, true) >= c.thresholds.success then Some(Up)
    else if c.outcome.NoReply? && status != Down && Trailing(checks, false) >= c.thresholds.failure then Some(Down)
    else None
  }

  /** A transition is recorded exactly when enough checks in a row had the same new result. */
  lemma TransitionsAreThresholds(checks: seq<Check>, c: Check)
    ensures var (state, transitions) := Replay(checks);
      var reached := ThresholdReached(checks + [c], state.status);
      && Replay(checks + [c]).0.status == (if reached.Some? then reached.value else state.status)
      && |Replay(checks + [c]).1| == |transitions| + (if reached.Some? then 1 else 0)
      && (reached.Some? ==>
            var t := Replay(checks + [c]).1[|transitions|];
            t.previous == state.status && t.next == reached.value && t.at == c.at)
  {
    ReplayNext(checks, c);
    CountersAreRuns(checks);
    CountersAreRuns(checks + [c]);
    assert (checks + [c])[..|checks|] == checks;
  }

  function StatusBefore(transitions: seq<Transition>, i: nat): HostStatus {
    if 0 < i <= |transitions| then transitions[i - 1].next else Unknown
  }

  predicate Linked(transitions: seq<Transition>, i: nat) {
    i < |transitions| ==>
      && transitions[i].previous == StatusBefore(transitions, i)
      && transitions[i].previous != transitions[i].next
  }

  /** Each previous status is the last new status, no change is to the same status, times increase. */
  ghost predicate IsChain(transitions: seq<Transition>, last: HostStatus, clock: int) {
    && (forall i: nat :: Linked(transitions, i))
    && (forall i, j :: 0 <= i < j < |transitions| ==> transitions[i].at < transitions[j].at)
    && (forall i :: 0 <= i < |transitions| ==> transitions[i].at <= clock)
    && last == StatusBefore(transitions, |transitions|)
  }

  ghost predicate Increasing(checks: seq<Check>) {
    forall i, j :: 0 <= i < j < |checks| ==> checks[i].at < checks[j].at
  }

  lemma CheckChanges(state: RuntimeState, c: Check)
    ensures var o := CheckOnce(state, c);
      if o.transition.Some?
      then
        && o.transition.value.previous == state.status && o.transition.value.at == c.at
        && o.transition.value.next == o.state.status != state.status
      else o.state.status == state.status
  {
  }

  lemma LinkNext(transitions: seq<Transition>, t: Transition, i: nat)
    requires Linked(transitions, i)
    requires t.previous == StatusBefore(transitions, |transitions|) && t.previous != t.next
    ensures Linked(transitions + [t], i)
  {
    var after := transitions + [t];
    if i < |transitions| {
      assert after[i] == transitions[i];
      assert i > 0 ==> after[i - 1] == transitions[i - 1];
    }
  }

  lemma ChainNext(transitions: seq<Transition>, last: HostStatus, clock: int, t: Transition)
    requires IsChain(transitions, last, clock) && t.previous == last != t.next && clock < t.at
    ensures IsChain(transitions + [t], t.next, t.at)
  {
    hide Linked;
    forall i: nat
      ensures Linked(transitions + [t], i)
    {
      LinkNext(transitions, t, i);
    }
  }

  lemma ChainLater(transitions: seq<Transition>, last: HostStatus, clock: int, later: int)
    requires IsChain(transitions, last, clock) && clock <= later
    ensures IsChain(transitions, last, later)
  {
  }

  lemma {:induction false} ReplayIsChain(checks: seq<Check>, clock: int)
    requires Increasing(checks) && (checks != [] ==> checks[|checks| - 1].at <= clock)
    ensures IsChain(Replay(checks).1, Replay(checks).0.status, clock)
  {
    if checks == [] {
      assert IsChain([], Unknown, clock);
    } else {
      hide CheckOnce, IsChain;
      var before, c := checks[..|checks| - 1], checks[|checks| - 1];
      ReplayIsChain(before, c.at - 1);
      CheckChanges(Replay(before).0, c);
      var o := CheckOnce(Replay(before).0, c);
      if o.transition.Some? {
        ChainNext(Replay(before).1, Replay(before).0.status, c.at - 1, o.transition.value);
        ChainLater(Replay(checks).1, o.state.status, c.at, clock);
      } else {
        ChainLater(Replay(before).1, o.state.status, c.at - 1, clock);
      }
    }
  }

  /** What a transition says of the check that made it. */
  predicate MadeBy(t: Transition, c: Check) {
    && t.at == c.at
    && match c.outcome
       case Reply(latency) =>
         t.next == Up && t.latency == Some(latency) && t.error == None && t.reason == "success threshold reached"
       case NoReply(error) =>
         t.next == Down && t.latency == None && t.error == Some(error) && t.reason == "failure threshold reached"
  }

  lemma LastCheckTells(state: RuntimeState, c: Check)
    ensures var o := CheckOnce(state, c);
      && o.state.lastChecked == Some(c.at)
      && o.state.latency == (if c.outcome.Reply? then Some(c.outcome.latency) else None)
      && o.state.lastError == (if c.outcome.Reply? then None else Some(c.outcome.error))
      && o.state.lastChange == (if o.transition.Some? then Some(c.at) else state.lastChange)
      && (o.transition.Some? ==> MadeBy(o.transition.value, c))
  {
  }

  /**
   * The state tells the time, reply and error of the last check and when the status changed last; every
   * transition tells those of the check that made it.
   */
  lemma {:induction false} StateIsLastCheck(checks: seq<Check>)
    ensures var (state, transitions) := Replay(checks);
      && (checks != [] ==>
            var c := checks[|checks| - 1];
            && state.lastChecked == Some(c.at)
            && state.latency == (if c.outcome.Reply? then Some(c.outcome.latency) else None)
            && state.lastError == (if c.outcome.Reply? then None else Some(c.outcome.error)))
      && state.lastChange == (if transitions == [] then None else Some(transitions[|transitions| - 1].at))
      && forall i :: 0 <= i < |transitions| ==> exists c :: c in checks && MadeBy(transitions[i], c)
  {
    hide CheckOnce, MadeBy;
    if checks != [] {
      var before, c := checks[..|checks| - 1], checks[|checks| - 1];
      StateIsLastCheck(before);
      LastCheckTells(Replay(before).0, c);
      forall i | 0 <= i < |Replay(checks).1|
        ensures exists c :: c in checks && MadeBy(Replay(checks).1[i], c)
      {
        if i < |Replay(before).1| {
          var c' :| c' in before && MadeBy(Replay(before).1[i], c');
          assert c' in checks;
        } else {
          assert c in checks;
        }
      }
    }
  }
}
