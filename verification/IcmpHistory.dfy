/**
 * A monitored host's checks in both places at once: a committed write replaces the latest status,
 * stores the transition and records the sample in one transaction (`update_check_result`,
 * src/storage/sqlite/mod.rs), while the jobs of every other check go on beside it.
 */
module IcmpHistory {
  import opened Prelude
  import opened HistoryStats
  import opened Tiers
  import opened History
  import opened Inventory
  import opened HistoryRuns
  import Icmp
  import IcmpStore
  import Runner

  function StatusName(status: Icmp.HostStatus): string {
    match status
    case Unknown => "unknown"
    case Up => "up"
    case Down => "down"
  }

  /** What a check's state reports to the history. */
  function SampleOf(state: Icmp.RuntimeState): Observation {
    Observation(StatusName(state.status), state.lastError.None?, state.latency, None, None, state.lastError)
  }

  /** The jobs of all checks, the host's own tables, and where among the jobs the host's are. */
  datatype Joint = Joint(fleet: Runner.Fleet, monitor: IcmpStore.Monitor, places: seq<nat>)

  /** A step of the host's, synchronising these hosts if it is a reload, or one of the other checks and maintenance. */
  datatype Step = Own(step: IcmpStore.Step, hosts: seq<Host>) | Beside(other: Runner.Step)

  function PlaceOf(j: Joint, job: nat): nat {
    if job < |j.places| then j.places[job] else |j.fleet.jobs|
  }

  /** The same step as the history sees it. */
  function InFleet(j: Joint, step: IcmpStore.Step, hosts: seq<Host>, key: CheckKey): Option<Runner.Step> {
    match step
    case Start => Some(Runner.Start(key))
    case Observe(job, c) =>
      if job < |j.monitor.jobs| then
        Some(Runner.Observe(PlaceOf(j, job), c.at, SampleOf(IcmpStore.Observed(j.monitor.jobs[job], c).state)))
      else None
    case Attempt(job, fate) => Some(Runner.Attempt(PlaceOf(j, job), fate))
    case Reload(_) => Some(Runner.Reload(hosts))
    case NewProcess(_) => Some(Runner.NewProcess(hosts))
    case Delete(_, _) => None
  }

  function PlacesAfter(j: Joint, step: IcmpStore.Step): seq<nat> {
    if step.Start? then j.places + [|j.fleet.jobs|] else if step.NewProcess? then [] else j.places
  }

  /** The step is another check's or maintenance. */
  predicate IsOther(j: Joint, other: Runner.Step, key: CheckKey) {
    match other
    case Start(k) => k != key
    case Observe(job, _, _) => job !in j.places
    case Attempt(job, _) => job !in j.places
    case Reload(_) => false
    case NewProcess(_) => false
    case Maintain(_) => true
  }

  ghost predicate Next(j: Joint, step: Step, now: int, key: CheckKey, config: HistoryConfig, after: Joint) {
    match step
    case Own(own, hosts) =>
      && IcmpStore.Next(j.monitor, own, after.monitor)
      && after.places == PlacesAfter(j, own)
      && (match InFleet(j, own, hosts, key)
          case None => after.fleet == j.fleet
          case Some(s) => Runner.Next(j.fleet, s, now, config, after.fleet))
    case Beside(other) =>
      && IsOther(j, other, key)
      && after.monitor == j.monitor && after.places == j.places
      && Runner.Next(j.fleet, other, now, config, after.fleet)
  }

  const START := Joint(Runner.START, IcmpStore.FIRST, [])

  /** The `i`-th step happens at `clocks[i]`; clocks never go back. */
  ghost predicate IsRun(states: seq<Joint>, run: seq<Step>, clocks: seq<int>, key: CheckKey, config: HistoryConfig) {
    && |states| == |run| + 1 && |clocks| == |run|
    && states[0] == START
    && (forall i :: 0 <= i < |run| ==> Next(states[i], run[i], clocks[i], key, config, states[i + 1]))
    && (forall i, j :: 0 <= i <= j < |run| ==> clocks[i] <= clocks[j])
  }

  // ----- both sides agree -----

  /** The write and the check are the same; what the history has counted the host's tables have stored. */
  predicate SameWrite(
    write: Option<Runner.Write>, pending: Option<IcmpStore.Pending>, counted: set<nat>, current: bool)
  {
    && (write.Some? <==> pending.Some?)
    && (write.Some? ==>
          && write.value.at == pending.value.check.at
          && write.value.sample == SampleOf(pending.value.observation.state)
          && (current && write.value.number in counted ==> pending.value.landed))
  }

  predicate SameJob(f: Runner.Fleet, place: nat, key: CheckKey, job: IcmpStore.Job) {
    && place < |f.jobs|
    && f.jobs[place].key == key && f.jobs[place].token == job.token
    && SameWrite(f.jobs[place].pending, job.pending, f.counted, job.token == f.generation)
  }

  ghost predicate Linked(j: Joint, key: CheckKey) {
    && j.fleet.generation == j.monitor.generation
    && |j.places| == |j.monitor.jobs|
    && (forall a, b :: 0 <= a < b < |j.places| ==> j.places[a] != j.places[b])
    && (forall a :: 0 <= a < |j.places| ==> SameJob(j.fleet, j.places[a], key, j.monitor.jobs[a]))
  }

  ghost predicate JointOk(j: Joint, key: CheckKey, config: HistoryConfig, clock: int) {
    Runner.FleetOk(j.fleet, config, clock) && IcmpStore.Inv(j.monitor) && Linked(j, key)
  }

  /** No other job's observation is that of the job. */
  lemma OthersUncounted(f: Runner.Fleet, step: Runner.Step, now: int, place: nat)
    requires Runner.JobsOk(f) && Runner.Storing(f, place) && Runner.Enabled(f, step)
    requires step.Attempt? ==> step.job != place
    requires f.jobs[place].pending.value.number !in f.counted
    ensures f.jobs[place].pending.value.number !in Runner.CountedAfter(f, step, now)
  {
    hide Runner.Takes;
  }

  lemma OwnKeepsLink(
    j: Joint, own: IcmpStore.Step, hosts: seq<Host>, now: int, key: CheckKey, config: HistoryConfig, after: Joint)
    requires Linked(j, key) && Runner.JobsOk(j.fleet) && Next(j, Own(own, hosts), now, key, config, after)
    requires IcmpStore.JobsOk(j.monitor)
    ensures Linked(after, key)
  {
    hide IsStep, Runner.Takes, IcmpStore.Written, IcmpStore.Deleted, Icmp.CheckOnce, SameWrite, IcmpStore.JobOk;
    assert |after.places| == |after.monitor.jobs|;
    forall a | 0 <= a < |after.places|
      ensures SameJob(after.fleet, after.places[a], key, after.monitor.jobs[a])
    {
      OwnKeepsJob(j, own, hosts, now, key, config, after, a);
    }
  }

  lemma TakesAdmitted(f: Runner.Fleet, job: nat, fate: Runner.Fate, now: int)
    ensures Runner.Takes(f, job, fate, now) ==> Runner.Admitted(f, job, fate)
  {
    hide AcceptsAt;
  }

  lemma AttemptKeepsJob(
    j: Joint, job: nat, fate: Runner.Fate, hosts: seq<Host>, now: int, key: CheckKey, config: HistoryConfig,
    after: Joint, a: nat)
    requires Linked(j, key) && Runner.JobsOk(j.fleet)
    requires Next(j, Own(IcmpStore.Attempt(job, fate), hosts), now, key, config, after) && a < |j.places|
    ensures SameJob(after.fleet, after.places[a], key, after.monitor.jobs[a])
  {
    hide IsStep, Runner.Takes, IcmpStore.Written;
    var place := PlaceOf(j, job);
    assert SameJob(j.fleet, j.places[a], key, j.monitor.jobs[a]);
    assert SameJob(j.fleet, place, key, j.monitor.jobs[job]);
    TakesAdmitted(j.fleet, place, fate, now);
    if a != job && Runner.Storing(j.fleet, j.places[a]) {
      if j.fleet.jobs[j.places[a]].pending.value.number !in j.fleet.counted {
        OthersUncounted(j.fleet, Runner.Attempt(place, fate), now, j.places[a]);
      }
    }
  }

  lemma OwnKeepsJob(
    j: Joint, own: IcmpStore.Step, hosts: seq<Host>, now: int, key: CheckKey, config: HistoryConfig, after: Joint,
    a: nat)
    requires Linked(j, key) && Runner.JobsOk(j.fleet) && Next(j, Own(own, hosts), now, key, config, after)
    requires IcmpStore.JobsOk(j.monitor) && a < |after.places| && a < |after.monitor.jobs|
    ensures SameJob(after.fleet, after.places[a], key, after.monitor.jobs[a])
  {
    hide IsStep, Runner.Takes, IcmpStore.Written, IcmpStore.Deleted, Icmp.CheckOnce, IcmpStore.JobOk;
    match own
    case Attempt(job, fate) => AttemptKeepsJob(j, job, fate, hosts, now, key, config, after, a);
    case NewProcess(_) =>
    case _ =>
      if a < |j.places| {
        assert SameJob(j.fleet, j.places[a], key, j.monitor.jobs[a]);
      }
  }

  lemma BesideKeepsLink(j: Joint, other: Runner.Step, now: int, key: CheckKey, config: HistoryConfig, after: Joint)
    requires Linked(j, key) && Runner.JobsOk(j.fleet) && Next(j, Beside(other), now, key, config, after)
    ensures Linked(after, key)
  {
    hide IsStep, Runner.Takes, SameWrite;
    forall a | 0 <= a < |j.places|
      ensures SameJob(after.fleet, j.places[a], key, j.monitor.jobs[a])
    {
      BesideKeepsJob(j, other, now, key, config, after, a);
    }
  }

  lemma BesideKeepsJob(
    j: Joint, other: Runner.Step, now: int, key: CheckKey, config: HistoryConfig, after: Joint, a: nat)
    requires Linked(j, key) && Runner.JobsOk(j.fleet) && Next(j, Beside(other), now, key, config, after)
    requires a < |j.places|
    ensures SameJob(after.fleet, j.places[a], key, j.monitor.jobs[a])
  {
    hide IsStep, Runner.Takes;
    var place := j.places[a];
    assert SameJob(j.fleet, place, key, j.monitor.jobs[a]) && place in j.places;
    if Runner.Storing(j.fleet, place) && j.fleet.jobs[place].pending.value.number !in j.fleet.counted {
      OthersUncounted(j.fleet, other, now, place);
    }
  }

  lemma NextKeepsOk(j: Joint, step: Step, now: int, key: CheckKey, config: HistoryConfig, after: Joint)
    requires config.Valid() && JointOk(j, key, config, now) && Next(j, step, now, key, config, after)
    ensures JointOk(after, key, config, now)
  {
    hide Runner.Next, IcmpStore.Next, Linked, Runner.JobsOk, Runner.CountedHeld, WorldOk, IcmpStore.JobsOk,
         IcmpStore.TablesOk, IcmpStore.Older;
    match step
    case Own(own, hosts) =>
      IcmpStore.NextKeepsInv(j.monitor, own, after.monitor);
      OwnKeepsLink(j, own, hosts, now, key, config, after);
      match InFleet(j, own, hosts, key) {
        case None =>
        case Some(s) => Runner.NextKeepsOk(j.fleet, s, now, config, after.fleet);
      }
    case Beside(other) =>
      BesideKeepsLink(j, other, now, key, config, after);
      Runner.NextKeepsOk(j.fleet, other, now, config, after.fleet);
  }

  /** In every joint run both sides keep their invariants and agree on every write. */
  lemma {:induction false} RunsKeepOk(
    states: seq<Joint>, run: seq<Step>, clocks: seq<int>, key: CheckKey, config: HistoryConfig, i: nat, clock: int)
    requires config.Valid() && IsRun(states, run, clocks, key, config) && i <= |run|
    requires i > 0 ==> clocks[i - 1] <= clock
    ensures JointOk(states[i], key, config, clock)
  {
    hide Next, Runner.JobsOk, Runner.CountedHeld, WorldOk, IcmpStore.Inv, Linked;
    if i == 0 {
      StartOk(key, config, clock);
    } else {
      RunsKeepOk(states, run, clocks, key, config, i - 1, clocks[i - 1]);
      NextKeepsOk(states[i - 1], run[i - 1], clocks[i - 1], key, config, states[i]);
      WorldOkLater(states[i].fleet.world, config, clocks[i - 1], clock);
    }
  }

  lemma StartOk(key: CheckKey, config: HistoryConfig, clock: int)
    ensures JointOk(START, key, config, clock)
  {
    hide WorldOk;
    EmptyWorld(config, clock);
    IcmpStore.FirstInv();
  }

  // ----- stored and counted once -----

  lemma {:induction false} CountedGrows(
    states: seq<Joint>, run: seq<Step>, clocks: seq<int>, key: CheckKey, config: HistoryConfig, i: nat, j: nat)
    requires IsRun(states, run, clocks, key, config) && i <= j <= |run|
    ensures states[i].fleet.counted <= states[j].fleet.counted
  {
    hide Runner.Takes, IcmpStore.Next, IsStep;
    if i < j {
      CountedGrows(states, run, clocks, key, config, i, j - 1);
      assert Next(states[j - 1], run[j - 1], clocks[j - 1], key, config, states[j]);
    }
  }

  /** A further attempt to store a check whose sample has been counted. */
  lemma StoredAgain(
    j: Joint, job: nat, fate: Runner.Fate, hosts: seq<Host>, now: int, key: CheckKey, config: HistoryConfig,
    after: Joint)
    requires JointOk(j, key, config, now)
    requires Next(j, Own(IcmpStore.Attempt(job, fate), hosts), now, key, config, after)
    requires job < |j.places| && Runner.Storing(j.fleet, j.places[job])
    requires j.fleet.jobs[j.places[job]].pending.value.number in j.fleet.counted
    ensures after.fleet.world == j.fleet.world
    ensures var t, x := j.monitor.tables, j.monitor.jobs[job].pending.value.observation.transition;
      && after.monitor.tables == t.(rows := after.monitor.tables.rows)
      && (after.monitor.tables.rows == t.rows || (x.Some? && after.monitor.tables.rows == t.rows + [x.value]))
      && (t.floor.None? ==> after.monitor.tables == t)
  {
    hide Runner.FleetOk, IsStep, Runner.Takes, IcmpStore.TablesOk, IcmpStore.PendingOk, IcmpStore.Written;
    Runner.StoredAgain(j.fleet, Runner.Attempt(j.places[job], fate), now, config, after.fleet);
    assert SameJob(j.fleet, j.places[job], key, j.monitor.jobs[job]);
    if IcmpStore.Admitted(j.monitor, job, fate) {
      assert IcmpStore.JobOk(j.monitor.tables, j.monitor.jobs[job]);
      IcmpStore.LaterCommit(j.monitor.tables, j.monitor.jobs[job].pending.value);
    }
  }

  /**
   * Main result: a check is stored and counted at most once, in both places.  Whatever failed, was
   * falsely reported as failed or happened in between, reloads included, once an attempt to store it
   * has changed the history, no later attempt changes the history or the status tables, except
   * that it puts back the check's transition if that was deleted.
   */
  lemma StoredAndCountedOnce(
    states: seq<Joint>, run: seq<Step>, clocks: seq<int>, key: CheckKey, config: HistoryConfig, i: nat, j: nat,
    first: nat, fate: Runner.Fate, again: nat, fate': Runner.Fate)
    requires config.Valid() && IsRun(states, run, clocks, key, config) && i < j < |run|
    requires run[i].Own? && run[i].step == IcmpStore.Attempt(first, fate)
    requires states[i + 1].fleet.world != states[i].fleet.world
    requires run[j].Own? && run[j].step == IcmpStore.Attempt(again, fate')
    requires PlaceOf(states[i], first) < |states[i].fleet.jobs| && PlaceOf(states[j], again) < |states[j].fleet.jobs|
    requires states[j].fleet.jobs[PlaceOf(states[j], again)].pending
          == states[i].fleet.jobs[PlaceOf(states[i], first)].pending
    ensures states[j + 1].fleet.world == states[j].fleet.world
    ensures again < |states[j].monitor.jobs| && states[j].monitor.jobs[again].pending.Some?
    ensures var t, left := states[j].monitor.tables, states[j + 1].monitor.tables;
      var x := states[j].monitor.jobs[again].pending.value.observation.transition;
      && left == t.(rows := left.rows)
      && (left.rows == t.rows || (x.Some? && left.rows == t.rows + [x.value]))
      && (t.floor.None? ==> left == t)
  {
    hide IsStep, Runner.Takes, Runner.FleetOk, IcmpStore.Inv, IcmpStore.Attempted;
    RunsKeepOk(states, run, clocks, key, config, j, clocks[j]);
    RunsKeepOk(states, run, clocks, key, config, i, clocks[i]);
    assert Next(states[i], run[i], clocks[i], key, config, states[i + 1]);
    assert Next(states[j], run[j], clocks[j], key, config, states[j + 1]);
    var attempt := Runner.Attempt(PlaceOf(states[i], first), fate);
    Runner.ChangeIsTaken(states[i].fleet, attempt, clocks[i], config, states[i + 1].fleet);
    CountedGrows(states, run, clocks, key, config, i + 1, j);
    StoredAgain(states[j], again, fate', run[j].hosts, clocks[j], key, config, states[j + 1]);
  }
}
