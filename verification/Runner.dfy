/**
 * The jobs of all monitors, ICMP, TCP and usage (src/modules/runner.rs), as the history sees them: a
 * job observes, then tries to store until it is acknowledged or turned away, while reloads,
 * maintenance and other jobs, left over from before a reload too, go on around it.
 */
module Runner {
  import opened Prelude
  import opened HistoryStats
  import opened Tiers
  import opened History
  import opened Ingest
  import opened Inventory
  import opened Sync
  import opened Archive
  import opened HistoryRuns
  import opened Retries

  /** What a job is trying to store; `number` tells the observations of all jobs apart. */
  datatype Write = Write(number: nat, at: int, sample: Observation)

  /** A job of one check, with the generation its writes carry. */
  datatype Job = Job(key: CheckKey, token: nat, pending: Option<Write>)

  /** One attempt may be rolled back, commit and still be reported as failed, or be acknowledged. */
  datatype Fate = Lost | ReplyLost | Acknowledged

  /**
   * The process's generation and jobs, and the tables with their archive.  How many observations were
   * made and which of them some commit has had accepted is not part of the program's state.
   */
  datatype Fleet = Fleet(generation: nat, jobs: seq<Job>, world: World, made: nat, counted: set<nat>)

  datatype Step =
    | Start(key: CheckKey)
    | Observe(job: nat, at: int, sample: Observation)
    | Attempt(job: nat, fate: Fate)
    | Reload(hosts: seq<Host>)
    | NewProcess(hosts: seq<Host>)
    | Maintain(operation: Operation)

  const START := Fleet(0, [], World(EMPTY, []), 0, {})

  /** The job has something to store. */
  predicate Storing(f: Fleet, job: int) {
    0 <= job < |f.jobs| && f.jobs[job].pending.Some?
  }

  /** An attempt that reaches the store and whose generation is the current one. */
  predicate Admitted(f: Fleet, job: nat, fate: Fate) {
    Storing(f, job) && fate != Lost && f.jobs[job].token == f.generation
  }

  function Storage(f: Fleet, job: nat): Operation
    requires Storing(f, job)
  {
    var write := f.jobs[job].pending.value;
    Record(f.jobs[job].key, write.at, write.sample)
  }

  /** The sample is accepted by the live epoch of the check. */
  ghost predicate Takes(f: Fleet, job: nat, fate: Fate, now: int) {
    && Admitted(f, job, fate)
    && var write := f.jobs[job].pending.value;
       AcceptsAt(f.world, Transaction(Storage(f, job), now), f.jobs[job].key, write.at, write.sample)
  }

  /** Acknowledged or turned away as stale, the job lets its observation go. */
  predicate LetsGo(f: Fleet, job: nat, fate: Fate) {
    Storing(f, job) && fate != Lost && (f.jobs[job].token != f.generation || fate == Acknowledged)
  }

  function JobsAfter(f: Fleet, step: Step): seq<Job> {
    match step
    case Start(key) => f.jobs + [Job(key, f.generation, None)]
    case Observe(job, at, sample) =>
      if job < |f.jobs| then f.jobs[job := f.jobs[job].(pending := Some(Write(f.made, at, sample)))] else f.jobs
    case Attempt(job, fate) =>
      if LetsGo(f, job, fate) then f.jobs[job := f.jobs[job].(pending := None)] else f.jobs
    case NewProcess(_) => []
    case _ => f.jobs
  }

  ghost function CountedAfter(f: Fleet, step: Step, now: int): set<nat> {
    if step.Attempt? && Takes(f, step.job, step.fate, now) then f.counted + {f.jobs[step.job].pending.value.number}
    else f.counted
  }

  /** What the step does to the tables. */
  function Work(f: Fleet, step: Step): Option<Operation> {
    match step
    case Attempt(job, fate) => if Admitted(f, job, fate) then Some(Storage(f, job)) else None
    case Reload(hosts) => Some(Synchronise(hosts))
    case NewProcess(hosts) => Some(Synchronise(hosts))
    case Maintain(operation) => Some(operation)
    case _ => None
  }

  predicate Enabled(f: Fleet, step: Step) {
    match step
    case Observe(job, _, _) => job < |f.jobs| && f.jobs[job].pending.None?
    case Attempt(job, _) => Storing(f, job)
    case Maintain(operation) => operation.RollUp? || operation.PruneRows?
    case _ => true
  }

  ghost predicate Next(f: Fleet, step: Step, now: int, config: HistoryConfig, after: Fleet) {
    && Enabled(f, step)
    && after.generation == (if step.Reload? then f.generation + 1 else if step.NewProcess? then 0 else f.generation)
    && after.jobs == JobsAfter(f, step)
    && after.made == (if step.Observe? then f.made + 1 else f.made)
    && after.counted == CountedAfter(f, step, now)
    && match Work(f, step)
       case None => after.world == f.world
       case Some(operation) => IsStep(f.world, Transaction(operation, now), config, after.world)
  }

  /** The `i`-th step happens at `clocks[i]`; clocks never go back. */
  ghost predicate IsRun(states: seq<Fleet>, run: seq<Step>, clocks: seq<int>, config: HistoryConfig) {
    && |states| == |run| + 1 && |clocks| == |run|
    && states[0] == START
    && (forall i :: 0 <= i < |run| ==> Next(states[i], run[i], clocks[i], config, states[i + 1]))
    && (forall i, j :: 0 <= i <= j < |run| ==> clocks[i] <= clocks[j])
  }

  // ----- what every step keeps -----

  /** The live epoch of the check holds an observation of that time. */
  ghost predicate Holds(h: History, key: CheckKey, at: int) {
    exists id :: id in StoredIds(h) && Live(h.epochs, id, key) && EntryAt(h.log[id], at).Some?
  }

  /** No token is from the future, and no two jobs are storing the same observation. */
  ghost predicate JobsOk(f: Fleet) {
    && (forall i :: 0 <= i < |f.jobs| ==> f.jobs[i].token <= f.generation)
    && (forall i :: Storing(f, i) ==> f.jobs[i].pending.value.number < f.made)
    && (forall i, j :: Storing(f, i) && Storing(f, j) && i != j ==>
          f.jobs[i].pending.value.number != f.jobs[j].pending.value.number)
    && (forall n :: n in f.counted ==> n < f.made)
  }

  /** What was accepted and can still be stored again is in the live epoch. */
  ghost predicate CountedHeld(f: Fleet) {
    forall i :: Storing(f, i) && f.jobs[i].token == f.generation && f.jobs[i].pending.value.number in f.counted ==>
      Holds(f.world.h, f.jobs[i].key, f.jobs[i].pending.value.at)
  }

  ghost predicate FleetOk(f: Fleet, config: HistoryConfig, clock: int) {
    JobsOk(f) && CountedHeld(f) && WorldOk(f.world, config, clock)
  }

  lemma JobsStayOk(f: Fleet, step: Step, now: int, config: HistoryConfig, after: Fleet)
    requires JobsOk(f) && Next(f, step, now, config, after)
    ensures JobsOk(after)
  {
    hide IsStep, AcceptsAt;
  }

  lemma StepHolds(h: History, t: Transaction, config: HistoryConfig, after: History, key: CheckKey, at: int)
    requires Inv(h, config, t.now) && HistoryRuns.Next(h, t, config, after) && !t.operation.Synchronise?
    requires Holds(h, key, at)
    ensures Holds(after, key, at)
  {
    hide Inv, HistoryRuns.Next;
    var id :| id in StoredIds(h) && Live(h.epochs, id, key) && EntryAt(h.log[id], at).Some?;
    LiveStays(h, t, config, after, id, key);
    EntryKept(h.log[id], after.log[id], at);
  }

  lemma TakenHolds(f: Fleet, job: nat, fate: Fate, now: int, config: HistoryConfig, after: World)
    requires Takes(f, job, fate, now) && IsStep(f.world, Transaction(Storage(f, job), now), config, after)
    ensures Holds(after.h, f.jobs[job].key, f.jobs[job].pending.value.at)
  {
    hide IsStep, AcceptsAt;
    var key, write := f.jobs[job].key, f.jobs[job].pending.value;
    AcceptedEntry(f.world, Transaction(Storage(f, job), now), config, after, key, write.at, write.sample);
    LiveHas(f, job, fate, now);
    assert Live(after.h.epochs, LiveId(f.world.h.epochs, key), key);
  }

  lemma LiveHas(f: Fleet, job: nat, fate: Fate, now: int)
    requires Takes(f, job, fate, now)
    ensures HasLive(f.world.h.epochs, f.jobs[job].key)
  {
  }

  lemma CountedStaysHeld(f: Fleet, step: Step, now: int, config: HistoryConfig, after: Fleet)
    requires JobsOk(f) && CountedHeld(f) && Inv(f.world.h, config, now) && Next(f, step, now, config, after)
    ensures CountedHeld(after)
  {
    hide Inv, IsStep, AcceptsAt, Holds;
    forall i | Storing(after, i) && after.jobs[i].token == after.generation
      && after.jobs[i].pending.value.number in after.counted
      ensures Holds(after.world.h, after.jobs[i].key, after.jobs[i].pending.value.at)
    {
      OneStaysHeld(f, step, now, config, after, i);
    }
  }

  lemma OneStaysHeld(f: Fleet, step: Step, now: int, config: HistoryConfig, after: Fleet, i: nat)
    requires JobsOk(f) && CountedHeld(f) && Inv(f.world.h, config, now) && Next(f, step, now, config, after)
    requires Storing(after, i) && after.jobs[i].token == after.generation
    requires after.jobs[i].pending.value.number in after.counted
    ensures Holds(after.world.h, after.jobs[i].key, after.jobs[i].pending.value.at)
  {
    hide Inv, HistoryRuns.Next, Archives, AcceptsAt, Holds;
    assert !step.Reload? && !step.NewProcess?;
    assert Storing(f, i) && f.jobs[i] == after.jobs[i];
    var key, at := f.jobs[i].key, f.jobs[i].pending.value.at;
    if f.jobs[i].pending.value.number !in f.counted {
      TakenHolds(f, step.job, step.fate, now, config, after.world);
    } else {
      match Work(f, step)
      case None =>
      case Some(operation) => StepHolds(f.world.h, Transaction(operation, now), config, after.world.h, key, at);
    }
  }

  lemma NextKeepsOk(f: Fleet, step: Step, now: int, config: HistoryConfig, after: Fleet)
    requires config.Valid() && FleetOk(f, config, now) && Next(f, step, now, config, after)
    ensures FleetOk(after, config, now)
  {
    hide Inv, IsStep, JobsOk, CountedHeld, RawLogged, GoneHeldNothing, GoneOk;
    JobsStayOk(f, step, now, config, after);
    CountedStaysHeld(f, step, now, config, after);
    match Work(f, step)
    case None =>
    case Some(operation) => StepKeepsWorld(f.world, Transaction(operation, now), config, after.world);
  }

  lemma {:induction false} RunsKeepOk(
    states: seq<Fleet>, run: seq<Step>, clocks: seq<int>, config: HistoryConfig, i: nat, clock: int)
    requires config.Valid() && IsRun(states, run, clocks, config) && i <= |run|
    requires i > 0 ==> clocks[i - 1] <= clock
    ensures FleetOk(states[i], config, clock)
  {
    hide Next, WorldOk;
    if i == 0 {
      EmptyWorld(config, clock);
      assert JobsOk(START) && CountedHeld(START);
    } else {
      RunsKeepOk(states, run, clocks, config, i - 1, clocks[i - 1]);
      NextKeepsOk(states[i - 1], run[i - 1], clocks[i - 1], config, states[i]);
      WorldOkLater(states[i].world, config, clocks[i - 1], clock);
    }
  }

  // ----- counted at most once -----

  /** An attempt to store an observation that has been accepted before changes nothing in the history. */
  lemma StoredAgain(f: Fleet, step: Step, now: int, config: HistoryConfig, after: Fleet)
    requires FleetOk(f, config, now) && Next(f, step, now, config, after)
    requires step.Attempt? && f.jobs[step.job].pending.value.number in f.counted
    ensures after.world == f.world
  {
    hide Inv, JobsOk, RawLogged, GoneHeldNothing, GoneOk, Archives, Accepted, LifetimesApart;
    if Admitted(f, step.job, step.fate) {
      var key, write := f.jobs[step.job].key, f.jobs[step.job].pending.value;
      var h := f.world.h;
      var id :| id in StoredIds(h) && Live(h.epochs, id, key) && EntryAt(h.log[id], write.at).Some?;
      InvParts(h, config, now);
      LiveUnique(h, id, key);
      StoredEntryIgnored(h, id, write.at, write.sample, config, now, now);
      assert after.world.h == h;
      NothingArchived(f.world, after.world);
    }
  }

  lemma {:induction false} CountedGrows(
    states: seq<Fleet>, run: seq<Step>, clocks: seq<int>, config: HistoryConfig, i: nat, j: nat)
    requires IsRun(states, run, clocks, config) && i <= j <= |run|
    ensures states[i].counted <= states[j].counted
  {
    hide Takes;
    if i < j {
      CountedGrows(states, run, clocks, config, i, j - 1);
      assert Next(states[j - 1], run[j - 1], clocks[j - 1], config, states[j]);
    }
  }

  /** An attempt changes the history only by having its observation accepted. */
  lemma ChangeIsTaken(f: Fleet, step: Step, now: int, config: HistoryConfig, after: Fleet)
    requires FleetOk(f, config, now) && Next(f, step, now, config, after)
    requires step.Attempt? && after.world != f.world
    ensures Takes(f, step.job, step.fate, now)
  {
    hide Inv, JobsOk, CountedHeld, RawLogged, GoneHeldNothing, GoneOk, Archives, Accepts, Accepted;
    if !Takes(f, step.job, step.fate, now) && Admitted(f, step.job, step.fate) {
      assert after.world.h == f.world.h;
      NothingArchived(f.world, after.world);
    }
  }

  /**
   * Main result: an observation of any monitor is counted at most once.  Whatever failed, was falsely
   * reported as failed or happened in between, once an attempt to store it has changed anything in the
   * history, no later attempt to store it, before a reload or after, does.
   */
  lemma CountedOnce(states: seq<Fleet>, run: seq<Step>, clocks: seq<int>, config: HistoryConfig, i: nat, j: nat)
    requires config.Valid() && IsRun(states, run, clocks, config) && i < j < |run|
    requires run[i].Attempt? && Storing(states[i], run[i].job) && states[i + 1].world != states[i].world
    requires run[j].Attempt? && Storing(states[j], run[j].job)
    requires states[j].jobs[run[j].job].pending == states[i].jobs[run[i].job].pending
    ensures states[j + 1].world == states[j].world
  {
    hide FleetOk, Takes, IsStep;
    RunsKeepOk(states, run, clocks, config, j, clocks[j]);
    RunsKeepOk(states, run, clocks, config, i, clocks[i]);
    assert Next(states[i], run[i], clocks[i], config, states[i + 1]);
    ChangeIsTaken(states[i], run[i], clocks[i], config, states[i + 1]);
    CountedGrows(states, run, clocks, config, i + 1, j);
    StoredAgain(states[j], run[j], clocks[j], config, states[j + 1]);
  }

  // ----- and it stays counted -----

  lemma StepArchives(f: Fleet, step: Step, now: int, config: HistoryConfig, after: Fleet, p: Past) returns (q: Past)
    requires FleetOk(f, config, now) && Next(f, step, now, config, after) && p in Everything(f.world)
    ensures q in Everything(after.world) && Extends(p, q)
  {
    hide Inv, JobsOk, CountedHeld, RawLogged, GoneHeldNothing, GoneOk, IsStep, Everything, Extends;
    match Work(f, step)
    case None =>
      q := p;
      SelfExtends(p);
    case Some(operation) => q := StepOnlyGrows(f.world, Transaction(operation, now), config, after.world, p);
  }

  lemma {:induction false} ArchiveKeeps(
    states: seq<Fleet>, run: seq<Step>, clocks: seq<int>, config: HistoryConfig, i: nat, j: nat, p: Past)
    returns (q: Past)
    requires config.Valid() && IsRun(states, run, clocks, config) && i <= j <= |run| && p in Everything(states[i].world)
    ensures q in Everything(states[j].world) && Extends(p, q)
  {
    hide Next, FleetOk, Everything, Extends;
    if i == j {
      q := p;
      SelfExtends(p);
    } else {
      var before := ArchiveKeeps(states, run, clocks, config, i, j - 1, p);
      RunsKeepOk(states, run, clocks, config, j - 1, clocks[j - 1]);
      q := StepArchives(states[j - 1], run[j - 1], clocks[j - 1], config, states[j], before);
      ExtendsFurther(p, before, q);
    }
  }

  lemma TakenArchived(f: Fleet, step: Step, now: int, config: HistoryConfig, after: Fleet) returns (p: Past)
    requires Next(f, step, now, config, after) && step.Attempt? && Takes(f, step.job, step.fate, now)
    ensures p in Everything(after.world) && p.epoch.key == f.jobs[step.job].key
    ensures var write := f.jobs[step.job].pending.value; EntryAt(p.log, write.at) == Some(write.sample)
  {
    hide IsStep, AcceptsAt, Everything;
    var key, write := f.jobs[step.job].key, f.jobs[step.job].pending.value;
    LiveHas(f, step.job, step.fate, now);
    AcceptedEntry(f.world, Transaction(Storage(f, step.job), now), config, after.world, key, write.at, write.sample);
    p := PastOf(after.world.h, LiveId(f.world.h.epochs, key));
    EverythingIsArchived(after.world, p);
  }

  lemma FleetArchiveOk(f: Fleet, config: HistoryConfig, clock: int, p: Past)
    requires FleetOk(f, config, clock) && p in Everything(f.world)
    ensures EpochOk(p.epoch, p.log, clock)
  {
    hide WorldOk, Everything, EpochOk, JobsOk, CountedHeld;
    ArchivedOk(f.world, config, clock, p);
  }

  /** An observation that changed the history stays in the archive as it was reported, whatever happens later. */
  lemma CountedForGood(states: seq<Fleet>, run: seq<Step>, clocks: seq<int>, config: HistoryConfig, i: nat, j: nat)
    returns (q: Past)
    requires config.Valid() && IsRun(states, run, clocks, config) && i < j <= |run|
    requires run[i].Attempt? && Storing(states[i], run[i].job) && states[i + 1].world != states[i].world
    ensures var job := states[i].jobs[run[i].job];
      && q in Everything(states[j].world) && q.epoch.key == job.key
      && EntryAt(q.log, job.pending.value.at) == Some(job.pending.value.sample)
  {
    hide Next, FleetOk, Takes, Everything, Ordered;
    RunsKeepOk(states, run, clocks, config, i, clocks[i]);
    ChangeIsTaken(states[i], run[i], clocks[i], config, states[i + 1]);
    var p := TakenArchived(states[i], run[i], clocks[i], config, states[i + 1]);
    q := ArchiveKeeps(states, run, clocks, config, i + 1, j, p);
    RunsKeepOk(states, run, clocks, config, j, clocks[j - 1]);
    FleetArchiveOk(states[j], config, clocks[j - 1], q);
    var at := states[i].jobs[run[i].job].pending.value.at;
    EntryStays(p.log, q.log, q.epoch.started, EndAt(q.epoch, clocks[j - 1]), at);
  }
}
