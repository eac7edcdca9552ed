/**
 * The persisted maintenance scheduler (src/storage/sqlite/jobs.rs, src/domain/maintenance.rs):
 * claims, completions that may fail to be stored, crashes and recovery.
 */
module Scheduler {
  import opened Prelude

  datatype JobKind = Rollup | Retention | Reclaim | Optimize | Checkpoint | JobHistory

  const ALL := [Rollup, Retention, Reclaim, Optimize, Checkpoint, JobHistory]

  const KINDS := {Rollup, Retention, Reclaim, Optimize, Checkpoint, JobHistory}

  function Id(kind: JobKind): (id: string)
    ensures id != ""
  {
    match kind
    case Rollup => "history_rollup"
    case Retention => "retention"
    case Reclaim => "space_reclamation"
    case Optimize => "query_optimization"
    case Checkpoint => "wal_checkpoint"
    case JobHistory => "job_history_cleanup"
  }

  /** The ids differ in their first letter, which decides their text order. */
  function Rank(kind: JobKind): int {
    Id(kind)[0] as int
  }

  datatype MaintenanceConfig = MaintenanceConfig(
    rollupInterval: int,
    retentionInterval: int,
    reclaimInterval: int,
    optimizeInterval: int)
  {
    /** Intervals are at least one second. */
    predicate Valid() {
      rollupInterval >= 1000 && retentionInterval >= 1000 && reclaimInterval >= 1000 && optimizeInterval >= 1000
    }
  }

  function Interval(kind: JobKind, config: MaintenanceConfig): int {
    match kind
    case Rollup => config.rollupInterval
    case Retention => config.retentionInterval
    case Reclaim => config.reclaimInterval
    case Optimize => config.optimizeInterval
    case Checkpoint => 300_000
    case JobHistory => 86_400_000
  }

  datatype Status = Pending | Running | Succeeded | Errored | Interrupted

  datatype Job = Job(status: Status, nextRun: int, failures: nat, lastStarted: Option<int>, lastSuccess: Option<int>)

  /** The job table, and the job the process is executing under the maintenance permit. */
  datatype Jobs = Jobs(table: map<JobKind, Job>, holding: Option<JobKind>)

  // ----- transactions -----

  function Registered(row: Option<Job>, kind: JobKind, config: MaintenanceConfig, now: int): Job {
    match row
    case None => Job(Pending, now, 0, None, None)
    case Some(job) => job.(nextRun := Min(job.nextRun, now + Interval(kind, config)))
  }

  function RowOf(table: map<JobKind, Job>, kind: JobKind): Option<Job> {
    if kind in table then Some(table[kind]) else None
  }

  function Register(s: Jobs, config: MaintenanceConfig, now: int): Jobs {
    s.(table := map kind | kind in KINDS :: Registered(RowOf(s.table, kind), kind, config, now))
  }

  /** After a restart nothing is executing; a job still marked running was interrupted. */
  function Recover(s: Jobs, now: int): Jobs {
    Jobs(map kind | kind in s.table ::
           if s.table[kind].status == Running then s.table[kind].(status := Interrupted, nextRun := now)
           else s.table[kind],
         None)
  }

  /** A job still marked running although none executes: its completion could not be stored. */
  function Released(table: map<JobKind, Job>, now: int): map<JobKind, Job> {
    map kind | kind in table ::
      var job := table[kind];
      if job.status == Running then job.(status := Errored, failures := job.failures + 1, nextRun := now + 5000)
      else job
  }

  /** `ORDER BY next_run_ms, id`. */
  predicate Sooner(table: map<JobKind, Job>, a: JobKind, b: JobKind)
    requires a in table && b in table
  {
    table[a].nextRun < table[b].nextRun || (table[a].nextRun == table[b].nextRun && Rank(a) < Rank(b))
  }

  predicate Due(table: map<JobKind, Job>, kind: JobKind, now: int) {
    kind in table && table[kind].nextRun <= now
  }

  /** The due job the query picks. */
  ghost predicate Picks(table: map<JobKind, Job>, now: int, picked: Option<JobKind>) {
    match picked
    case None => forall kind :: !Due(table, kind, now)
    case Some(kind) =>
      && Due(table, kind, now)
      && forall other :: Due(table, other, now) && other != kind ==> Sooner(table, kind, other)
  }

  function Started(table: map<JobKind, Job>, kind: JobKind, now: int): map<JobKind, Job>
    requires kind in table
  {
    table[kind := table[kind].(status := Running, lastStarted := Some(now))]
  }

  /** One claim; without the permit nothing happens. */
  ghost predicate Claimed(s: Jobs, now: int, picked: Option<JobKind>, after: Jobs) {
    if s.holding.Some? then picked.None? && after == s
    else
      var table := Released(s.table, now);
      && Picks(table, now, picked)
      && (picked.Some? ==> picked.value in table)
      && after == if picked.Some? then Jobs(Started(table, picked.value, now), picked) else s.(table := table)
  }

  function Power(n: nat): (p: nat)
    ensures p >= 1
  {
    if n == 0 then 1 else 2 * Power(n - 1)
  }

  function Backoff(failures: nat): int {
    Min(5000 * Power(Min(failures, 9)), 3_600_000)
  }

  datatype Result = Ok(more: bool) | Failure

  function Delay(job: Job, kind: JobKind, result: Result, config: MaintenanceConfig): int {
    match result
    case Ok(more) => if more then 1000 else Interval(kind, config)
    case Failure => Backoff(job.failures)
  }

  function Finished(job: Job, kind: JobKind, result: Result, config: MaintenanceConfig, now: int): Job {
    var nextRun := now + Delay(job, kind, result, config);
    if result.Ok? then job.(status := Succeeded, nextRun := nextRun, failures := 0, lastSuccess := Some(now))
    else job.(status := Errored, nextRun := nextRun, failures := job.failures + 1)
  }

  /** The permit is given back whether or not the completion could be stored. */
  function Complete(s: Jobs, result: Result, config: MaintenanceConfig, now: int, stored: bool): Jobs {
    if s.holding.None? || s.holding.value !in s.table then s
    else
      var kind := s.holding.value;
      Jobs(if stored then s.table[kind := Finished(s.table[kind], kind, result, config, now)] else s.table, None)
  }

  datatype Step =
    | Configure(config: MaintenanceConfig)
    | Restart
    | Claim(picked: Option<JobKind>)
    | Finish(result: Result, config: MaintenanceConfig, stored: bool)

  /** A step and the clock reading of its transaction. */
  datatype Event = Event(step: Step, now: int)

  ghost predicate Next(s: Jobs, e: Event, after: Jobs) {
    match e.step
    case Configure(config) => config.Valid() && after == Register(s, config, e.now)
    case Restart => after == Recover(s, e.now)
    case Claim(picked) => Claimed(s, e.now, picked, after)
    case Finish(result, config, stored) => config.Valid() && after == Complete(s, result, config, e.now, stored)
  }

  const EMPTY := Jobs(map[], None)

  ghost predicate IsRun(states: seq<Jobs>, run: seq<Event>) {
    && |states| == |run| + 1
    && states[0] == EMPTY
    && (forall i :: 0 <= i < |run| ==> Next(states[i], run[i], states[i + 1]))
    && (forall i, j :: 0 <= i <= j < |run| ==> run[i].now <= run[j].now)
  }

  // ----- at most one job runs -----

  /**
   * At most one row is marked running, and it is the executing one when there is one.  The first
   * registration inserts every kind.
   */
  ghost predicate Exclusive(s: Jobs) {
    && (s.table.Keys == {} || s.table.Keys == KINDS)
    && (forall a, b :: a in s.table && b in s.table && s.table[a].status == s.table[b].status == Running ==> a == b)
    && (s.holding.Some? ==> s.holding.value in s.table && s.table[s.holding.value].status == Running)
  }

  lemma NoneRunning(table: map<JobKind, Job>, now: int)
    ensures Released(table, now).Keys == table.Keys
    ensures forall kind :: kind in table ==> Released(table, now)[kind].status != Running
  {
  }

  lemma ClaimKeepsExclusive(s: Jobs, now: int, picked: Option<JobKind>, after: Jobs)
    requires Exclusive(s) && Claimed(s, now, picked, after)
    ensures Exclusive(after)
  {
    hide Picks, Released;
    NoneRunning(s.table, now);
  }

  lemma NextKeepsExclusive(s: Jobs, e: Event, after: Jobs)
    requires Exclusive(s) && Next(s, e, after)
    ensures Exclusive(after)
  {
    hide Exclusive, Register, Recover, Claimed, Complete;
    match e.step
    case Configure(config) => RegisterKeepsExclusive(s, config, e.now);
    case Restart => RecoverKeepsExclusive(s, e.now);
    case Claim(picked) => ClaimKeepsExclusive(s, e.now, picked, after);
    case Finish(result, config, stored) => CompleteKeepsExclusive(s, result, config, e.now, stored);
  }

  lemma RegisterKeepsExclusive(s: Jobs, config: MaintenanceConfig, now: int)
    requires Exclusive(s)
    ensures Exclusive(Register(s, config, now))
  {
    hide Interval;
  }

  lemma RecoverKeepsExclusive(s: Jobs, now: int)
    requires Exclusive(s)
    ensures Exclusive(Recover(s, now))
  {
  }

  lemma CompleteKeepsExclusive(s: Jobs, result: Result, config: MaintenanceConfig, now: int, stored: bool)
    requires Exclusive(s)
    ensures Exclusive(Complete(s, result, config, now, stored))
  {
    hide Delay;
  }

  /** In every reachable state, crashes and lost completions included, at most one job is running. */
  lemma {:induction false} AtMostOneRunning(states: seq<Jobs>, run: seq<Event>, i: nat)
    requires IsRun(states, run) && i <= |run|
    ensures Exclusive(states[i])
  {
    hide Next;
    if i > 0 {
      AtMostOneRunning(states, run, i - 1);
      NextKeepsExclusive(states[i - 1], run[i - 1], states[i]);
    }
  }

  // ----- no due job waits long -----

  lemma RanksDiffer(a: JobKind, b: JobKind)
    ensures Rank(a) == Rank(b) ==> a == b
  {
  }

  /** Waiting: due at `since` and not running. */
  predicate Waiting(s: Jobs, kind: JobKind, since: int) {
    Due(s.table, kind, since) && s.table[kind].status != Running
  }

  /** The jobs that would be picked before `kind`. */
  function Ahead(table: map<JobKind, Job>, kind: JobKind): set<JobKind>
    requires kind in table
  {
    set other | other in table && other != kind && table[other].status != Running && Sooner(table, other, kind)
  }

  lemma AtMostFiveAhead(table: map<JobKind, Job>, kind: JobKind)
    requires kind in table
    ensures |Ahead(table, kind)| <= 5
  {
    var others := KINDS - {kind};
    assert |others| == 5;
    forall other | other in Ahead(table, kind)
      ensures other in others
    {
      assert other in KINDS;
    }
    SmallerSubset(Ahead(table, kind), others);
  }

  lemma IntervalPositive(kind: JobKind, config: MaintenanceConfig)
    requires config.Valid()
    ensures Interval(kind, config) >= 1000
  {
  }

  lemma {:induction false} PowerGrows(m: nat, n: nat)
    requires m <= n
    ensures Power(m) <= Power(n)
    decreases n
  {
    if m < n {
      PowerGrows(m, n - 1);
    }
  }

  /**
   * Retries wait between five seconds and just under 43 minutes, longer after more failures; the hour
   * cap is never reached.
   */
  lemma BackoffBounds(m: nat, n: nat)
    requires m <= n
    ensures 5000 <= Backoff(m) <= Backoff(n) <= 2_560_000
    ensures Backoff(n) == 5000 * Power(Min(n, 9))
  {
    PowerGrows(Min(m, 9), Min(n, 9));
    PowerGrows(Min(n, 9), 9);
    PowerOfNine();
  }

  lemma PowerOfNine()
    ensures Power(9) == 512
  {
    assert Power(3) == 8;
    assert Power(6) == 64;
  }

  lemma DelayPositive(job: Job, kind: JobKind, result: Result, config: MaintenanceConfig)
    requires config.Valid()
    ensures Delay(job, kind, result, config) >= 1000
  {
    IntervalPositive(kind, config);
    BackoffBounds(job.failures, job.failures);
  }

  /** A step that is not a claim of `kind` nor a restart leaves it waiting, with no job newly ahead. */
  lemma StillWaiting(s: Jobs, e: Event, after: Jobs, kind: JobKind, since: int)
    requires Exclusive(s) && Next(s, e, after) && Waiting(s, kind, since) && since <= e.now
    requires e.step != Restart && e.step != Claim(Some(kind))
    ensures Waiting(after, kind, since) && Ahead(after.table, kind) <= Ahead(s.table, kind)
    ensures e.step.Claim? && e.step.picked.Some? ==>
      e.step.picked.value in Ahead(s.table, kind) && e.step.picked.value !in Ahead(after.table, kind)
  {
    hide Rank, Interval, Delay;
    match e.step
    case Configure(config) => ConfigureKeepsOrder(s, config, e.now, kind, since);
    case Claim(picked) => ClaimKeepsOrder(s, e.now, picked, after, kind, since);
    case Finish(result, config, stored) => FinishKeepsOrder(s, result, config, e.now, stored, kind, since);
  }

  lemma ConfigureKeepsOrder(s: Jobs, config: MaintenanceConfig, now: int, kind: JobKind, since: int)
    requires s.table.Keys == KINDS && Waiting(s, kind, since) && since <= now && config.Valid()
    ensures var after := Register(s, config, now);
      Waiting(after, kind, since) && Ahead(after.table, kind) <= Ahead(s.table, kind)
  {
    hide Rank, Interval;
    var after := Register(s, config, now);
    IntervalPositive(kind, config);
    assert kind in KINDS;
    forall other | other in Ahead(after.table, kind)
      ensures other in Ahead(s.table, kind)
    {
      IntervalPositive(other, config);
    }
  }

  lemma ClaimKeepsOrder(s: Jobs, now: int, picked: Option<JobKind>, after: Jobs, kind: JobKind, since: int)
    requires Claimed(s, now, picked, after) && Waiting(s, kind, since) && since <= now && picked != Some(kind)
    ensures Waiting(after, kind, since) && Ahead(after.table, kind) <= Ahead(s.table, kind)
    ensures picked.Some? ==> picked.value in Ahead(s.table, kind) && picked.value !in Ahead(after.table, kind)
  {
    hide Rank, Picks;
    if s.holding.None? {
      var table := Released(s.table, now);
      assert Due(table, kind, now);
      if picked.Some? {
        PickedIsSooner(table, now, picked.value, kind);
      }
    }
  }

  lemma PickedIsSooner(table: map<JobKind, Job>, now: int, picked: JobKind, kind: JobKind)
    requires Picks(table, now, Some(picked)) && Due(table, kind, now) && picked != kind
    ensures picked in table && Sooner(table, picked, kind) && table[picked].nextRun <= now
  {
  }

  lemma FinishKeepsOrder(
    s: Jobs, result: Result, config: MaintenanceConfig, now: int, stored: bool, kind: JobKind, since: int)
    requires Exclusive(s) && config.Valid() && Waiting(s, kind, since) && since <= now
    ensures var after := Complete(s, result, config, now, stored);
      Waiting(after, kind, since) && Ahead(after.table, kind) <= Ahead(s.table, kind)
  {
    hide Rank, Finished;
    if s.holding.Some? && stored {
      FinishedLater(s.table[s.holding.value], s.holding.value, result, config, now);
    }
  }

  lemma FinishedLater(job: Job, kind: JobKind, result: Result, config: MaintenanceConfig, now: int)
    requires config.Valid()
    ensures var after := Finished(job, kind, result, config, now);
      after.nextRun > now && after.status != Running
  {
    hide Delay;
    DelayPositive(job, kind, result, config);
  }

  /** How many jobs other than `kind` are claimed in steps `i` to `m`. */
  ghost function OtherClaims(run: seq<Event>, kind: JobKind, i: nat, m: nat): nat
    requires i <= m <= |run|
  {
    if i == m then 0
    else
      var step := run[m - 1].step;
      OtherClaims(run, kind, i, m - 1)
      + if step.Claim? && step.picked.Some? && step.picked.value != kind then 1 else 0
  }

  /** As long as a waiting job is not claimed, each claim of another job takes one from ahead of it. */
  lemma {:induction false} WaitsBehind(states: seq<Jobs>, run: seq<Event>, kind: JobKind, i: nat, m: nat, since: int)
    requires IsRun(states, run) && i <= m <= |run| && Waiting(states[i], kind, since)
    requires i < |run| ==> since <= run[i].now
    requires forall k :: i <= k < m ==> run[k].step != Restart && run[k].step != Claim(Some(kind))
    ensures Waiting(states[m], kind, since)
    ensures OtherClaims(run, kind, i, m) + |Ahead(states[m].table, kind)| <= |Ahead(states[i].table, kind)|
  {
    hide Next, Ahead, Exclusive;
    if i < m {
      WaitsBehind(states, run, kind, i, m - 1, since);
      AtMostOneRunning(states, run, m - 1);
      assert run[i].now <= run[m - 1].now;
      StillWaiting(states[m - 1], run[m - 1], states[m], kind, since);
      var before, after := Ahead(states[m - 1].table, kind), Ahead(states[m].table, kind);
      SmallerSubset(after, before);
    }
  }

  /**
   * No starvation: without a restart in between, a due job is claimed after at most five claims
   * of other jobs.
   */
  lemma ClaimedAfterFive(states: seq<Jobs>, run: seq<Event>, kind: JobKind, i: nat, m: nat, since: int)
    requires IsRun(states, run) && i <= m <= |run| && Waiting(states[i], kind, since)
    requires i < |run| ==> since <= run[i].now
    requires forall k :: i <= k < m ==> run[k].step != Restart
    requires OtherClaims(run, kind, i, m) > 5
    ensures exists k :: i <= k < m && run[k].step == Claim(Some(kind))
  {
    if forall k :: i <= k < m ==> run[k].step != Claim(Some(kind)) {
      WaitsBehind(states, run, kind, i, m, since);
      AtMostFiveAhead(states[i].table, kind);
    }
  }

  /** While a job waits, a claim with the permit free always claims some job. */
  lemma SomethingIsClaimed(s: Jobs, now: int, picked: Option<JobKind>, after: Jobs, kind: JobKind, since: int)
    requires Claimed(s, now, picked, after) && s.holding.None? && Waiting(s, kind, since) && since <= now
    ensures picked.Some?
  {
    assert Due(Released(s.table, now), kind, now);
  }

  /** The jobs in the text order of their ids. */
  const BY_ID := [Rollup, JobHistory, Optimize, Retention, Reclaim, Checkpoint]

  lemma FirstLetters()
    ensures Rank(Rollup) < Rank(JobHistory) < Rank(Optimize) < Rank(Retention) < Rank(Reclaim) < Rank(Checkpoint)
  {
  }

  lemma RanksById(i: nat, j: nat)
    requires i < j < 6
    ensures Rank(BY_ID[i]) < Rank(BY_ID[j])
  {
    hide Rank;
    FirstLetters();
    assert i == 0 || i == 1 || i == 2 || i == 3 || i == 4;
    assert j == 1 || j == 2 || j == 3 || j == 4 || j == 5;
  }

  /** A claim picks a job that is due before any other, and among those due at the same time the first by id. */
  lemma EarliestIsClaimed(s: Jobs, now: int, picked: JobKind, after: Jobs, i: nat, j: nat)
    requires Claimed(s, now, Some(picked), after) && i < 6 && j < 6 && BY_ID[i] == picked != BY_ID[j]
    requires BY_ID[j] in after.table && after.table[BY_ID[j]].nextRun <= now
    ensures picked in after.table && after.table[picked].nextRun <= now
    ensures
      || after.table[picked].nextRun < after.table[BY_ID[j]].nextRun
      || (after.table[picked].nextRun == after.table[BY_ID[j]].nextRun && i < j)
  {
    hide Rank;
    var other := BY_ID[j];
    var table := Released(s.table, now);
    assert Due(table, other, now);
    assert Sooner(table, picked, other);
    if j < i {
      RanksById(j, i);
    }
  }

  // ----- what the rows say of the run -----

  /** Who executes after a step: the job claimed last, until it completes or the process is restarted. */
  function ExecutingAfter(executing: Option<JobKind>, step: Step): Option<JobKind> {
    match step
    case Configure(_) => executing
    case Restart => None
    case Claim(picked) => if executing.Some? then executing else picked
    case Finish(_, _, _) => None
  }

  /**
   * What a run has seen of one job: the attempts that failed since one succeeded, how the last one ended,
   * if it did, and when it was started and succeeded last.  A job that runs although none executes has
   * lost its completion, which the next claim finds out.
   */
  datatype Seen = Seen(failed: nat, status: Status, started: Option<int>, succeeded: Option<int>)

  const UNSEEN := Seen(0, Pending, None, None)

  function SeenAfter(seen: Seen, executing: Option<JobKind>, e: Event, kind: JobKind): Seen {
    match e.step
    case Configure(_) => seen
    case Restart => if seen.status == Running then seen.(status := Interrupted) else seen
    case Claim(picked) =>
      if executing.Some? then seen
      else
        var found := if seen.status == Running then seen.(failed := seen.failed + 1, status := Errored) else seen;
        if picked == Some(kind) then found.(status := Running, started := Some(e.now)) else found
    case Finish(result, _, stored) =>
      if executing != Some(kind) || !stored then seen
      else if result.Ok? then seen.(failed := 0, status := Succeeded, succeeded := Some(e.now))
      else seen.(failed := seen.failed + 1, status := Errored)
  }

  function Executing(run: seq<Event>): Option<JobKind> {
    if run == [] then None else ExecutingAfter(Executing(run[..|run| - 1]), run[|run| - 1].step)
  }

  function SeenOf(run: seq<Event>, kind: JobKind): Seen {
    if run == [] then UNSEEN
    else
      var earlier := run[..|run| - 1];
      SeenAfter(SeenOf(earlier, kind), Executing(earlier), run[|run| - 1], kind)
  }

  /** The row tells what was seen; a job that was never registered was never seen. */
  predicate Tells(s: Jobs, seen: Seen, kind: JobKind) {
    && (s.holding == Some(kind) ==> seen.status == Running)
    && if kind in s.table then
         && s.table[kind].failures == seen.failed && s.table[kind].status == seen.status
         && s.table[kind].lastStarted == seen.started && s.table[kind].lastSuccess == seen.succeeded
       else
         seen == UNSEEN
  }

  lemma ClaimTells(s: Jobs, seen: Seen, now: int, picked: Option<JobKind>, after: Jobs, kind: JobKind)
    requires Tells(s, seen, kind) && Claimed(s, now, picked, after)
    ensures after.holding == ExecutingAfter(s.holding, Claim(picked))
    ensures Tells(after, SeenAfter(seen, s.holding, Event(Claim(picked), now), kind), kind)
  {
    hide Picks;
  }

  lemma RegisterTells(s: Jobs, seen: Seen, config: MaintenanceConfig, now: int, kind: JobKind)
    requires Tells(s, seen, kind) && (s.holding.Some? ==> s.holding.value in s.table)
    ensures Tells(Register(s, config, now), seen, kind)
  {
    hide Interval;
    assert kind in KINDS;
  }

  lemma RecoverTells(s: Jobs, seen: Seen, now: int, kind: JobKind)
    requires Tells(s, seen, kind)
    ensures Tells(Recover(s, now), SeenAfter(seen, s.holding, Event(Restart, now), kind), kind)
  {
  }

  lemma CompleteTells(
    s: Jobs, seen: Seen, result: Result, config: MaintenanceConfig, now: int, stored: bool, kind: JobKind)
    requires Tells(s, seen, kind) && (s.holding.Some? ==> s.holding.value in s.table)
    ensures var after := Complete(s, result, config, now, stored);
      && after.holding == None
      && Tells(after, SeenAfter(seen, s.holding, Event(Finish(result, config, stored), now), kind), kind)
  {
    hide Delay;
  }

  lemma NextTells(s: Jobs, seen: Seen, e: Event, after: Jobs, kind: JobKind)
    requires Tells(s, seen, kind) && Next(s, e, after) && (s.holding.Some? ==> s.holding.value in s.table)
    ensures after.holding == ExecutingAfter(s.holding, e.step)
    ensures Tells(after, SeenAfter(seen, s.holding, e, kind), kind)
  {
    hide Tells, Register, Recover, Claimed, Complete;
    match e.step
    case Configure(config) =>
      RegisterTells(s, seen, config, e.now, kind);
      HoldersKept(s, config, e.now);
    case Restart =>
      RecoverTells(s, seen, e.now, kind);
      HoldersKept(s, MaintenanceConfig(0, 0, 0, 0), e.now);
    case Claim(picked) => ClaimTells(s, seen, e.now, picked, after, kind);
    case Finish(result, config, stored) => CompleteTells(s, seen, result, config, e.now, stored, kind);
  }

  lemma HoldersKept(s: Jobs, config: MaintenanceConfig, now: int)
    ensures Register(s, config, now).holding == s.holding && Recover(s, now).holding == None
  {
    hide Registered;
  }

  /**
   * In every reachable state each row tells what the run has seen of its job: how often it failed since
   * it last succeeded, lost completions included, how it ended, and when it was started and succeeded last.
   */
  lemma {:induction false} RowsTellTheRun(states: seq<Jobs>, run: seq<Event>, i: nat, kind: JobKind)
    requires IsRun(states, run) && i <= |run|
    ensures states[i].holding == Executing(run[..i]) && Tells(states[i], SeenOf(run[..i], kind), kind)
  {
    hide Next, Tells, SeenAfter, ExecutingAfter;
    if i == 0 {
      NothingSeen(kind);
    } else {
      AtMostOneRunning(states, run, i - 1);
      RowsTellTheRun(states, run, i - 1, kind);
      assert run[..i][..i - 1] == run[..i - 1];
      NextTells(states[i - 1], SeenOf(run[..i - 1], kind), run[i - 1], states[i], kind);
    }
  }

  lemma NothingSeen(kind: JobKind)
    ensures EMPTY.holding == Executing([]) && Tells(EMPTY, SeenOf([], kind), kind)
  {
  }

  /** How long a job waits after it has done all it could, in milliseconds. */
  predicate Waits(kind: JobKind, config: MaintenanceConfig, ms: int) {
    && (kind == Rollup ==> ms == config.rollupInterval) && (kind == Retention ==> ms == config.retentionInterval)
    && (kind == Reclaim ==> ms == config.reclaimInterval) && (kind == Optimize ==> ms == config.optimizeInterval)
    && (kind == Checkpoint ==> ms == 5 * 60 * 1000) && (kind == JobHistory ==> ms == 24 * 60 * 60 * 1000)
  }

  /** After so many failures in a row before this one. */
  const RETRIES := [5, 10, 20, 40, 80, 160, 320, 640, 1280, 2560]

  lemma RetryDelay(failures: nat)
    ensures Backoff(failures) == RETRIES[Min(failures, 9)] * 1000
  {
    PowerOfNine();
    var n := Min(failures, 9);
    assert Power(2) == 4 && Power(4) == 16 && Power(5) == 32;
    assert Power(7) == 128 && Power(8) == 256;
    assert n == 0 || n == 1 || n == 2 || n == 3 || n == 4 || n == 5 || n == 6 || n == 7 || n == 8 || n == 9;
  }

  /**
   * When a job is due next, after it was due at `due` and the run had seen `seen` of it.  A success with
   * more to do is followed up after a second, any other success after the configured interval, and a
   * failure after five seconds, doubled for each failure before it since the last success, nine times at
   * most; what a restart interrupts is due at once, and what lost its completion five seconds after a
   * claim finds out.  Reconfiguring can only bring a job forward.
   */
  ghost predicate DueNext(
    e: Event, kind: JobKind, executing: Option<JobKind>, seen: Seen, due: Option<int>, next: int)
  {
    match e.step
    case Configure(config) =>
      if due == None then next == e.now
      else
        && next <= due.value && (next == due.value || Waits(kind, config, next - e.now))
        && forall ms :: Waits(kind, config, ms) ==> next <= e.now + ms
    case Restart => Some(next) == if seen.status == Running then Some(e.now) else due
    case Claim(_) =>
      Some(next) == if executing == None && seen.status == Running then Some(e.now + 5000) else due
    case Finish(result, config, stored) =>
      if executing != Some(kind) || !stored then Some(next) == due
      else match result
      case Ok(true) => next == e.now + 1000
      case Ok(false) => Waits(kind, config, next - e.now)
      case Failure => next == e.now + RETRIES[Min(seen.failed, 9)] * 1000
  }

  function DueAt(s: Jobs, kind: JobKind): Option<int> {
    if kind in s.table then Some(s.table[kind].nextRun) else None
  }

  lemma ConfigureSchedules(s: Jobs, seen: Seen, config: MaintenanceConfig, now: int, kind: JobKind)
    ensures kind in Register(s, config, now).table
    ensures DueNext(Event(Configure(config), now), kind, s.holding, seen, DueAt(s, kind),
                    Register(s, config, now).table[kind].nextRun)
  {
    assert kind in KINDS;
    assert Waits(kind, config, Interval(kind, config));
    hide Interval;
  }

  lemma FinishSchedules(
    s: Jobs, seen: Seen, result: Result, config: MaintenanceConfig, now: int, stored: bool, kind: JobKind)
    requires Tells(s, seen, kind) && kind in s.table && (s.holding.Some? ==> s.holding.value in s.table)
    ensures var e, after := Event(Finish(result, config, stored), now), Complete(s, result, config, now, stored);
      kind in after.table && DueNext(e, kind, s.holding, seen, DueAt(s, kind), after.table[kind].nextRun)
  {
    RetryDelay(seen.failed);
    hide Backoff;
  }

  lemma ClaimSchedules(s: Jobs, seen: Seen, now: int, picked: Option<JobKind>, after: Jobs, kind: JobKind)
    requires Tells(s, seen, kind) && kind in s.table && Claimed(s, now, picked, after)
    ensures kind in after.table
    ensures DueNext(Event(Claim(picked), now), kind, s.holding, seen, DueAt(s, kind), after.table[kind].nextRun)
  {
    hide Picks;
  }

  /** When every job is due next, at every step of every run. */
  lemma StepSchedules(states: seq<Jobs>, run: seq<Event>, i: nat, kind: JobKind)
    requires IsRun(states, run) && i < |run| && kind in states[i + 1].table
    ensures DueNext(run[i], kind, Executing(run[..i]), SeenOf(run[..i], kind), DueAt(states[i], kind),
                    states[i + 1].table[kind].nextRun)
  {
    hide Tells, SeenOf, Executing, Claimed, Complete, Register, DueNext;
    RowsTellTheRun(states, run, i, kind);
    AtMostOneRunning(states, run, i);
    var s, e, seen := states[i], run[i], SeenOf(run[..i], kind);
    assert Next(s, e, states[i + 1]);
    if !e.step.Configure? {
      KindsKept(s, e, states[i + 1], kind);
    }
    match e.step
    case Configure(config) => ConfigureSchedules(s, seen, config, e.now, kind);
    case Restart => RestartSchedules(s, seen, e.now, kind);
    case Claim(picked) => ClaimSchedules(s, seen, e.now, picked, states[i + 1], kind);
    case Finish(result, config, stored) => FinishSchedules(s, seen, result, config, e.now, stored, kind);
  }

  lemma RestartSchedules(s: Jobs, seen: Seen, now: int, kind: JobKind)
    requires Tells(s, seen, kind) && kind in s.table
    ensures kind in Recover(s, now).table
    ensures DueNext(Event(Restart, now), kind, s.holding, seen, DueAt(s, kind), Recover(s, now).table[kind].nextRun)
  {
  }

  /** Only registering adds rows. */
  lemma KindsKept(s: Jobs, e: Event, after: Jobs, kind: JobKind)
    requires Next(s, e, after) && kind in after.table && !e.step.Configure?
    ensures kind in s.table
  {
    hide Picks, Finished;
  }
}
