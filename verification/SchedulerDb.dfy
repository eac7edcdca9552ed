/** The maintenance job table as the program updates it (src/storage/sqlite/jobs.rs). */
module SchedulerDb {
  import opened Prelude
  import opened Scheduler

  class Maintenance {
    var table: map<JobKind, Job>
    // Who has the maintenance permit; in memory only.
    var holding: Option<JobKind>

    ghost function State(): (s: Jobs)
      reads this
      ensures s.table == table && s.holding == holding
    {
      Jobs(table, holding)
    }

    constructor ()
      ensures State() == EMPTY
    {
      table, holding := map[], None;
    }

    /** Insert the jobs that are missing; bring the others forward if their interval got shorter. */
    method RegisterJobs(config: MaintenanceConfig, now: int)
      modifies `table
      ensures State() == Register(old(State()), config, now)
    {
      hide Registered, Id;
      for i := 0 to |ALL|
        invariant table == (map kind | kind in old(table).Keys + Listed(i) ::
          if kind in Listed(i) then Registered(RowOf(old(table), kind), kind, config, now) else old(table)[kind])
      {
        var kind := ALL[i];
        ListedNext(i);
        RegisterJob(kind, config, now);
      }
      ListedAll();
    }

    method RegisterJob(kind: JobKind, config: MaintenanceConfig, now: int)
      modifies `table
      ensures table == old(table)[kind := Registered(RowOf(old(table), kind), kind, config, now)]
    {
      if kind in table {
        var job := table[kind];
        table := table[kind := job.(nextRun := Min(job.nextRun, now + Interval(kind, config)))];
      } else {
        table := table[kind := Job(Pending, now, 0, None, None)];
      }
    }

    method RecoverMaintenance(now: int)
      modifies this
      ensures State() == Recover(old(State()), now)
    {
      table := map kind | kind in table ::
        if table[kind].status == Running then table[kind].(status := Interrupted, nextRun := now) else table[kind];
      holding := None;
    }

    /** The due job with the smallest next run, ties broken by id. */
    method NextDue(now: int) returns (picked: Option<JobKind>)
      ensures Picks(table, now, picked)
    {
      hide Id, Rank;
      picked := None;
      var rest := table.Keys;
      while rest != {}
        invariant rest <= table.Keys
        invariant picked.None? ==> forall kind :: Due(table, kind, now) ==> kind in rest
        invariant picked.Some? ==> Due(table, picked.value, now) && picked.value !in rest
        invariant picked.Some? ==> forall kind :: Due(table, kind, now) && kind !in rest && kind != picked.value ==>
          Sooner(table, picked.value, kind)
        decreases rest
      {
        ghost var some := Member(rest);
        var kind: JobKind :| kind in rest;
        rest := rest - {kind};
        if table[kind].nextRun <= now {
          if picked.Some? {
            RanksDiffer(kind, picked.value);
          }
          if picked.None? || Sooner(table, kind, picked.value) {
            picked := Some(kind);
          }
        }
      }
    }

    /** Claim one due job, unless another is executing. */
    method ClaimDue(now: int) returns (picked: Option<JobKind>)
      modifies this
      ensures Claimed(old(State()), now, picked, State())
    {
      hide Picks;
      if holding.Some? {
        return None;
      }
      var running := exists kind :: kind in table && table[kind].status == Running;
      if running {
        table := map kind | kind in table ::
          if table[kind].status == Running
          then table[kind].(status := Errored, failures := table[kind].failures + 1, nextRun := now + 5000)
          else table[kind];
      }
      assert table == Released(old(table), now);
      picked := NextDue(now);
      if picked.Some? {
        PickedIsRow(table, now, picked.value);
        table := table[picked.value := table[picked.value].(status := Running, lastStarted := Some(now))];
        holding := picked;
      }
    }

    /** Store the outcome of the executing job; `stored` says whether that transaction succeeds. */
    method CompleteJob(result: Result, config: MaintenanceConfig, now: int, stored: bool)
      modifies this
      ensures State() == Complete(old(State()), result, config, now, stored)
    {
      hide Backoff, Interval;
      if holding.None? || holding.value !in table {
        return;
      }
      var kind := holding.value;
      var job := table[kind];
      var delay;
      match result {
        case Ok(more) =>
          delay := if more then 1000 else Interval(kind, config);
          job := job.(status := Succeeded, failures := 0, lastSuccess := Some(now), nextRun := now + delay);
        case Failure =>
          delay := Backoff(job.failures);
          job := job.(status := Errored, failures := job.failures + 1, nextRun := now + delay);
      }
      if stored {
        table := table[kind := job];
      }
      holding := None;
    }
  }

  lemma PickedIsRow(table: map<JobKind, Job>, now: int, kind: JobKind)
    requires Picks(table, now, Some(kind))
    ensures kind in table
  {
  }

  function Listed(n: nat): set<JobKind> {
    set i | 0 <= i < n && i < |ALL| :: ALL[i]
  }

  lemma ListedNext(i: nat)
    requires i < |ALL|
    ensures Listed(i + 1) == Listed(i) + {ALL[i]} && ALL[i] !in Listed(i)
  {
  }

  lemma ListedAll()
    ensures Listed(|ALL|) == KINDS && forall kind: JobKind :: kind in KINDS
  {
    forall kind: JobKind
      ensures kind in KINDS
    {
      EveryKind(kind);
    }
    assert ALL[0] == Rollup && ALL[1] == Retention && ALL[2] == Reclaim;
    assert ALL[3] == Optimize && ALL[4] == Checkpoint && ALL[5] == JobHistory;
  }

  lemma EveryKind(kind: JobKind)
    ensures kind in KINDS
  {
    assert kind.Rollup? || kind.Retention? || kind.Reclaim? || kind.Optimize? || kind.Checkpoint? || kind.JobHistory?;
  }
}
