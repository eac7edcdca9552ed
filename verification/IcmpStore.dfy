/**
 * Storing ICMP checks under retries and reloads (src/modules/runner.rs, `update_check_result` and
 * `insert_transition` in src/storage/sqlite/).
 */
module IcmpStore {
  import opened Prelude
  import opened Icmp
  import Runner

  // ----- the table of transitions -----

  /** A transition already in the table is not inserted again. */
  predicate Exists(rows: seq<Transition>, t: Transition) {
    exists i :: 0 <= i < |rows| && rows[i].at == t.at && rows[i].previous == t.previous && rows[i].next == t.next
  }

  function Inserted(rows: seq<Transition>, t: Option<Transition>): seq<Transition> {
    if t.None? || Exists(rows, t.value) then rows else rows + [t.value]
  }

  function AsList(t: Option<Transition>): seq<Transition> {
    if t.Some? then [t.value] else []
  }

  /** `n` rows from before the cutoff are deleted, whichever they are. */
  ghost predicate Deletes(rows: seq<Transition>, left: seq<Transition>, cutoff: int, n: nat) {
    if n == 0 then left == rows
    else exists i :: 0 <= i < |rows| && rows[i].at < cutoff && Deletes(rows[..i] + rows[i + 1..], left, cutoff, n - 1)
  }

  ghost predicate Ascending(transitions: seq<Transition>) {
    forall i, j :: 0 <= i < j < |transitions| ==> transitions[i].at < transitions[j].at
  }

  ghost predicate Since(transitions: seq<Transition>, rows: seq<Transition>, floor: int) {
    forall t :: t in transitions && floor <= t.at ==> t in rows
  }

  /** A new transition, later than all, goes last. */
  lemma RowAdded(rows: seq<Transition>, transitions: seq<Transition>, t: Transition)
    requires Ascending(transitions) && Ascending(rows) && forall x :: x in rows ==> x in transitions
    requires forall i :: 0 <= i < |transitions| ==> transitions[i].at < t.at
    ensures Inserted(rows, Some(t)) == rows + [t]
    ensures Ascending(transitions + [t]) && Ascending(rows + [t])
    ensures forall x :: x in rows + [t] ==> x in transitions + [t]
  {
    forall i | 0 <= i < |rows|
      ensures rows[i].at < t.at
    {
      assert rows[i] in rows && rows[i] in transitions;
    }
  }

  lemma NothingInserted(rows: seq<Transition>)
    ensures Inserted(rows, None) == rows
  {
  }

  /** Inserting the last stored transition again puts it back if it was deleted, and does nothing else. */
  lemma RowAgain(rows: seq<Transition>, transitions: seq<Transition>, t: Transition)
    requires Ascending(transitions) && Ascending(rows) && forall x :: x in rows ==> x in transitions
    requires transitions != [] && transitions[|transitions| - 1] == t
    ensures Inserted(rows, Some(t)) == if t in rows then rows else rows + [t]
    ensures Ascending(Inserted(rows, Some(t)))
  {
    forall i | 0 <= i < |rows|
      ensures rows[i].at < t.at || rows[i] == t
    {
      assert rows[i] in transitions;
      var j :| 0 <= j < |transitions| && transitions[j] == rows[i];
    }
  }

  lemma WithoutRow(rows: seq<Transition>, i: nat)
    requires i < |rows| && Ascending(rows)
    ensures var rest := rows[..i] + rows[i + 1..];
      && Ascending(rest)
      && (forall t :: t in rest ==> t in rows)
      && (forall t :: t in rows && t != rows[i] ==> t in rest)
  {
    assert rows == rows[..i] + [rows[i]] + rows[i + 1..];
  }

  lemma NoDeletion(rows: seq<Transition>, left: seq<Transition>, cutoff: int)
    requires Deletes(rows, left, cutoff, 0)
    ensures left == rows
  {
  }

  lemma FirstDeletion(rows: seq<Transition>, left: seq<Transition>, cutoff: int, n: nat) returns (i: nat)
    requires Deletes(rows, left, cutoff, n) && n > 0
    ensures i < |rows| && rows[i].at < cutoff && Deletes(rows[..i] + rows[i + 1..], left, cutoff, n - 1)
  {
    i :| 0 <= i < |rows| && rows[i].at < cutoff && Deletes(rows[..i] + rows[i + 1..], left, cutoff, n - 1);
  }

  /** Deleting rows from before the cutoff. */
  lemma {:induction false} DeletesOld(rows: seq<Transition>, left: seq<Transition>, cutoff: int, n: nat)
    requires Deletes(rows, left, cutoff, n) && Ascending(rows)
    ensures Ascending(left) && Since(rows, left, cutoff) && forall t :: t in left ==> t in rows
    decreases n
  {
    hide Ascending, Deletes;
    if n == 0 {
      NoDeletion(rows, left, cutoff);
    } else {
      var i := FirstDeletion(rows, left, cutoff, n);
      WithoutRow(rows, i);
      DeletesOld(rows[..i] + rows[i + 1..], left, cutoff, n - 1);
    }
  }

  // ----- the tables of one host -----

  /**
   * One host's latest status and transition rows, and what was ever stored: every transition, `base`
   * of them before the host's identity was last replaced, and the checks since.  `floor` is up to
   * where transitions may have been deleted.
   */
  datatype Tables = Tables(
    latest: Option<RuntimeState>,
    rows: seq<Transition>,
    checks: seq<Check>,
    transitions: seq<Transition>,
    base: nat,
    floor: Option<int>)

  /** An observation on its way to the store; `landed` says whether some attempt has committed it. */
  datatype Pending = Pending(check: Check, observation: Observation, landed: bool)

  /** One committed write. */
  function Written(t: Tables, p: Pending): Tables {
    var o := p.observation;
    var rows := Inserted(t.rows, o.transition);
    if p.landed then t.(latest := Some(o.state), rows := rows)
    else
      t.(latest := Some(o.state), rows := rows,
         checks := t.checks + [p.check], transitions := t.transitions + AsList(o.transition))
  }

  /** The host id now means another address: the stored state is dropped. */
  function Replaced(t: Tables): Tables {
    t.(latest := None, checks := [], base := |t.transitions|)
  }

  ghost predicate Deleted(t: Tables, cutoff: int, n: nat, after: Tables) {
    && Deletes(t.rows, after.rows, cutoff, n)
    && after == t.(rows := after.rows, floor := Some(if t.floor.Some? then Max(t.floor.value, cutoff) else cutoff))
  }

  /** What was stored is the replay of the stored checks. */
  ghost predicate StoredOnce(t: Tables) {
    && t.base <= |t.transitions|
    && t.transitions[t.base..] == Replay(t.checks).1
    && t.latest == if t.checks == [] then None else Some(Replay(t.checks).0)
  }

  /** The table holds stored transitions, none twice and none from the floor on missing. */
  ghost predicate RowsOk(t: Tables) {
    && Ascending(t.transitions) && Ascending(t.rows)
    && (forall x :: x in t.rows ==> x in t.transitions)
    && (if t.floor.Some? then Since(t.transitions, t.rows, t.floor.value) else t.rows == t.transitions)
  }

  /** Everything stored is older than `at`. */
  ghost predicate Older(t: Tables, at: int) {
    && (forall i :: 0 <= i < |t.checks| ==> t.checks[i].at < at)
    && forall i :: 0 <= i < |t.transitions| ==> t.transitions[i].at < at
  }

  ghost predicate TablesOk(t: Tables) {
    StoredOnce(t) && RowsOk(t) && Increasing(t.checks)
  }

  /** The pending observation is the next check of the replay, or the last one if it has landed. */
  ghost predicate PendingOk(t: Tables, p: Pending) {
    if p.landed then
      && t.checks != [] && t.checks[|t.checks| - 1] == p.check
      && p.observation == CheckOnce(Replay(t.checks[..|t.checks| - 1]).0, p.check)
    else p.observation == CheckOnce(Replay(t.checks).0, p.check) && Older(t, p.check.at)
  }

  lemma FirstStored(t: Tables, p: Pending)
    requires StoredOnce(t) && PendingOk(t, p) && !p.landed
    ensures StoredOnce(Written(t, p)) && PendingOk(Written(t, p), p.(landed := true))
  {
    hide CheckOnce, Inserted, Older;
    var after := Written(t, p);
    ReplayNext(t.checks, p.check);
    assert (t.checks + [p.check])[..|t.checks|] == t.checks;
    assert after.transitions[after.base..] == t.transitions[t.base..] + AsList(p.observation.transition);
  }

  lemma FirstRow(t: Tables, p: Pending)
    requires RowsOk(t) && Older(t, p.check.at) && !p.landed
    requires p.observation.transition.Some? ==> p.observation.transition.value.at == p.check.at
    ensures RowsOk(Written(t, p))
  {
    hide CheckOnce, Ascending, Inserted;
    if p.observation.transition.Some? {
      RowAdded(t.rows, t.transitions, p.observation.transition.value);
    } else {
      assert t.transitions + [] == t.transitions;
      NothingInserted(t.rows);
    }
  }

  /** The first commit appends the check and its transition. */
  lemma FirstCommit(t: Tables, p: Pending)
    requires TablesOk(t) && PendingOk(t, p) && !p.landed
    ensures TablesOk(Written(t, p)) && PendingOk(Written(t, p), p.(landed := true))
  {
    hide CheckOnce, Replay, StoredOnce, RowsOk, Inserted;
    CheckChanges(Replay(t.checks).0, p.check);
    FirstStored(t, p);
    FirstRow(t, p);
  }

  /** The pending transition, once landed, is the last one ever stored. */
  lemma LandedIsLast(t: Tables, p: Pending)
    requires StoredOnce(t) && PendingOk(t, p) && p.landed
    ensures t.latest == Some(p.observation.state) && p.observation.state == Replay(t.checks).0
    ensures p.observation.transition.Some? ==>
      t.transitions != [] && t.transitions[|t.transitions| - 1] == p.observation.transition.value
  {
    hide CheckOnce;
    var o, before := p.observation, t.checks[..|t.checks| - 1];
    assert before + [p.check] == t.checks;
    ReplayNext(before, p.check);
    if o.transition.Some? {
      var replayed := Replay(t.checks).1;
      assert replayed[|replayed| - 1] == o.transition.value;
      assert t.transitions[t.base..][|replayed| - 1] == t.transitions[|t.transitions| - 1];
    }
  }

  /** Every further commit of the same observation changes nothing, but puts back its transition if that was deleted. */
  lemma LaterCommit(t: Tables, p: Pending)
    requires TablesOk(t) && PendingOk(t, p) && p.landed
    ensures var again, x := Written(t, p), p.observation.transition;
      && again == t.(rows := again.rows)
      && again.rows == (if x.None? || x.value in t.rows then t.rows else t.rows + [x.value])
      && (t.floor.None? ==> again == t)
      && TablesOk(again) && PendingOk(again, p)
  {
    hide CheckOnce, Replay, Ascending, Inserted, Increasing;
    LandedIsLast(t, p);
    if p.observation.transition.Some? {
      RowAgain(t.rows, t.transitions, p.observation.transition.value);
    } else {
      NothingInserted(t.rows);
    }
  }

  lemma CommitKeeps(t: Tables, p: Pending)
    requires TablesOk(t) && PendingOk(t, p)
    ensures TablesOk(Written(t, p)) && PendingOk(Written(t, p), p.(landed := true))
  {
    hide TablesOk, PendingOk, Written;
    if p.landed {
      LaterCommit(t, p);
    } else {
      FirstCommit(t, p);
    }
  }

  lemma DeletionKeeps(t: Tables, cutoff: int, n: nat, after: Tables)
    requires TablesOk(t) && Deleted(t, cutoff, n, after)
    ensures TablesOk(after)
  {
    hide Replay, Ascending, Increasing, Deletes;
    DeletesOld(t.rows, after.rows, cutoff, n);
  }

  // ----- jobs -----

  /** A job carries the generation it was started with. */
  datatype Job = Job(token: nat, state: RuntimeState, pending: Option<Pending>)

  /** Jobs from before a reload go on until they are turned away; `clock` is the time of the latest check. */
  datatype Monitor = Monitor(generation: nat, jobs: seq<Job>, tables: Tables, clock: int)

  datatype Step =
    | Start
    | Observe(job: nat, check: Check)
    | Attempt(job: nat, fate: Runner.Fate)
    | Reload(replaced: bool)
    | NewProcess(replaced: bool)
    | Delete(cutoff: int, n: nat)

  const FIRST := Monitor(0, [], Tables(None, [], [], [], 0, None), 0)

  /** A job starts from the stored state. */
  function Started(m: Monitor): Job {
    Job(m.generation, if m.tables.latest.Some? then m.tables.latest.value else FRESH, None)
  }

  function Observed(job: Job, c: Check): Job {
    var o := CheckOnce(job.state, c);
    job.(state := o.state, pending := Some(Pending(c, o, false)))
  }

  predicate Storing(m: Monitor, job: int) {
    0 <= job < |m.jobs| && m.jobs[job].pending.Some?
  }

  /** The attempt reaches the store and its generation is the current one. */
  predicate Admitted(m: Monitor, job: int, fate: Runner.Fate) {
    Storing(m, job) && fate != Runner.Lost && m.jobs[job].token == m.generation
  }

  /** One attempt: rolled back, turned away, or committed. */
  function Attempted(m: Monitor, job: int, fate: Runner.Fate): Monitor
    requires Storing(m, job)
  {
    var j := m.jobs[job];
    if fate == Runner.Lost then m
    else if j.token != m.generation then m.(jobs := m.jobs[job := j.(pending := None)])
    else
      var p := j.pending.value;
      var left := if fate == Runner.Acknowledged then None else Some(p.(landed := true));
      m.(jobs := m.jobs[job := j.(pending := left)], tables := Written(m.tables, p))
  }

  ghost predicate Next(m: Monitor, step: Step, after: Monitor) {
    match step
    case Start =>
      (forall i :: 0 <= i < |m.jobs| ==> m.jobs[i].token != m.generation) && after == m.(jobs := m.jobs + [Started(m)])
    case Observe(job, c) =>
      && job < |m.jobs| && m.jobs[job].pending.None? && c.at > m.clock
      && after == m.(jobs := m.jobs[job := Observed(m.jobs[job], c)], clock := c.at)
    case Attempt(job, fate) => Storing(m, job) && after == Attempted(m, job, fate)
    case Reload(replaced) =>
      after == m.(generation := m.generation + 1, tables := if replaced then Replaced(m.tables) else m.tables)
    case NewProcess(replaced) =>
      after == m.(generation := 0, jobs := [], tables := if replaced then Replaced(m.tables) else m.tables)
    case Delete(cutoff, n) => Deleted(m.tables, cutoff, n, after.tables) && after == m.(tables := after.tables)
  }

  ghost predicate IsRun(states: seq<Monitor>, run: seq<Step>) {
    && |states| == |run| + 1
    && states[0] == FIRST
    && forall i :: 0 <= i < |run| ==> Next(states[i], run[i], states[i + 1])
  }

  // ----- exactly once -----

  /** A job of the current generation goes on from what is stored. */
  ghost predicate JobOk(t: Tables, j: Job) {
    match j.pending
    case None => j.state == Replay(t.checks).0
    case Some(p) => j.state == p.observation.state && PendingOk(t, p)
  }

  ghost predicate JobsOk(m: Monitor) {
    && (forall i :: 0 <= i < |m.jobs| ==> m.jobs[i].token <= m.generation)
    && (forall i, j :: 0 <= i < |m.jobs| && 0 <= j < |m.jobs| && m.jobs[i].token == m.jobs[j].token == m.generation ==>
          i == j)
    && (forall i :: 0 <= i < |m.jobs| && m.jobs[i].token == m.generation ==> JobOk(m.tables, m.jobs[i]))
    && (forall i :: Storing(m, i) ==> m.jobs[i].pending.value.check.at <= m.clock)
  }

  ghost predicate Inv(m: Monitor) {
    TablesOk(m.tables) && Older(m.tables, m.clock + 1) && JobsOk(m)
  }

  lemma EmptyReplay()
    ensures Replay([]) == (FRESH, [])
  {
  }

  lemma StartKeeps(m: Monitor, after: Monitor)
    requires Inv(m) && Next(m, Start, after)
    ensures Inv(after)
  {
    hide Replay, RowsOk, Increasing, Older;
    EmptyReplay();
  }

  lemma ObserveKeeps(m: Monitor, job: nat, c: Check, after: Monitor)
    requires Inv(m) && Next(m, Observe(job, c), after)
    ensures Inv(after)
  {
    hide Replay, CheckOnce, StoredOnce, RowsOk, Increasing;
    assert Older(m.tables, c.at);
  }

  /** A commit of the current job leaves the tables and that job in order. */
  lemma AttemptKeeps(m: Monitor, job: nat, fate: Runner.Fate, after: Monitor)
    requires Inv(m) && Next(m, Attempt(job, fate), after)
    ensures Inv(after)
  {
    hide Replay, CheckOnce, TablesOk, PendingOk, Written, Older;
    if Admitted(m, job, fate) {
      var p := m.jobs[job].pending.value;
      assert JobOk(m.tables, m.jobs[job]);
      CommitKeeps(m.tables, p);
      WrittenOlder(m.tables, p, m.clock);
      LandedState(Written(m.tables, p), p.(landed := true));
    }
  }

  lemma WrittenOlder(t: Tables, p: Pending, clock: int)
    requires PendingOk(t, p) && Older(t, clock + 1) && p.check.at <= clock
    ensures Older(Written(t, p), clock + 1)
  {
    hide Replay, Inserted;
    if !p.landed {
      CheckChanges(Replay(t.checks).0, p.check);
    }
  }

  lemma LandedState(t: Tables, p: Pending)
    requires TablesOk(t) && PendingOk(t, p) && p.landed
    ensures p.observation.state == Replay(t.checks).0
  {
    hide PendingOk, StoredOnce, RowsOk, Replay;
    LandedIsLast(t, p);
  }

  /** Nothing from before a reload counts as current after it. */
  lemma ReplaceKeeps(t: Tables, clock: int)
    requires TablesOk(t) && Older(t, clock)
    ensures TablesOk(Replaced(t)) && Older(Replaced(t), clock)
  {
    EmptyReplay();
    hide Replay;
  }

  lemma DeleteKeeps(m: Monitor, cutoff: int, n: nat, after: Monitor)
    requires Inv(m) && Next(m, Delete(cutoff, n), after)
    ensures Inv(after)
  {
    hide Replay, CheckOnce, TablesOk, Deletes;
    DeletionKeeps(m.tables, cutoff, n, after.tables);
  }

  lemma NextKeepsInv(m: Monitor, step: Step, after: Monitor)
    requires Inv(m) && Next(m, step, after)
    ensures Inv(after)
  {
    match step
    case Start => StartKeeps(m, after);
    case Observe(job, c) => ObserveKeeps(m, job, c, after);
    case Attempt(job, fate) => AttemptKeeps(m, job, fate, after);
    case Delete(cutoff, n) => DeleteKeeps(m, cutoff, n, after);
    case _ =>
      hide Replay, TablesOk, Older, JobOk;
      ReplaceKeeps(m.tables, m.clock + 1);
  }

  lemma {:induction false} RunsKeepInv(states: seq<Monitor>, run: seq<Step>, i: nat)
    requires IsRun(states, run) && i <= |run|
    ensures Inv(states[i])
  {
    hide Inv, Next;
    if i == 0 {
      FirstInv();
    } else {
      RunsKeepInv(states, run, i - 1);
      NextKeepsInv(states[i - 1], run[i - 1], states[i]);
    }
  }

  lemma FirstInv()
    ensures Inv(FIRST)
  {
  }

  /**
   * Main result: however writes fail, or commit and are reported as failed, whenever the process
   * restarts or is reloaded with writes under way, and whichever old rows are deleted, the transitions
   * ever stored are those of the stored checks, each once, in an unbroken chain up to the stored
   * status; and the table holds exactly them, short of some that are older than a deletion's cutoff,
   * none of them twice.
   */
  lemma StoredChain(states: seq<Monitor>, run: seq<Step>, i: nat)
    requires IsRun(states, run) && i <= |run|
    ensures var t := states[i].tables;
      && t.base <= |t.transitions|
      && t.transitions[t.base..] == Replay(t.checks).1
      && IsChain(t.transitions[t.base..], if t.latest.Some? then t.latest.value.status else Unknown, states[i].clock)
      && Increasing(t.checks)
      && (t.floor.None? ==> t.rows == t.transitions)
      && (forall a, b :: 0 <= a < b < |t.rows| ==> t.rows[a].at < t.rows[b].at)
      && (forall x :: x in t.rows ==> x in t.transitions)
      && (forall x :: x in t.transitions && t.floor.Some? && t.floor.value <= x.at ==> x in t.rows)
  {
    hide Next, CheckOnce, IsChain, JobsOk;
    RunsKeepInv(states, run, i);
    ReplayIsChain(states[i].tables.checks, states[i].clock);
  }

  /** The floor is a cutoff some deletion used: without one from after `t`, `t` is still there. */
  lemma {:induction false} FloorIsCutoff(states: seq<Monitor>, run: seq<Step>, i: nat)
    requires IsRun(states, run) && i <= |run| && states[i].tables.floor.Some?
    ensures exists j, n :: 0 <= j < i && run[j] == Delete(states[i].tables.floor.value, n)
  {
    hide Inserted, CheckOnce, Deletes;
    assert i > 0;
    assert Next(states[i - 1], run[i - 1], states[i]);
    if states[i - 1].tables.floor == states[i].tables.floor {
      FloorIsCutoff(states, run, i - 1);
    } else {
      assert run[i - 1].Delete? && run[i - 1] == Delete(states[i].tables.floor.value, run[i - 1].n);
    }
  }

  /** A check whose storing has been reported successful was stored by the current generation. */
  lemma ReportedIsStored(m: Monitor, job: nat, after: Monitor)
    requires Inv(m) && Next(m, Attempt(job, Runner.Acknowledged), after) && m.jobs[job].token == m.generation
    ensures var t, p := after.tables, m.jobs[job].pending.value;
      && after.jobs[job].pending.None?
      && t.checks != [] && t.checks[|t.checks| - 1] == p.check && t.latest == Some(p.observation.state)
  {
    hide Replay, CheckOnce, StoredOnce, RowsOk, Inserted, Older;
    assert JobOk(m.tables, m.jobs[job]);
  }

  /**
   * The checks a run has stored since the host last got another address: each at the first attempt that
   * reached the store with the current generation.
   */
  ghost function StoredBy(states: seq<Monitor>, run: seq<Step>, n: nat): seq<Check>
    requires n <= |run| < |states|
  {
    if n == 0 then []
    else
      var earlier, m := StoredBy(states, run, n - 1), states[n - 1];
      match run[n - 1]
      case Attempt(job, fate) =>
        if Storing(m, job) && fate != Runner.Lost && m.jobs[job].token == m.generation
           && !m.jobs[job].pending.value.landed
        then earlier + [m.jobs[job].pending.value.check]
        else earlier
      case Reload(replaced) => if replaced then [] else earlier
      case NewProcess(replaced) => if replaced then [] else earlier
      case _ => earlier
  }

  lemma StepStores(m: Monitor, step: Step, after: Monitor)
    requires Next(m, step, after)
    ensures m.tables.transitions <= after.tables.transitions
    ensures after.tables.checks
      == match step
         case Attempt(job, fate) =>
           if Admitted(m, job, fate) && !m.jobs[job].pending.value.landed
           then m.tables.checks + [m.jobs[job].pending.value.check]
           else m.tables.checks
         case Reload(replaced) => if replaced then [] else m.tables.checks
         case NewProcess(replaced) => if replaced then [] else m.tables.checks
         case _ => m.tables.checks
  {
    hide Inserted, CheckOnce, Deletes;
  }

  /** The checks the stored chain is the replay of are those, and no transition ever stored is forgotten. */
  lemma {:induction false} ChecksAreStored(states: seq<Monitor>, run: seq<Step>, i: nat, j: nat)
    requires IsRun(states, run) && i <= j <= |run|
    ensures states[j].tables.checks == StoredBy(states, run, j)
    ensures states[i].tables.transitions <= states[j].tables.transitions
    decreases j
  {
    hide Next;
    if j > 0 {
      ChecksAreStored(states, run, if i < j then i else j - 1, j - 1);
      StepStores(states[j - 1], run[j - 1], states[j]);
    }
  }
}
