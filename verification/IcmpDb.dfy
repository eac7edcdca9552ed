/** The state a monitor mutates, and the tables its results are stored in, with retries. */
module IcmpDb {
  import opened Prelude
  import opened Icmp
  import opened IcmpStore
  import opened Runner
  import opened History
  import opened HistoryDb
  import opened Ingest
  import opened IcmpHistory
  import opened Sync
  import HistoryRuns

  /** `HostRuntimeState`, updated in place by `check_once` and `transition_to`. */
  class HostState {
    var status: HostStatus
    var lastChecked: Option<int>
    var lastChange: Option<int>
    var latency: Option<real>
    var successes: Count
    var failures: Count
    var lastError: Option<string>

    ghost function Value(): RuntimeState
      reads this
    {
      RuntimeState(status, lastChecked, lastChange, latency, successes, failures, lastError)
    }

    constructor ()
      ensures Value() == FRESH
    {
      status, lastChecked, lastChange, latency, successes, failures, lastError := Unknown, None, None, None, 0, 0, None;
    }

    method TransitionTo(next: HostStatus, at: int, ms: Option<real>, error: Option<string>, reason: string)
      returns (t: Transition)
      modifies `status, `lastChange
      ensures Observation(Value(), Some(t)) == Icmp.TransitionTo(old(Value()), next, at, ms, error, reason)
    {
      var previous := status;
      status := next;
      lastChange := Some(at);
      t := Transition(previous, next, at, ms, error, reason);
    }

    method CheckOnce(c: Check) returns (transition: Option<Transition>)
      modifies this
      ensures Observation(Value(), transition) == Icmp.CheckOnce(old(Value()), c)
    {
      transition := None;
      lastChecked := Some(c.at);
      match c.outcome {
        case Reply(ms) =>
          latency := Some(ms);
          successes := if successes < MAX_COUNT then successes + 1 else successes;
          failures := 0;
          lastError := None;
          if status != Up && successes >= c.thresholds.success {
            var t := TransitionTo(Up, c.at, Some(ms), None, "success threshold reached");
            transition := Some(t);
          }
        case NoReply(error) =>
          latency := None;
          failures := if failures < MAX_COUNT then failures + 1 else failures;
          successes := 0;
          lastError := Some(error);
          if status != Down && failures >= c.thresholds.failure {
            var t := TransitionTo(Down, c.at, None, Some(error), "failure threshold reached");
            transition := Some(t);
          }
      }
    }
  }

  /** An attempt, whether it finds the host configured, the generation it finds and the clock it reads. */
  datatype Attempt = Attempt(fate: Fate, configured: bool, generation: nat, now: int)

  /** The attempt gets as far as the fence. */
  predicate Reaches(a: Attempt) {
    a.fate != Lost && a.configured
  }

  predicate Commits(a: Attempt, fence: nat) {
    Reaches(a) && a.generation == fence
  }

  /** Success or a stale generation ends the retries; any other error does not. */
  predicate Ends(a: Attempt, fence: nat) {
    Reaches(a) && (a.generation != fence || a.fate == Acknowledged)
  }

  datatype Outcome = Stored | StaleGeneration | NotFound

  /** The retries of one observation go on for `n` attempts. */
  predicate StopsAfter(attempts: seq<Attempt>, fence: nat, n: nat) {
    && 0 < n <= |attempts| && Ends(attempts[n - 1], fence)
    && forall i :: 0 <= i < n - 1 ==> !Ends(attempts[i], fence)
  }

  /** The history after one committed write. */
  ghost function SampleWritten(h: History, key: CheckKey, o: Icmp.Observation, now: int): History {
    if o.state.lastChecked.Some? && HasLive(h.epochs, key) && LiveId(h.epochs, key) in h.log
    then RecordInto(h, LiveId(h.epochs, key), o.state.lastChecked.value, SampleOf(o.state), now)
    else h
  }

  /** The history after the committed ones of the first `n` attempts. */
  ghost function SamplesWritten(
    h: History, key: CheckKey, o: Icmp.Observation, attempts: seq<Attempt>, fence: nat, n: nat): History
    requires n <= |attempts|
  {
    if n == 0 then h
    else
      var before := SamplesWritten(h, key, o, attempts, fence, n - 1);
      if Commits(attempts[n - 1], fence) then SampleWritten(before, key, o, attempts[n - 1].now) else before
  }

  predicate AnyCommits(attempts: seq<Attempt>, fence: nat, n: nat)
    requires n <= |attempts|
  {
    exists i :: 0 <= i < n && Commits(attempts[i], fence)
  }

  class StatusTables {
    const key: CheckKey
    const history: Database
    var configured: bool
    var generation: nat
    var latest: Option<RuntimeState>
    var transitions: seq<Transition>

    constructor (key: CheckKey, history: Database)
      ensures this.key == key && this.history == history
      ensures configured && generation == 0 && latest == None && transitions == []
    {
      this.key, this.history := key, history;
      configured, generation, latest, transitions := true, 0, None, [];
    }

    method InsertTransition(t: Transition)
      modifies `transitions
      ensures transitions == Inserted(old(transitions), Some(t))
    {
      var exists' := exists i :: 0 <= i < |transitions| && transitions[i].at == t.at
                                 && transitions[i].previous == t.previous && transitions[i].next == t.next;
      if !exists' {
        transitions := transitions + [t];
      }
    }

    /**
     * One write: refused when the host is not configured, turned away when its generation is not the
     * current one, else the latest status is replaced, the sample recorded and the transition inserted
     * together.
     */
    method UpdateCheckResult(o: Icmp.Observation, expected: nat, now: int) returns (outcome: Outcome)
      requires history.Indexed()
      modifies `latest, `transitions
      modifies history`epochs, history`raw, history`events, history`buckets, history`spans, history`log
      ensures outcome == if !configured then NotFound else if expected != generation then StaleGeneration else Stored
      ensures latest == if outcome == Stored then Some(o.state) else old(latest)
      ensures transitions == if outcome == Stored then Inserted(old(transitions), o.transition) else old(transitions)
      ensures history.Tables()
           == if outcome == Stored then SampleWritten(old(history.Tables()), key, o, now) else old(history.Tables())
    {
      hide RecordInto, LifetimesApart;
      if !configured {
        return NotFound;
      }
      if expected != generation {
        return StaleGeneration;
      }
      latest := Some(o.state);
      if o.state.lastChecked.Some? {
        history.Record(key, o.state.lastChecked.value, SampleOf(o.state), now);
      }
      if o.transition.Some? {
        InsertTransition(o.transition.value);
      }
      return Stored;
    }

    /**
     * Retry until an attempt is acknowledged or turned away.  The latest status and the transition
     * are those of a single write if any attempt committed.
     */
    method StoreWithRetries(o: Icmp.Observation, fence: nat, attempts: seq<Attempt>)
      returns (n: nat, acknowledged: bool)
      requires history.Indexed() && exists i :: 0 <= i < |attempts| && Ends(attempts[i], fence)
      modifies this, history`epochs, history`raw, history`events, history`buckets, history`spans, history`log
      ensures StopsAfter(attempts, fence, n)
      ensures acknowledged <==> Commits(attempts[n - 1], fence)
      ensures latest == if AnyCommits(attempts, fence, n) then Some(o.state) else old(latest)
      ensures transitions
           == if AnyCommits(attempts, fence, n) then Inserted(old(transitions), o.transition) else old(transitions)
      ensures history.Tables() == SamplesWritten(old(history.Tables()), key, o, attempts, fence, n)
    {
      hide Inserted, SampleWritten, LifetimesApart, SamplesWritten;
      ghost var h, before, first := history.Tables(), transitions, latest;
      n := 0;
      NoneWritten(h, key, o, attempts, fence);
      while true
        invariant n <= |attempts| && forall i :: 0 <= i < n ==> !Ends(attempts[i], fence)
        invariant latest == if AnyCommits(attempts, fence, n) then Some(o.state) else first
        invariant transitions == if AnyCommits(attempts, fence, n) then Inserted(before, o.transition) else before
        invariant history.Tables() == SamplesWritten(h, key, o, attempts, fence, n) && history.Indexed()
        decreases |attempts| - n
      {
        var a := attempts[n];
        configured, generation := a.configured, a.generation;
        OneMoreWritten(h, key, o, attempts, fence, n);
        InsertedTwice(before, o.transition);
        n := n + 1;
        if a.fate != Lost {
          WrittenIndexed(history.Tables(), key, o, a.now);
          var outcome := UpdateCheckResult(o, fence, a.now);
          if outcome == StaleGeneration || (outcome == Stored && a.fate == Acknowledged) {
            acknowledged := outcome == Stored;
            return;
          }
        }
      }
    }

    /** `DELETE ... WHERE changed_at < cutoff ... LIMIT limit`; which rows go first is not specified. */
    method DeleteOld(cutoff: int, limit: nat) returns (removed: nat)
      modifies `transitions
      ensures removed <= limit && Deletes(old(transitions), transitions, cutoff, removed)
      ensures removed < limit ==> forall i :: 0 <= i < |transitions| ==> cutoff <= transitions[i].at
    {
      hide Deletes;
      ghost var before := transitions;
      removed := 0;
      DeletesNone(before, cutoff);
      while removed < limit && exists i :: 0 <= i < |transitions| && transitions[i].at < cutoff
        invariant removed <= limit && Deletes(before, transitions, cutoff, removed)
        decreases limit - removed
      {
        var i :| 0 <= i < |transitions| && transitions[i].at < cutoff;
        DeletesOneMore(before, transitions, cutoff, removed, i);
        transitions := transitions[..i] + transitions[i + 1..];
        removed := removed + 1;
      }
    }
  }

  lemma InsertedTwice(transitions: seq<Transition>, t: Option<Transition>)
    ensures Inserted(Inserted(transitions, t), t) == Inserted(transitions, t)
  {
    if t.Some? && !Exists(transitions, t.value) {
      assert (transitions + [t.value])[|transitions|] == t.value;
    }
  }

  lemma NoneWritten(h: History, key: CheckKey, o: Icmp.Observation, attempts: seq<Attempt>, fence: nat)
    ensures SamplesWritten(h, key, o, attempts, fence, 0) == h
  {
  }

  lemma OneMoreWritten(h: History, key: CheckKey, o: Icmp.Observation, attempts: seq<Attempt>, fence: nat, n: nat)
    requires n < |attempts|
    ensures var before := SamplesWritten(h, key, o, attempts, fence, n);
      SamplesWritten(h, key, o, attempts, fence, n + 1)
      == if Commits(attempts[n], fence) then SampleWritten(before, key, o, attempts[n].now) else before
    ensures AnyCommits(attempts, fence, n + 1) <==> AnyCommits(attempts, fence, n) || Commits(attempts[n], fence)
  {
    hide SampleWritten;
  }

  /** Recording a sample opens and closes nothing. */
  lemma WrittenIndexed(h: History, key: CheckKey, o: Icmp.Observation, now: int)
    requires LifetimesApart(h) && h.log.Keys == h.epochs.Keys
    ensures var after := SampleWritten(h, key, o, now); LifetimesApart(after) && after.log.Keys == after.epochs.Keys
  {
    hide Accepts, Accepted, LifetimesApart;
    var after := SampleWritten(h, key, o, now);
    if after != h {
      var id := LiveId(h.epochs, key);
      HistoryRuns.AcceptedLogs(h, id, o.state.lastChecked.value, SampleOf(o.state));
      StillApart(h, after, id);
    }
  }

  lemma StillApart(h: History, after: History, id: int)
    requires LifetimesApart(h) && id in h.epochs && id in after.epochs
    requires after.epochs == h.epochs[id := h.epochs[id].(last := after.epochs[id].last)]
    ensures LifetimesApart(after)
  {
    forall i, j | i in after.epochs && j in after.epochs && i != j && after.epochs[i].key == after.epochs[j].key
      ensures Before(after.epochs[i], after.epochs[j]) || Before(after.epochs[j], after.epochs[i])
    {
      assert Before(h.epochs[i], h.epochs[j]) || Before(h.epochs[j], h.epochs[i]);
    }
  }

  /** However many attempts committed, the sample is recorded by at most one of them. */
  lemma {:induction false} WrittenOnce(
    h: History, key: CheckKey, o: Icmp.Observation, attempts: seq<Attempt>, fence: nat, n: nat)
    requires n <= |attempts| && LifetimesApart(h) && h.log.Keys == h.epochs.Keys
    ensures var after := SamplesWritten(h, key, o, attempts, fence, n);
      || (after == h && forall i :: 0 <= i < n && Commits(attempts[i], fence) ==>
          SampleWritten(h, key, o, attempts[i].now) == h)
      || exists i :: 0 <= i < n && Commits(attempts[i], fence) && after == SampleWritten(h, key, o, attempts[i].now)
                     && SampleWritten(h, key, o, attempts[i].now) != h
  {
    hide SampleWritten, LifetimesApart;
    if n > 0 {
      WrittenOnce(h, key, o, attempts, fence, n - 1);
      OneMoreWritten(h, key, o, attempts, fence, n - 1);
      if SamplesWritten(h, key, o, attempts, fence, n - 1) != h {
        var i :| 0 <= i < n - 1 && Commits(attempts[i], fence)
                 && SamplesWritten(h, key, o, attempts, fence, n - 1) == SampleWritten(h, key, o, attempts[i].now)
                 && SampleWritten(h, key, o, attempts[i].now) != h;
        WrittenAgain(h, key, o, attempts[i].now, attempts[n - 1].now);
      }
    }
  }

  lemma WrittenAgain(h: History, key: CheckKey, o: Icmp.Observation, now: int, later: int)
    requires LifetimesApart(h) && h.log.Keys == h.epochs.Keys && SampleWritten(h, key, o, now) != h
    ensures SampleWritten(SampleWritten(h, key, o, now), key, o, later) == SampleWritten(h, key, o, now)
  {
    hide Accepts, Accepted, LifetimesApart;
    var id, at, sample := LiveId(h.epochs, key), o.state.lastChecked.value, SampleOf(o.state);
    var after := SampleWritten(h, key, o, now);
    WrittenIndexed(h, key, o, now);
    HistoryRuns.AcceptedLogs(h, id, at, sample);
    LiveUnique(after, id, key);
    RecordTwice(h, id, at, sample, sample, now, later);
  }

  lemma DeletesNone(rows: seq<Transition>, cutoff: int)
    ensures Deletes(rows, rows, cutoff, 0)
  {
  }

  /** Deletions may be read from the last one as well as from the first. */
  lemma {:induction false} DeletesOneMore(rows: seq<Transition>, left: seq<Transition>, cutoff: int, n: nat, i: nat)
    requires Deletes(rows, left, cutoff, n) && i < |left| && left[i].at < cutoff
    ensures Deletes(rows, left[..i] + left[i + 1..], cutoff, n + 1)
    decreases n
  {
    var rest := left[..i] + left[i + 1..];
    if n == 0 {
      NoDeletion(rows, left, cutoff);
      DeletesNone(rest, cutoff);
      DeletesFrom(rows, rest, cutoff, 0, i);
    } else {
      hide Deletes;
      var first := FirstDeletion(rows, left, cutoff, n);
      DeletesOneMore(rows[..first] + rows[first + 1..], left, cutoff, n - 1, i);
      DeletesFrom(rows, rest, cutoff, n, first);
    }
  }

  lemma DeletesFrom(rows: seq<Transition>, left: seq<Transition>, cutoff: int, n: nat, i: nat)
    requires i < |rows| && rows[i].at < cutoff && Deletes(rows[..i] + rows[i + 1..], left, cutoff, n)
    ensures Deletes(rows, left, cutoff, n + 1)
  {
  }
}
