/**
 * The inactivity filter (`matches_usage_filter` and `SqliteInactivityHistory` in
 * src/storage/sqlite/queries.rs, `evaluate_inactivity` in src/domain/filters.rs): its verdict,
 * read off the compressed and pruned change log, is the verdict over every poll.
 */
module Inactivity {
  import opened Prelude
  import opened Inventory
  import opened Usage
  import opened UsageInv

  datatype Activity = ConsoleOnly | AnyUser

  datatype UsageFilter = UsageFilter(now: int, status: Option<Status>, inactiveConsoleFor: Option<nat>,
      noUsersFor: Option<nat>)

  // ----- what the code decides -----

  predicate CurrentlyInactive(a: Activity, snapshot: Snapshot) {
    && snapshot.status == Reporting && snapshot.console.Some? && snapshot.remote.Some?
    && match a
       case ConsoleOnly => snapshot.console.value == 0
       case AnyUser => snapshot.console.value == 0 && snapshot.remote.value == 0
  }

  /** The SQL condition; a missing count is not greater than zero. */
  predicate ActivityMatched(a: Activity, snapshot: Snapshot) {
    || (snapshot.console.Some? && snapshot.console.value > 0)
    || (a == AnyUser && snapshot.remote.Some? && snapshot.remote.value > 0)
  }

  predicate OfHost(rows: map<int, UsageRow>, host: string, r: int) {
    r in rows && rows[r].host == host
  }

  /** The row `ORDER BY collected_at DESC, id DESC LIMIT 1` finds at or before the cutoff. */
  predicate IsLatestRow(rows: map<int, UsageRow>, host: string, cutoff: int, r: int) {
    && OfHost(rows, host, r) && rows[r].snapshot.at <= cutoff
    && forall other :: other in rows && rows[other].host == host && rows[other].snapshot.at <= cutoff && other != r ==>
         Later(r, rows[r], other, rows[other])
  }

  datatype StateAtCutoff = Unknown | Known(active: bool)

  function StateOf(a: Activity, snapshot: Snapshot): StateAtCutoff {
    if snapshot.status == Reporting then Known(ActivityMatched(a, snapshot)) else Unknown
  }

  ghost predicate StateAtOrBefore(
    rows: map<int, UsageRow>, host: string, cutoff: int, a: Activity, state: Option<StateAtCutoff>)
  {
    match state
    case None => forall r :: r in rows && rows[r].host == host ==> rows[r].snapshot.at > cutoff
    case Some(st) => exists r :: IsLatestRow(rows, host, cutoff, r) && st == StateOf(a, rows[r].snapshot)
  }

  predicate BreaksInactivity(rows: map<int, UsageRow>, host: string, cutoff: int, a: Activity) {
    exists r :: r in rows && rows[r].host == host && rows[r].snapshot.at > cutoff
                && (rows[r].snapshot.status != Reporting || ActivityMatched(a, rows[r].snapshot))
  }

  /** `state` is what the history table says about the cutoff. */
  predicate Evaluate(snapshot: Snapshot, a: Activity, state: Option<StateAtCutoff>, breaks: bool) {
    CurrentlyInactive(a, snapshot) && state == Some(Known(false)) && !breaks
  }

  function Window(f: UsageFilter): nat {
    Max(if f.inactiveConsoleFor.Some? then f.inactiveConsoleFor.value else 0,
        if f.noUsersFor.Some? then f.noUsersFor.value else 0)
  }

  /** Usage is collected, the latest snapshot is fresh and the window is covered and not below the floor. */
  predicate Answerable(s: Store, host: Host, snapshot: Snapshot, f: UsageFilter) {
    var cutoff := f.now - Window(f);
    && host.usage.enabled && IsFresh(snapshot.at, Freshness(host.usage.interval, host.usage.timeout), f.now)
    && host.id in s.coverage && s.coverage[host.id].started <= cutoff
    && (s.floor.Some? ==> s.floor.value <= cutoff)
  }

  // ----- what it means -----

  /** The poll worked and nobody was there. */
  predicate Quiet(a: Activity, snapshot: Snapshot) {
    snapshot.status == Reporting && snapshot.console == Some(0) && (a == AnyUser ==> snapshot.remote == Some(0))
  }

  /** The last poll at or before the cutoff. */
  ghost predicate LastAt(polls: seq<Poll>, t: nat, cutoff: int) {
    && t < |polls| && polls[t].snapshot.at <= cutoff
    && forall k :: t < k < |polls| ==> polls[k].snapshot.at > cutoff
  }

  /** In the full log of every poll: quiet at the cutoff and at every poll since. */
  ghost predicate InactiveSince(polls: seq<Poll>, cutoff: int, a: Activity) {
    exists t: nat :: LastAt(polls, t, cutoff) && forall k :: t <= k < |polls| ==> Quiet(a, polls[k].snapshot)
  }

  /** Polls, floor and coverage prove that nobody was there since `cutoff`. */
  ghost predicate ProvedInactive(s: Store, id: string, cutoff: int, a: Activity) {
    && id in s.trails && InactiveSince(s.trails[id].polls, cutoff, a)
    && id in s.coverage && s.coverage[id].started <= cutoff
    && (s.floor == None || s.floor.value <= cutoff)
  }

  /**
   * What the filter means: the last poll has the status asked for, and for each kind of inactivity
   * asked for usage is collected, the last poll is at most two intervals and a timeout old and the
   * inactivity is proved since that long ago.
   */
  ghost predicate FilterHolds(s: Store, host: Host, f: UsageFilter) {
    && host.id in s.trails && s.trails[host.id].polls != []
    && var polls := s.trails[host.id].polls;
       var last := polls[|polls| - 1].snapshot;
       var inTime := last.at <= f.now <= last.at + 2 * host.usage.interval + host.usage.timeout;
       && (f.status == None || f.status == Some(last.status))
       && (f.inactiveConsoleFor.Some? ==>
             && host.usage.enabled && inTime
             && ProvedInactive(s, host.id, f.now - f.inactiveConsoleFor.value, ConsoleOnly))
       && (f.noUsersFor.Some? ==>
             && host.usage.enabled && inTime
             && ProvedInactive(s, host.id, f.now - f.noUsersFor.value, AnyUser))
  }

  // ----- the change log tells the same -----

  /** The poll whose change row also stands for poll `k`. */
  lemma {:induction false} ChangeBefore(polls: seq<Poll>, k: nat) returns (i: nat)
    requires Compressed(polls) && k < |polls|
    ensures i <= k && polls[i].row.Some? && !polls[k].snapshot.DiffersFrom(polls[i].snapshot)
    ensures forall j :: i < j <= k ==> polls[j].row.None?
  {
    if polls[k].row.Some? {
      i := k;
    } else {
      i := ChangeBefore(polls, k - 1);
    }
  }

  lemma {:induction false} LastPoll(polls: seq<Poll>, cutoff: int, n: nat) returns (t: nat)
    requires n < |polls| && InOrder(polls) && polls[n].snapshot.at <= cutoff
    ensures n <= t && LastAt(polls, t, cutoff)
    decreases |polls| - n
  {
    if n + 1 < |polls| && polls[n + 1].snapshot.at <= cutoff {
      t := LastPoll(polls, cutoff, n + 1);
    } else {
      t := n;
    }
  }

  /** What makes a host's stored rows complete from `cutoff` on. */
  ghost predicate Complete(s: Store, id: string, cutoff: int) {
    && id in s.latest && id in s.trails && id in s.coverage
    && s.coverage[id].started <= cutoff && (s.floor.Some? ==> s.floor.value <= cutoff)
  }

  lemma NotSuperseded(s: Store, id: string, cutoff: int, t: nat, i: nat, b: int)
    requires RowsOk(s) && Complete(s, id, cutoff) && LastAt(s.trails[id].polls, t, cutoff)
    requires forall j :: i < j <= t ==> j < |s.trails[id].polls| && s.trails[id].polls[j].row.None?
    ensures !SupersededBy(s, id, i, b)
  {
    if b in s.rows && s.rows[b].host == id {
      assert RowOk(s, b);
    }
  }

  /** The last change row at or before the cutoff, and every later one, is stored. */
  lemma ChangeStored(s: Store, id: string, cutoff: int, t: nat, i: nat)
    requires Inv(s) && Complete(s, id, cutoff)
    requires var polls := s.trails[id].polls;
      && LastAt(polls, t, cutoff) && s.trails[id].born <= i < |polls| && polls[i].row.Some?
      && forall j :: i < j <= t ==> polls[j].row.None?
    ensures var r := s.trails[id].polls[i].row.value;
      r in s.rows && r in s.places && s.places[r] == i && s.rows[r] == UsageRow(id, s.trails[id].polls[i].snapshot)
  {
    hide CatalogueOk, HostOk, TrailOk, SupersededBy;
    var r := s.trails[id].polls[i].row.value;
    assert ChangeKept(s, id, i);
    forall b
      ensures !SupersededBy(s, id, i, b)
    {
      NotSuperseded(s, id, cutoff, t, i, b);
    }
    assert RowOk(s, r);
  }

  lemma TrailFacts(s: Store, id: string, cutoff: int)
    requires Inv(s) && Complete(s, id, cutoff)
    ensures var t := s.trails[id];
      && TrailOk(t, s.sequence) && LatestOk(t, s.latest[id]) && CoverageOk(t, s.coverage[id])
  {
    hide TrailOk, LatestOk, CoverageOk, RowsOk, Distinct, ChangesKept, CatalogueOk;
    assert HostOk(s, id);
  }

  /** Any other row of the host at or before the cutoff comes before the last change row. */
  lemma ChangeIsLater(s: Store, id: string, cutoff: int, t: nat, x: int, r: int)
    requires RowsOk(s) && id in s.trails && TrailOk(s.trails[id], s.sequence) && LastAt(s.trails[id].polls, t, cutoff)
    requires OfHost(s.rows, id, x) && x in s.places && OfHost(s.rows, id, r) && s.rows[r].snapshot.at <= cutoff
    requires r != x
    requires forall j :: s.places[x] < j <= t ==> j < |s.trails[id].polls| && s.trails[id].polls[j].row.None?
    ensures Later(x, s.rows[x], r, s.rows[r])
  {
    hide TrailOk, Later;
    assert RowOk(s, r);
    PlacesDiffer(s, r, x);
    PlacesAreLater(s, r, x);
  }

  /** The row found at the cutoff reports what the last poll at or before it reported. */
  lemma StateIsLastPoll(s: Store, id: string, cutoff: int, t: nat, r: int)
    requires Inv(s) && Complete(s, id, cutoff) && LastAt(s.trails[id].polls, t, cutoff)
    requires IsLatestRow(s.rows, id, cutoff, r)
    ensures !s.trails[id].polls[t].snapshot.DiffersFrom(s.rows[r].snapshot)
  {
    TrailFacts(s, id, cutoff);
    hide CatalogueOk, HostOk, RowsOk, Distinct, ChangesKept, TrailOk, LatestOk, CoverageOk, LastAt;
    var i := ChangeAtCutoff(s, id, cutoff, t);
    var x := s.trails[id].polls[i].row.value;
    RowTime(s, id, cutoff, t, i);
    if r != x {
      ChangeIsLater(s, id, cutoff, t, x, r);
    }
  }

  lemma ChangeAtCutoff(s: Store, id: string, cutoff: int, t: nat) returns (i: nat)
    requires Inv(s) && Complete(s, id, cutoff) && LastAt(s.trails[id].polls, t, cutoff)
    ensures var polls := s.trails[id].polls;
      && i <= t && polls[i].row.Some? && !polls[t].snapshot.DiffersFrom(polls[i].snapshot)
      && (forall j :: i < j <= t ==> polls[j].row.None?)
      && var r := polls[i].row.value;
         r in s.rows && r in s.places && s.places[r] == i && s.rows[r] == UsageRow(id, polls[i].snapshot)
  {
    TrailFacts(s, id, cutoff);
    hide CatalogueOk, HostOk, RowsOk, Distinct, ChangesKept, Sound, Numbered;
    i := ChangeBefore(s.trails[id].polls, t);
    assert s.trails[id].born <= s.trails[id].first <= t;
    ChangeStored(s, id, cutoff, t, i);
  }

  /** The rows after the cutoff break inactivity exactly when some poll since the cutoff does. */
  lemma BreaksAreLaterPolls(s: Store, id: string, cutoff: int, t: nat, a: Activity)
    requires Inv(s) && Complete(s, id, cutoff) && LastAt(s.trails[id].polls, t, cutoff)
    requires Quiet(a, s.trails[id].polls[t].snapshot)
    ensures BreaksInactivity(s.rows, id, cutoff, a)
      <==> exists k :: t < k < |s.trails[id].polls| && !Quiet(a, s.trails[id].polls[k].snapshot)
  {
    var polls := s.trails[id].polls;
    if BreaksInactivity(s.rows, id, cutoff, a) {
      RowIsPoll(s, id, cutoff, t, a);
    }
    if k :| t < k < |polls| && !Quiet(a, polls[k].snapshot) {
      PollIsRow(s, id, cutoff, t, a, k);
    }
  }

  lemma RowIsPoll(s: Store, id: string, cutoff: int, t: nat, a: Activity)
    requires Inv(s) && Complete(s, id, cutoff) && LastAt(s.trails[id].polls, t, cutoff)
    requires BreaksInactivity(s.rows, id, cutoff, a)
    ensures exists k :: t < k < |s.trails[id].polls| && !Quiet(a, s.trails[id].polls[k].snapshot)
  {
    TrailFacts(s, id, cutoff);
    hide CatalogueOk, HostOk, Distinct, ChangesKept, Sound, Numbered, Compressed, LatestOk, CoverageOk;
    var r :| r in s.rows && s.rows[r].host == id && s.rows[r].snapshot.at > cutoff
             && (s.rows[r].snapshot.status != Reporting || ActivityMatched(a, s.rows[r].snapshot));
    assert RowOk(s, r);
    var k := s.places[r];
    AfterCutoff(s.trails[id].polls, t, cutoff, k);
    assert !Quiet(a, s.trails[id].polls[k].snapshot);
  }

  lemma AfterCutoff(polls: seq<Poll>, t: nat, cutoff: int, k: nat)
    requires InOrder(polls) && LastAt(polls, t, cutoff) && k < |polls| && polls[k].snapshot.at > cutoff
    ensures t < k
  {
  }

  lemma PollIsRow(s: Store, id: string, cutoff: int, t: nat, a: Activity, k: nat)
    requires Inv(s) && Complete(s, id, cutoff) && LastAt(s.trails[id].polls, t, cutoff)
    requires Quiet(a, s.trails[id].polls[t].snapshot)
    requires t < k < |s.trails[id].polls| && !Quiet(a, s.trails[id].polls[k].snapshot)
    ensures BreaksInactivity(s.rows, id, cutoff, a)
  {
    TrailFacts(s, id, cutoff);
    hide CatalogueOk, HostOk, RowsOk, Distinct, ChangesKept, Sound, Numbered, LatestOk;
    var i := ChangeAfter(s.trails[id].polls, t, k, a);
    ChangeStored(s, id, cutoff, t, i);
  }

  /** Between a quiet poll and one that is not there is a change. */
  lemma {:induction false} ChangeAfter(polls: seq<Poll>, t: nat, k: nat, a: Activity) returns (i: nat)
    requires Compressed(polls) && t < k < |polls| && Quiet(a, polls[t].snapshot) && !Quiet(a, polls[k].snapshot)
    ensures t < i <= k && polls[i].row.Some? && !Quiet(a, polls[i].snapshot)
  {
    if polls[k].row.Some? {
      i := k;
    } else {
      i := ChangeAfter(polls, t, k - 1, a);
    }
  }

  /**
   * Where the window is covered and not below the floor, the code's verdict from the stored rows is
   * the verdict over the full log of every poll.
   */
  lemma VerdictIsExact(s: Store, id: string, cutoff: int, a: Activity, state: Option<StateAtCutoff>)
    requires Inv(s) && Complete(s, id, cutoff) && StateAtOrBefore(s.rows, id, cutoff, a, state)
    ensures Evaluate(s.latest[id], a, state, BreaksInactivity(s.rows, id, cutoff, a))
      <==> InactiveSince(s.trails[id].polls, cutoff, a)
  {
    TrailFacts(s, id, cutoff);
    hide CatalogueOk, HostOk, RowsOk, Distinct, ChangesKept, Numbered, Compressed, BreaksInactivity, IsLatestRow,
         ActivityMatched;
    var polls := s.trails[id].polls;
    var t := LastPoll(polls, cutoff, s.trails[id].first);
    LastUnique(polls, t, cutoff);
    StateIsQuiet(s, id, cutoff, t, a, state);
    if Quiet(a, polls[t].snapshot) {
      BreaksAreLaterPolls(s, id, cutoff, t, a);
      CurrentIsQuiet(a, polls[|polls| - 1].snapshot);
    }
  }

  lemma LastUnique(polls: seq<Poll>, t: nat, cutoff: int)
    requires LastAt(polls, t, cutoff)
    ensures forall u: nat :: LastAt(polls, u, cutoff) ==> u == t
  {
  }

  lemma StateIsQuiet(s: Store, id: string, cutoff: int, t: nat, a: Activity, state: Option<StateAtCutoff>)
    requires Inv(s) && Complete(s, id, cutoff) && LastAt(s.trails[id].polls, t, cutoff)
    requires StateAtOrBefore(s.rows, id, cutoff, a, state)
    ensures state == Some(Known(false)) <==> Quiet(a, s.trails[id].polls[t].snapshot)
  {
    hide Inv, LastAt, Complete, Later;
    if state.None? {
      var i := ChangeAtCutoff(s, id, cutoff, t);
      RowTime(s, id, cutoff, t, i);
    } else {
      var r :| IsLatestRow(s.rows, id, cutoff, r) && state.value == StateOf(a, s.rows[r].snapshot);
      StateIsLastPoll(s, id, cutoff, t, r);
      var poll := PollAt(s, id, cutoff, t);
      SameState(a, poll, s.rows[r].snapshot);
    }
  }

  lemma SameState(a: Activity, poll: Snapshot, row: Snapshot)
    requires poll.Valid() && !poll.DiffersFrom(row)
    ensures StateOf(a, row) == Known(false) <==> Quiet(a, poll)
  {
  }

  lemma PollAt(s: Store, id: string, cutoff: int, t: nat) returns (poll: Snapshot)
    requires Inv(s) && Complete(s, id, cutoff) && LastAt(s.trails[id].polls, t, cutoff)
    ensures id in s.trails && t < |s.trails[id].polls| && poll == s.trails[id].polls[t].snapshot && poll.Valid()
  {
    TrailFacts(s, id, cutoff);
    hide CatalogueOk, HostOk, RowsOk, Distinct, ChangesKept, Numbered, Compressed, InOrder, CoverageOk, LatestOk;
    poll := s.trails[id].polls[t].snapshot;
  }

  lemma RowTime(s: Store, id: string, cutoff: int, t: nat, i: nat)
    requires Inv(s) && Complete(s, id, cutoff) && LastAt(s.trails[id].polls, t, cutoff) && i <= t
    ensures s.trails[id].polls[i].snapshot.at <= cutoff
  {
    TrailFacts(s, id, cutoff);
    hide CatalogueOk, HostOk, RowsOk, Distinct, ChangesKept, Numbered, Compressed, Sound, CoverageOk, LatestOk;
  }

  lemma CurrentIsQuiet(a: Activity, snapshot: Snapshot)
    requires snapshot.Valid()
    ensures CurrentlyInactive(a, snapshot) <==> Quiet(a, snapshot)
  {
  }

  // ----- the whole filter -----

  /** What the rows say of one kind of inactivity, if it is asked for. */
  predicate Passes(s: Store, id: string, now: int, length: Option<nat>, a: Activity, state: Option<StateAtCutoff>)
    requires id in s.latest
  {
    length.Some? ==> Evaluate(s.latest[id], a, state, BreaksInactivity(s.rows, id, now - length.value, a))
  }

  /** The decision of `matches_usage_filter`; `console` and `users` are what the rows say at the cutoffs. */
  predicate Decides(
    s: Store, host: Host, f: UsageFilter, console: Option<StateAtCutoff>, users: Option<StateAtCutoff>)
    requires host.id in s.latest
  {
    && (f.status.Some? ==> s.latest[host.id].status == f.status.value)
    && (f.inactiveConsoleFor.Some? || f.noUsersFor.Some? ==> Answerable(s, host, s.latest[host.id], f))
    && Passes(s, host.id, f.now, f.inactiveConsoleFor, ConsoleOnly, console)
    && Passes(s, host.id, f.now, f.noUsersFor, AnyUser, users)
  }

  lemma AnswerableIsComplete(s: Store, host: Host, f: UsageFilter)
    requires host.id in s.latest && host.id in s.trails && Answerable(s, host, s.latest[host.id], f)
    ensures f.inactiveConsoleFor.Some? ==> Complete(s, host.id, f.now - f.inactiveConsoleFor.value)
    ensures f.noUsersFor.Some? ==> Complete(s, host.id, f.now - f.noUsersFor.value)
  {
  }

  lemma LastIsLatest(s: Store, id: string)
    requires Inv(s) && id in s.latest
    ensures id in s.trails && s.trails[id].polls != []
    ensures s.trails[id].polls[|s.trails[id].polls| - 1].snapshot == s.latest[id]
  {
    hide CatalogueOk, RowsOk, Distinct, ChangesKept, TrailOk, CoverageOk;
    assert HostOk(s, id);
  }

  /** Inactivity of one kind over the last `length`, if it is asked for. */
  ghost predicate QuietFor(polls: seq<Poll>, now: int, length: Option<nat>, a: Activity) {
    length.Some? ==> InactiveSince(polls, now - length.value, a)
  }

  /** The guards are those of every window asked for. */
  lemma FilterByParts(s: Store, host: Host, f: UsageFilter)
    requires Inv(s) && host.id in s.latest
    ensures host.id in s.trails
    ensures var polls := s.trails[host.id].polls;
      FilterHolds(s, host, f) <==>
        && (f.status.Some? ==> s.latest[host.id].status == f.status.value)
        && (f.inactiveConsoleFor.Some? || f.noUsersFor.Some? ==> Answerable(s, host, s.latest[host.id], f))
        && QuietFor(polls, f.now, f.inactiveConsoleFor, ConsoleOnly) && QuietFor(polls, f.now, f.noUsersFor, AnyUser)
  {
    hide Inv, InactiveSince;
    LastIsLatest(s, host.id);
  }

  lemma PassIsQuiet(s: Store, id: string, now: int, length: Option<nat>, a: Activity, state: Option<StateAtCutoff>)
    requires Inv(s) && id in s.latest && id in s.trails
    requires length.Some? ==> Complete(s, id, now - length.value)
    requires length.Some? ==> StateAtOrBefore(s.rows, id, now - length.value, a, state)
    ensures Passes(s, id, now, length, a, state) <==> QuietFor(s.trails[id].polls, now, length, a)
  {
    hide Inv, InactiveSince, Evaluate, BreaksInactivity, StateAtOrBefore;
    if length.Some? {
      VerdictIsExact(s, id, now - length.value, a, state);
    }
  }

  /**
   * Main result: the whole filter, status, guards and windows, decided from the latest row, the
   * compressed and pruned change log, the coverage row and the floor, is what it means.
   */
  lemma FilterIsExact(
    s: Store, host: Host, f: UsageFilter, console: Option<StateAtCutoff>, users: Option<StateAtCutoff>)
    requires Inv(s) && host.id in s.latest
    requires f.inactiveConsoleFor.Some? ==>
      StateAtOrBefore(s.rows, host.id, f.now - f.inactiveConsoleFor.value, ConsoleOnly, console)
    requires f.noUsersFor.Some? ==> StateAtOrBefore(s.rows, host.id, f.now - f.noUsersFor.value, AnyUser, users)
    ensures Decides(s, host, f, console, users) <==> FilterHolds(s, host, f)
  {
    hide Inv, InactiveSince, Passes, StateAtOrBefore, QuietFor, FilterHolds, Answerable, Complete;
    FilterByParts(s, host, f);
    if Answerable(s, host, s.latest[host.id], f) {
      AnswerableIsComplete(s, host, f);
    }
    if Answerable(s, host, s.latest[host.id], f) || (f.inactiveConsoleFor.None? && f.noUsersFor.None?) {
      PassIsQuiet(s, host.id, f.now, f.inactiveConsoleFor, ConsoleOnly, console);
      PassIsQuiet(s, host.id, f.now, f.noUsersFor, AnyUser, users);
    }
  }
}
