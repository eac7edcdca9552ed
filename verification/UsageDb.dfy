/**
 * The usage and TCP tables and the in-memory state as the program updates them
 * (src/storage/sqlite/mod.rs, maintenance.rs, queries.rs and tcp.rs).
 */
module UsageDb {
  import opened Prelude
  import opened Inventory
  import opened Usage
  import opened UsageInv
  import opened Inactivity
  import HistoryDb
  import HistoryRuns
  import HistoryStats
  import History
  import UsageRuns

  class Registry {
    const history: HistoryDb.Database
    var hosts: Catalogue
    var generation: nat
    var identity: map<string, Identity>
    var latest: map<string, Snapshot>
    var coverage: map<string, Coverage>
    var rows: map<int, UsageRow>
    var sequence: int
    var floor: Option<int>
    var tcp: map<(string, string), TcpRow>
    var cache: map<string, Snapshot>
    // Every poll ever committed, and the catalogues of this process; not stored.
    ghost var trails: map<string, Trail>
    ghost var places: map<int, nat>
    ghost var catalogues: seq<Catalogue>

    ghost function State(): (s: Store)
      reads this
      ensures s.hosts == hosts && s.generation == generation && s.identity == identity && s.latest == latest
      ensures s.coverage == coverage && s.rows == rows && s.sequence == sequence && s.floor == floor && s.tcp == tcp
      ensures s.cache == cache && s.trails == trails && s.places == places && s.catalogues == catalogues
    {
      Store(
        hosts, generation, identity, latest, coverage, rows, sequence, floor, tcp, cache, trails, places, catalogues)
    }

    constructor (history: HistoryDb.Database)
      ensures this.history == history && State() == UsageRuns.EMPTY
    {
      this.history := history;
      hosts, generation, identity, latest, coverage, rows, sequence := map[], 0, map[], map[], map[], map[], 0;
      floor, tcp, cache, trails, places, catalogues := None, map[], map[], map[], map[], [map[]];
    }

    // ----- polls -----

    method UpdateCoverage(host: Host, snapshot: Snapshot)
      modifies `coverage
      ensures var allowance := Freshness(host.usage.interval, host.usage.timeout);
        coverage == old(coverage)[host.id := Covered(old(coverage), host.id, snapshot.at, allowance)]
    {
      var started := snapshot.at;
      if host.id in coverage {
        var previous := coverage[host.id];
        if IsFresh(previous.observed, Freshness(host.usage.interval, host.usage.timeout), snapshot.at) {
          started := previous.started;
        }
      }
      coverage := coverage[host.id := Coverage(started, snapshot.at)];
    }

    method StoreChange(id: string, snapshot: Snapshot) returns (inserted: bool)
      modifies `sequence, `rows, `places
      ensures inserted <==> Changed(cache, id, snapshot)
      ensures State() == LogChange(old(State()), id, snapshot)
    {
      hide TrailOf;
      inserted := id !in cache || snapshot.DiffersFrom(cache[id]);
      if inserted {
        sequence := sequence + 1;
        rows := rows[sequence := UsageRow(id, snapshot)];
        places := places[sequence := |TrailOf(trails, id).polls|];
      }
    }

    method StoreUsage(host: Host, snapshot: Snapshot) returns (inserted: bool)
      modifies this
      ensures State() == Usage.UpdateUsage(old(State()), host, snapshot)
      ensures inserted <==> Changed(old(cache), host.id, snapshot)
    {
      hide Extend, TrailOf, Covered, Freshness, Changed, LogChange;
      ghost var trail := Extend(State(), host.id, snapshot, Freshness(host.usage.interval, host.usage.timeout));
      inserted := StoreChange(host.id, snapshot);
      UpdateCoverage(host, snapshot);
      latest := latest[host.id := snapshot];
      trails := trails[host.id := trail];
      cache := cache[host.id := snapshot];
    }

    /** A poll of a host looked up earlier; a writer whose fence is stale is turned away. */
    method UpdateUsage(host: Host, token: Option<nat>, ghost seen: nat, snapshot: Snapshot, now: int)
      returns (outcome: Outcome, inserted: bool)
      requires MayWrite(State(), Writer(token, seen)) && history.Indexed()
      requires host.id in catalogues[seen] && catalogues[seen][host.id] == host
      modifies this, history`epochs, history`raw, history`events, history`buckets, history`spans, history`log
      ensures outcome == PollOutcome(old(State()), Writer(token, seen), host.id, snapshot)
      ensures State() == PollBy(old(State()), Writer(token, seen), host.id, snapshot)
      ensures inserted <==> outcome == Done && Changed(old(cache), host.id, snapshot)
      ensures var key := History.CheckKey(host.id, "usage", "");
        if outcome == Done
        then HistoryRuns.Recorded(old(history.Tables()), key, snapshot.at, snapshot.Sample(), now, history.Tables())
        else history.Tables() == old(history.Tables())
    {
      hide Usage.UpdateUsage, Changed, HistoryRuns.Recorded;
      if !snapshot.Valid() {
        return InvalidData, false;
      }
      if token.Some? && token.value != generation {
        return StaleGeneration, false;
      }
      inserted := StoreUsage(host, snapshot);
      history.Record(History.CheckKey(host.id, "usage", ""), snapshot.at, snapshot.Sample(), now);
      outcome := Done;
    }

    /** A TCP result for a check of a host looked up earlier. */
    method UpdateTcp(host: Host, token: Option<nat>, ghost seen: nat, check: string, snapshot: TcpSnapshot, now: int)
      returns (outcome: Outcome)
      requires MayWrite(State(), Writer(token, seen)) && history.Indexed()
      requires host.id in catalogues[seen] && catalogues[seen][host.id] == host
      modifies `tcp, history`epochs, history`raw, history`events, history`buckets, history`spans, history`log
      ensures outcome == TcpOutcome(old(State()), Writer(token, seen), host.id, check)
      ensures State() == TcpBy(old(State()), Writer(token, seen), host.id, check, snapshot)
      ensures var key := History.CheckKey(host.id, "tcp", check);
        if outcome == Done
        then HistoryRuns.Recorded(old(history.Tables()), key, snapshot.at, snapshot.Sample(), now, history.Tables())
        else history.Tables() == old(history.Tables())
    {
      hide HistoryRuns.Recorded;
      var port := FindPort(host, check);
      if port.None? {
        return InvalidData;
      }
      if token.Some? && token.value != generation {
        return StaleGeneration;
      }
      history.Record(History.CheckKey(host.id, "tcp", check), snapshot.at, snapshot.Sample(), now);
      tcp := tcp[(host.id, check) := TcpRow(host.address, port.value, snapshot)];
      outcome := Done;
    }

    // ----- pruning -----

    method PruneHistory(cutoff: int) returns (removed: nat, ghost gone: set<int>)
      modifies `rows, `places, `floor
      ensures Pruned(old(State()), cutoff, gone, State()) && removed == |gone|
    {
      var prunable := set r | r in rows && rows[r].snapshot.at < cutoff
                              && (rows[r].host !in latest || !IsAnchor(rows, cutoff, r));
      assert prunable == Prunable(State(), cutoff);
      hide Prunable;
      var chosen := Choose(prunable, BATCH);
      rows := rows - chosen;
      places := places - chosen;
      floor := Some(if floor.Some? then Max(floor.value, cutoff) else cutoff);
      removed, gone := |chosen|, chosen;
    }

    // ----- replacing the catalogue -----

    /** Host by host, drop what the host's new meaning does not stand behind. */
    method DropChanged(list: seq<Host>) returns (incoming: set<string>)
      requires Unique(list)
      modifies `identity, `latest, `coverage
      ensures incoming == Mapped(list).Keys
      ensures Synced(old(State()), Mapped(list), identity, latest, coverage)
    {
      hide Synced, Unique, Mapped;
      incoming := {};
      ghost var before := State();
      SyncedNone(before, list);
      for i := 0 to |list|
        invariant incoming == Mapped(list[..i]).Keys
        invariant Synced(before, Mapped(list[..i]), identity, latest, coverage)
      {
        MappedNext(list, i);
        ghost var named, l, c := identity, latest, coverage;
        incoming := incoming + {list[i].id};
        DropHost(list[i]);
        SyncedOne(before, Mapped(list[..i]), named, l, c, list[i], latest, coverage);
      }
      assert list[..|list|] == list;
    }

    method DropHost(host: Host)
      modifies `identity, `latest, `coverage
      ensures identity == old(identity)[host.id := Identity(host.address, host.usage.enabled)]
      ensures var moved := host.id !in old(identity) || old(identity)[host.id].address != host.address;
        && latest == (if moved then old(latest) - {host.id} else old(latest))
        && coverage == (if moved || !host.usage.enabled || !old(identity)[host.id].usageEnabled
                        then old(coverage) - {host.id} else old(coverage))
    {
      if host.id !in identity || identity[host.id].address != host.address {
        latest := latest - {host.id};
        coverage := coverage - {host.id};
      } else if !host.usage.enabled || !identity[host.id].usageEnabled {
        coverage := coverage - {host.id};
      }
      identity := identity[host.id := Identity(host.address, host.usage.enabled)];
    }

    /** Drop the rows of every host and TCP check that is not listed. */
    method DropUnlisted(list: seq<Host>, incoming: set<string>)
      requires Unique(list) && incoming == Mapped(list).Keys
      modifies `identity, `latest, `coverage, `tcp
      ensures latest == map id | id in old(latest) && id in Mapped(list) :: old(latest)[id]
      ensures coverage == map id | id in old(coverage) && id in Mapped(list) :: old(coverage)[id]
      ensures identity == map id | id in old(identity) && id in Mapped(list) :: old(identity)[id]
      ensures tcp == map key | key in old(tcp) && Configured(Mapped(list), key, old(tcp)[key]) :: old(tcp)[key]
    {
      hide Configured, ConfiguredIn, Unique, Mapped;
      ConfiguredByList(list, tcp);
      latest := map id | id in latest && id in incoming :: latest[id];
      coverage := map id | id in coverage && id in incoming :: coverage[id];
      identity := map id | id in identity && id in incoming :: identity[id];
      tcp := map key | key in tcp && ConfiguredIn(list, key, tcp[key]) :: tcp[key];
    }

    method SyncIdentities(list: seq<Host>)
      requires Unique(list)
      modifies `identity, `latest, `coverage, `tcp
      ensures State() == Usage.SyncIdentities(old(State()), Mapped(list))
    {
      hide Synced, Unique, Mapped, Usage.SyncIdentities;
      ghost var before := State();
      var incoming := DropChanged(list);
      SyncedAll(before, Mapped(list), identity, latest, coverage);
      DropUnlisted(list, incoming);
      SyncedRest(before, Mapped(list));
    }

    method RetainCache(replacement: Catalogue)
      modifies `cache
      ensures cache == Retained(old(cache), hosts, replacement)
    {
      cache := map id |
        id in cache && id in hosts && id in replacement && hosts[id].address == replacement[id].address :: cache[id];
    }

    method LoadCache()
      modifies `cache
      ensures cache == Loaded(latest, hosts)
    {
      cache := map id | id in latest && id in hosts :: latest[id];
    }

    /** The in-memory half of a reload. */
    method Publish(replacement: Catalogue)
      modifies `hosts, `generation, `cache, `catalogues
      ensures State() == Usage.Publish(old(State()), replacement)
    {
      hide Retained;
      generation := generation + 1;
      RetainCache(replacement);
      hosts := replacement;
      catalogues := catalogues + [replacement];
    }

    /**
     * Publish a new catalogue; `commits` says whether the rest of the transaction succeeds.
     * A failure changes nothing, the generation included.
     */
    method ReplaceConfiguration(list: seq<Host>, commits: bool) returns (ok: bool)
      modifies this
      ensures ok <==> Unique(list) && AllValid(list) && commits
      ensures ok ==> WellKeyed(Mapped(list)) && State() == Reload(old(State()), Mapped(list))
      ensures !ok ==> State() == old(State())
    {
      hide Usage.SyncIdentities, Usage.Publish, Unique, AllValid, WellKeyed, Mapped;
      ok := Unique(list) && AllValid(list) && commits;
      if !ok {
        return;
      }
      MappedWellKeyed(list);
      SyncIdentities(list);
      Publish(Mapped(list));
    }

    /** A new process over the same tables. */
    method Restart(list: seq<Host>)
      requires Unique(list) && AllValid(list)
      modifies this
      ensures WellKeyed(Mapped(list)) && State() == Usage.Restart(old(State()), Mapped(list))
    {
      hide Usage.SyncIdentities, Usage.Load, Unique, AllValid, WellKeyed, Mapped;
      MappedWellKeyed(list);
      SyncIdentities(list);
      Load(Mapped(list));
    }

    method Load(catalogue: Catalogue)
      modifies `hosts, `generation, `cache, `catalogues
      ensures State() == Usage.Load(old(State()), catalogue)
    {
      hide Loaded;
      hosts := catalogue;
      LoadCache();
      generation := 0;
      catalogues := [hosts];
    }

    // ----- the filter -----

    /** The state of the last stored row at or before the cutoff. */
    method FindState(id: string, cutoff: int, a: Activity) returns (state: Option<StateAtCutoff>)
      ensures StateAtOrBefore(rows, id, cutoff, a, state)
    {
      hide Later;
      var best: Option<int> := None;
      var rest := rows.Keys;
      while rest != {}
        invariant rest <= rows.Keys
        invariant best.None? ==>
          forall r :: r in rows && r !in rest && rows[r].host == id ==> rows[r].snapshot.at > cutoff
        invariant best.Some? ==>
          OfHost(rows, id, best.value) && rows[best.value].snapshot.at <= cutoff && best.value !in rest
        invariant best.Some? ==>
          forall r ::
            r in rows && r !in rest && rows[r].host == id && rows[r].snapshot.at <= cutoff && r != best.value ==>
              Later(best.value, rows[best.value], r, rows[r])
        decreases rest
      {
        ghost var some := Member(rest);
        var r: int :| r in rest;
        rest := rest - {r};
        if rows[r].host == id && rows[r].snapshot.at <= cutoff {
          if best.None? || Later(r, rows[r], best.value, rows[best.value]) {
            ghost var was := best;
            best := Some(r);
            if was.Some? {
              LaterThanAll(rows, id, cutoff, rest, r, was.value);
            }
          } else {
            LaterTotal(r, rows[r], best.value, rows[best.value]);
          }
        }
      }
      if best.None? {
        return None;
      }
      assert IsLatestRow(rows, id, cutoff, best.value);
      state := Some(StateOf(a, rows[best.value].snapshot));
    }

    /** The verdict about one activity from the stored rows is the verdict over every poll. */
    method EvaluateInactivity(id: string, cutoff: int, a: Activity) returns (inactive: bool)
      requires UsageInv.Inv(State()) && Complete(State(), id, cutoff)
      ensures inactive <==> InactiveSince(trails[id].polls, cutoff, a)
    {
      hide UsageInv.Inv, StateAtOrBefore, BreaksInactivity, InactiveSince, CurrentlyInactive;
      ghost var s := State();
      var state := FindState(id, cutoff, a);
      VerdictIsExact(s, id, cutoff, a, state);
      if !CurrentlyInactive(a, latest[id]) {
        return false;
      }
      if state != Some(Known(false)) {
        return false;
      }
      if BreaksInactivity(rows, id, cutoff, a) {
        return false;
      }
      return true;
    }

    /** The guards, and then quiet at every poll since each cutoff. */
    ghost predicate Inactive(host: Host, f: UsageFilter)
      reads this
      requires host.id in latest && host.id in trails
    {
      var polls := trails[host.id].polls;
      f.inactiveConsoleFor.Some? || f.noUsersFor.Some? ==>
        && Answerable(State(), host, latest[host.id], f)
        && (f.inactiveConsoleFor.Some? ==> InactiveSince(polls, f.now - f.inactiveConsoleFor.value, ConsoleOnly))
        && (f.noUsersFor.Some? ==> InactiveSince(polls, f.now - f.noUsersFor.value, AnyUser))
    }

    lemma FilterIsInactive(host: Host, f: UsageFilter)
      requires UsageInv.Inv(State()) && host.id in latest
      ensures host.id in trails
      ensures FilterHolds(State(), host, f) <==>
        (f.status.Some? ==> latest[host.id].status == f.status.value) && Inactive(host, f)
    {
      hide UsageInv.Inv, FilterHolds, InactiveSince, Answerable;
      FilterByParts(State(), host, f);
    }

    /** Whether a host with a latest row matches the usage part of a filter. */
    method MatchesUsageFilter(host: Host, f: UsageFilter) returns (matches: bool)
      requires UsageInv.Inv(State()) && host.id in latest
      ensures matches <==> FilterHolds(State(), host, f)
    {
      hide UsageInv.Inv, Inactive, FilterHolds;
      matches := f.status.None? || latest[host.id].status == f.status.value;
      LastIsLatest(State(), host.id);
      if matches {
        matches := MatchesInactivity(host, f);
      }
      FilterIsInactive(host, f);
    }

    method MatchesInactivity(host: Host, f: UsageFilter) returns (matches: bool)
      requires UsageInv.Inv(State()) && host.id in latest && host.id in trails
      ensures matches <==> Inactive(host, f)
    {
      hide UsageInv.Inv, InactiveSince, Answerable, Complete;
      if f.inactiveConsoleFor.None? && f.noUsersFor.None? {
        return true;
      }
      matches := GuardsPass(host, latest[host.id], f);
      if matches {
        AnswerableIsComplete(State(), host, f);
        matches := EvaluateFor(host.id, f.inactiveConsoleFor, f.now, ConsoleOnly);
        if matches {
          matches := EvaluateFor(host.id, f.noUsersFor, f.now, AnyUser);
        }
      }
    }

    /** No condition, or no activity of that kind for at least `length`. */
    method EvaluateFor(id: string, length: Option<nat>, now: int, a: Activity) returns (quiet: bool)
      requires UsageInv.Inv(State()) && id in trails && (length.Some? ==> Complete(State(), id, now - length.value))
      ensures quiet <==> (length.Some? ==> InactiveSince(trails[id].polls, now - length.value, a))
    {
      hide UsageInv.Inv, InactiveSince, Complete;
      quiet := true;
      if length.Some? {
        quiet := EvaluateInactivity(id, now - length.value, a);
      }
    }

    method GuardsPass(host: Host, snapshot: Snapshot, f: UsageFilter) returns (pass: bool)
      ensures pass <==> Answerable(State(), host, snapshot, f)
    {
      if !host.usage.enabled || !IsFresh(snapshot.at, Freshness(host.usage.interval, host.usage.timeout), f.now) {
        return false;
      }
      var cutoff := f.now - Window(f);
      pass := host.id in coverage && coverage[host.id].started <= cutoff && !(floor.Some? && floor.value > cutoff);
    }
  }

  // ----- checks of a host -----

  method FindPort(host: Host, check: string) returns (port: Option<int>)
    ensures port == PortOf(host, check)
  {
    for i := 0 to |host.tcpChecks|
      invariant forall j :: 0 <= j < i ==> !(host.tcpChecks[j].id == check && host.tcp.enabled)
    {
      if host.tcpChecks[i].id == check && host.tcp.enabled {
        FirstPortAt(host.tcpChecks, check, i);
        return Some(host.tcpChecks[i].port);
      }
    }
    return None;
  }

  lemma {:induction false} FirstPortAt(checks: seq<TcpCheck>, check: string, i: nat)
    requires i < |checks| && checks[i].id == check && forall j :: 0 <= j < i ==> checks[j].id != check
    ensures FirstPort(checks, check) == checks[i].port
  {
    if i > 0 {
      assert checks[1..][i - 1] == checks[i];
      FirstPortAt(checks[1..], check, i - 1);
    }
  }

  // ----- lists of hosts -----

  predicate Unique(list: seq<Host>) {
    forall i, j :: 0 <= i < j < |list| ==> list[i].id != list[j].id
  }

  predicate AllValid(list: seq<Host>) {
    forall i :: 0 <= i < |list| ==> list[i].Valid()
  }

  function Mapped(list: seq<Host>): Catalogue {
    if list == [] then map[] else Mapped(list[..|list| - 1])[list[|list| - 1].id := list[|list| - 1]]
  }

  lemma MappedNext(list: seq<Host>, i: nat)
    requires i < |list|
    ensures Mapped(list[..i + 1]) == Mapped(list[..i])[list[i].id := list[i]]
    ensures Unique(list) ==> list[i].id !in Mapped(list[..i])
  {
    assert list[..i + 1][..i] == list[..i];
    MappedFrom(list[..i]);
  }

  lemma {:induction false} MappedFrom(list: seq<Host>)
    ensures forall id :: id in Mapped(list) ==>
      exists i :: 0 <= i < |list| && list[i].id == id && Mapped(list)[id] == list[i]
    ensures forall i :: 0 <= i < |list| ==> list[i].id in Mapped(list)
  {
    if list != [] {
      var rest := list[..|list| - 1];
      MappedFrom(rest);
      forall id | id in Mapped(list)
        ensures exists i :: 0 <= i < |list| && list[i].id == id && Mapped(list)[id] == list[i]
      {
        if id != list[|list| - 1].id {
          assert id in Mapped(rest) && Mapped(list)[id] == Mapped(rest)[id];
          var i :| 0 <= i < |rest| && rest[i].id == id && Mapped(rest)[id] == rest[i];
          assert list[i] == rest[i];
        }
      }
      forall i | 0 <= i < |list|
        ensures list[i].id in Mapped(list)
      {
        assert i < |rest| ==> rest[i] == list[i];
      }
    }
  }

  lemma MappedWellKeyed(list: seq<Host>)
    requires AllValid(list)
    ensures WellKeyed(Mapped(list))
  {
    hide Host.Valid;
    MappedFrom(list);
  }

  predicate ConfiguredIn(list: seq<Host>, key: (string, string), row: TcpRow) {
    exists i :: 0 <= i < |list| && list[i].id == key.0 && list[i].tcp.enabled && list[i].address == row.address
                && exists j :: 0 <= j < |list[i].tcpChecks| && list[i].tcpChecks[j] == TcpCheck(key.1, row.port)
  }

  lemma ConfiguredByList(list: seq<Host>, tcp: map<(string, string), TcpRow>)
    requires Unique(list)
    ensures forall key :: key in tcp ==>
      (ConfiguredIn(list, key, tcp[key]) <==> Configured(Mapped(list), key, tcp[key]))
  {
    MappedFrom(list);
    forall key | key in tcp
      ensures ConfiguredIn(list, key, tcp[key]) <==> Configured(Mapped(list), key, tcp[key])
    {
      if key.0 in Mapped(list) {
        var i :| 0 <= i < |list| && list[i].id == key.0 && Mapped(list)[key.0] == list[i];
        assert forall k :: 0 <= k < |list| && list[k].id == key.0 ==> k == i;
      }
    }
  }

  // ----- dropping what changed its meaning -----

  function KeptLatest(before: Store, done: Catalogue): map<string, Snapshot> {
    map id | id in before.latest && !(id in done && Replaced(before.identity, done, id)) :: before.latest[id]
  }

  function KeptCoverage(before: Store, done: Catalogue): map<string, Coverage> {
    map id | id in before.coverage && !(id in done && Interrupted(before.identity, done, id)) :: before.coverage[id]
  }

  /** The tables once the hosts in `done` have been looked at. */
  ghost predicate Synced(
    before: Store, done: Catalogue, identity: map<string, Identity>, latest: map<string, Snapshot>,
    coverage: map<string, Coverage>)
  {
    && identity == before.identity + Identities(done)
    && latest == KeptLatest(before, done)
    && coverage == KeptCoverage(before, done)
  }

  lemma SyncedNone(before: Store, list: seq<Host>)
    ensures Mapped(list[..0]) == map[]
    ensures Synced(before, Mapped(list[..0]), before.identity, before.latest, before.coverage)
  {
  }

  /** Whether a host was replaced or interrupted does not depend on the other hosts. */
  lemma SameVerdict(identity: map<string, Identity>, done: Catalogue, host: Host, id: string)
    requires id in done && id != host.id
    ensures Replaced(identity, done[host.id := host], id) == Replaced(identity, done, id)
    ensures Interrupted(identity, done[host.id := host], id) == Interrupted(identity, done, id)
  {
  }

  lemma LatestNext(before: Store, done: Catalogue, host: Host)
    requires host.id !in done
    ensures KeptLatest(before, done[host.id := host])
      == if Replaced(before.identity, done[host.id := host], host.id)
         then KeptLatest(before, done) - {host.id} else KeptLatest(before, done)
  {
    hide Replaced, Interrupted;
    forall id | id in done
      ensures Replaced(before.identity, done[host.id := host], id) == Replaced(before.identity, done, id)
    {
      SameVerdict(before.identity, done, host, id);
    }
  }

  lemma CoverageNext(before: Store, done: Catalogue, host: Host)
    requires host.id !in done
    ensures KeptCoverage(before, done[host.id := host])
      == if Interrupted(before.identity, done[host.id := host], host.id)
         then KeptCoverage(before, done) - {host.id} else KeptCoverage(before, done)
  {
    hide Replaced, Interrupted;
    forall id | id in done
      ensures Interrupted(before.identity, done[host.id := host], id) == Interrupted(before.identity, done, id)
    {
      SameVerdict(before.identity, done, host, id);
    }
  }

  lemma IdentityNext(before: Store, done: Catalogue, identity: map<string, Identity>, host: Host)
    requires identity == before.identity + Identities(done) && host.id !in done
    ensures identity[host.id := Identity(host.address, host.usage.enabled)]
         == before.identity + Identities(done[host.id := host])
    ensures host.id in identity <==> host.id in before.identity
    ensures host.id in identity ==> identity[host.id] == before.identity[host.id]
  {
  }

  lemma SyncedOne(
    before: Store, done: Catalogue, identity: map<string, Identity>, latest: map<string, Snapshot>,
    coverage: map<string, Coverage>, host: Host, latest': map<string, Snapshot>, coverage': map<string, Coverage>)
    requires Synced(before, done, identity, latest, coverage) && host.id !in done
    requires var moved := host.id !in identity || identity[host.id].address != host.address;
      && latest' == (if moved then latest - {host.id} else latest)
      && coverage' == (if moved || !host.usage.enabled || !identity[host.id].usageEnabled then coverage - {host.id}
                       else coverage)
    ensures Synced(before, done[host.id := host],
                   identity[host.id := Identity(host.address, host.usage.enabled)], latest', coverage')
  {
    hide KeptLatest, KeptCoverage, Identities;
    IdentityNext(before, done, identity, host);
    LatestNext(before, done, host);
    CoverageNext(before, done, host);
  }

  lemma LatestAll(before: Store, hosts: Catalogue)
    ensures Usage.SyncIdentities(before, hosts).latest
      == map id | id in KeptLatest(before, hosts) && id in hosts :: KeptLatest(before, hosts)[id]
  {
    ReplacedUnlisted(before.identity, hosts);
    hide Replaced, Interrupted, Configured;
  }

  lemma CoverageAll(before: Store, hosts: Catalogue)
    ensures Usage.SyncIdentities(before, hosts).coverage
      == map id | id in KeptCoverage(before, hosts) && id in hosts :: KeptCoverage(before, hosts)[id]
  {
    ReplacedUnlisted(before.identity, hosts);
    hide Replaced, Interrupted, Configured;
  }

  lemma SyncedAll(
    before: Store, hosts: Catalogue, identity: map<string, Identity>, latest: map<string, Snapshot>,
    coverage: map<string, Coverage>)
    requires Synced(before, hosts, identity, latest, coverage)
    ensures var after := Usage.SyncIdentities(before, hosts);
      && after.latest == (map id | id in latest && id in hosts :: latest[id])
      && after.coverage == (map id | id in coverage && id in hosts :: coverage[id])
      && after.identity == (map id | id in identity && id in hosts :: identity[id])
  {
    hide KeptLatest, KeptCoverage, Configured, Replaced, Interrupted;
    LatestAll(before, hosts);
    CoverageAll(before, hosts);
    IdentitiesKept(before.identity, hosts);
  }

  lemma SyncedRest(before: Store, hosts: Catalogue)
    ensures var after := Usage.SyncIdentities(before, hosts);
      && after == before.(
           identity := after.identity, latest := after.latest, coverage := after.coverage, tcp := after.tcp)
      && after.tcp == map key | key in before.tcp && Configured(hosts, key, before.tcp[key]) :: before.tcp[key]
  {
    hide Configured, Replaced, Interrupted;
  }

  lemma IdentitiesKept(old': map<string, Identity>, hosts: Catalogue)
    ensures (map id | id in old' + Identities(hosts) && id in hosts :: (old' + Identities(hosts))[id])
         == Identities(hosts)
  {
  }

  lemma ReplacedUnlisted(identity: map<string, Identity>, hosts: Catalogue)
    ensures forall id :: id !in hosts ==> Replaced(identity, hosts, id) && Interrupted(identity, hosts, id)
  {
  }

  // ----- the order of rows -----

  lemma LaterTotal(a: int, x: UsageRow, b: int, y: UsageRow)
    requires a != b
    ensures Later(a, x, b, y) || Later(b, y, a, x)
  {
  }

  lemma LaterThanAll(rows: map<int, UsageRow>, id: string, cutoff: int, rest: set<int>, r: int, was: int)
    requires r in rows && was in rows && Later(r, rows[r], was, rows[was])
    requires forall k ::
      k in rows && k !in rest && k != r && rows[k].host == id && rows[k].snapshot.at <= cutoff && k != was ==>
        Later(was, rows[was], k, rows[k])
    ensures forall k :: k in rows && k !in rest && rows[k].host == id && rows[k].snapshot.at <= cutoff && k != r ==>
      Later(r, rows[r], k, rows[k])
  {
  }
}
