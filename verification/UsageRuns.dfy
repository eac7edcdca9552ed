/**
 * Every interleaving of polls, TCP results, reloads, failed reloads, pruning and restarts, with
 * writers that may be fenced by a generation (`monitor_generation`, `with_inner` and
 * `replace_configuration` in src/storage/sqlite/mod.rs, src/storage/sqlite/tcp.rs).
 */
module UsageRuns {
  import opened Prelude
  import opened Inventory
  import opened Usage
  import opened UsageInv
  import opened Inactivity

  datatype Operation =
    | PollUsage(writer: Writer, id: string, snapshot: Snapshot)
    | WriteTcp(writer: Writer, id: string, check: string, result: TcpSnapshot)
    | ReplaceHosts(hosts: Catalogue)
    | FailToReplace
    | PruneLog(cutoff: int, gone: set<int>)
    | StartAgain(hosts: Catalogue)

  ghost predicate Next(s: Store, op: Operation, after: Store) {
    match op
    case PollUsage(w, id, snapshot) =>
      MayWrite(s, w) && NextInOrder(s, id, snapshot.at) && after == PollBy(s, w, id, snapshot)
    case WriteTcp(w, id, check, snapshot) => MayWrite(s, w) && after == TcpBy(s, w, id, check, snapshot)
    case ReplaceHosts(hosts) => WellKeyed(hosts) && after == Reload(s, hosts)
    case FailToReplace => after == s
    case PruneLog(cutoff, gone) => Pruned(s, cutoff, gone, after)
    case StartAgain(hosts) => WellKeyed(hosts) && after == Restart(s, hosts)
  }

  const EMPTY := Store(map[], 0, map[], map[], map[], map[], 0, None, map[], map[], map[], map[], [map[]])

  /** `states[i + 1]` follows from `states[i]` by `run[i]`, from empty tables. */
  ghost predicate IsRun(states: seq<Store>, run: seq<Operation>) {
    && |states| == |run| + 1
    && states[0] == EMPTY
    && forall i :: 0 <= i < |run| ==> Next(states[i], run[i], states[i + 1])
  }

  lemma EmptyInv()
    ensures Inv(EMPTY)
  {
  }

  lemma NextKeepsInv(s: Store, op: Operation, after: Store)
    requires Inv(s) && Next(s, op, after)
    ensures Inv(after)
  {
    hide Inv, WellKeyed, NextInOrder, PollBy, TcpBy, Reload, Restart, Pruned;
    match op
    case PollUsage(w, id, snapshot) => PollByKeepsInv(s, w, id, snapshot);
    case WriteTcp(w, id, check, snapshot) => TcpByKeepsInv(s, w, id, check, snapshot);
    case ReplaceHosts(hosts) => ReloadKeepsInv(s, hosts);
    case FailToReplace =>
    case PruneLog(cutoff, gone) => PruneKeepsInv(s, cutoff, gone, after);
    case StartAgain(hosts) => RestartKeepsInv(s, hosts);
  }

  lemma {:induction false} RunsKeepInv(states: seq<Store>, run: seq<Operation>, i: nat)
    requires IsRun(states, run) && i <= |run|
    ensures Inv(states[i])
  {
    hide Inv, Next;
    if i == 0 {
      EmptyInv();
    } else {
      RunsKeepInv(states, run, i - 1);
      NextKeepsInv(states[i - 1], run[i - 1], states[i]);
    }
  }

  // ----- the cache -----

  /** In every reachable state the change-detection cache is the table, fenced writers or not. */
  lemma CacheIsTable(states: seq<Store>, run: seq<Operation>, i: nat)
    requires IsRun(states, run) && i <= |run|
    ensures states[i].cache == states[i].latest
  {
    hide Next, HostOk, RowsOk, Distinct, ChangesKept, CatalogueOk;
    RunsKeepInv(states, run, i);
  }

  // ----- inactivity -----

  /**
   * Main result over whole runs: in every reachable state the filter's decision about a host with a
   * latest row, from what is stored, is what the filter means over every poll of the host.
   */
  lemma VerdictOverRuns(
    states: seq<Store>, run: seq<Operation>, i: nat, host: Host, f: UsageFilter, console: Option<StateAtCutoff>,
    users: Option<StateAtCutoff>)
    requires IsRun(states, run) && i <= |run| && host.id in states[i].latest
    requires f.inactiveConsoleFor.Some? ==>
      StateAtOrBefore(states[i].rows, host.id, f.now - f.inactiveConsoleFor.value, ConsoleOnly, console)
    requires f.noUsersFor.Some? ==>
      StateAtOrBefore(states[i].rows, host.id, f.now - f.noUsersFor.value, AnyUser, users)
    ensures Decides(states[i], host, f, console, users) <==> FilterHolds(states[i], host, f)
  {
    hide Next, Inv, StateAtOrBefore, Decides, FilterHolds;
    RunsKeepInv(states, run, i);
    FilterIsExact(states[i], host, f, console, users);
  }

  // ----- coverage -----

  /** The reload neither moved, removed nor disabled the host, and it was enabled before. */
  predicate Undisturbed(old': Catalogue, new': Catalogue, id: string) {
    && id in old' && id in new' && old'[id].address == new'[id].address
    && old'[id].usage.enabled && new'[id].usage.enabled
  }

  predicate KeepsMeaning(s: Store, op: Operation, id: string) {
    match op
    case ReplaceHosts(hosts) => Undisturbed(s.hosts, hosts, id)
    case StartAgain(hosts) => Undisturbed(s.hosts, hosts, id)
    case _ => true
  }

  /** `op` is the poll that became number `n` of the host. */
  predicate IsPoll(s: Store, op: Operation, id: string, n: nat, at: int) {
    && op.PollUsage? && MayWrite(s, op.writer) && op.id == id && op.snapshot.at == at
    && PollOutcome(s, op.writer, id, op.snapshot) == Done
    && |TrailOf(s.trails, id).polls| == n
  }

  lemma CoverageStep(s: Store, op: Operation, after: Store, id: string)
    requires Inv(s) && Next(s, op, after) && id in after.coverage && id in after.trails
    ensures || (IsPoll(s, op, id, after.trails[id].first, after.coverage[id].started))
            || (&& KeepsMeaning(s, op, id) && id in s.coverage && id in s.trails
                && s.coverage[id].started == after.coverage[id].started && s.trails[id].first == after.trails[id].first)
  {
    hide RowsOk, Distinct, ChangesKept, Configured, PortOf, IsAnchor, TrailOk, LatestOk, CoverageOk, NextInOrder;
    assert HostOk(s, id);
  }

  /**
   * A coverage row spans the polls since one particular poll: every reload and restart since
   * kept the host at its address and enabled.
   */
  lemma {:induction false} CoverageSpansRun(states: seq<Store>, run: seq<Operation>, i: nat, id: string)
    returns (j: nat)
    requires IsRun(states, run) && i <= |run| && id in states[i].coverage
    ensures Inv(states[i]) && id in states[i].trails && CoverageOk(states[i].trails[id], states[i].coverage[id])
    ensures j < i && IsPoll(states[j], run[j], id, states[i].trails[id].first, states[i].coverage[id].started)
    ensures forall m :: j < m < i ==> KeepsMeaning(states[m], run[m], id)
  {
    hide Next, RowsOk, Distinct, ChangesKept, CatalogueOk, LatestOk, CoverageOk, TrailOk, IsPoll, KeepsMeaning;
    RunsKeepInv(states, run, i);
    assert HostOk(states[i], id);
    if i == 0 {
      assert false;
    }
    RunsKeepInv(states, run, i - 1);
    CoverageStep(states[i - 1], run[i - 1], states[i], id);
    if IsPoll(states[i - 1], run[i - 1], id, states[i].trails[id].first, states[i].coverage[id].started) {
      j := i - 1;
    } else {
      j := CoverageSpansRun(states, run, i - 1, id);
    }
  }

  // ----- fences -----

  predicate Fenced(op: Operation) {
    (op.PollUsage? || op.WriteTcp?) ==> op.writer.token.Some?
  }

  /** The fence and catalogue reading of a writing step. */
  predicate Writes(op: Operation, w: Writer) {
    (op.PollUsage? || op.WriteTcp?) && op.writer == w
  }

  lemma CurrentSeen(s: Store, w: Writer)
    requires CatalogueOk(s) && MayWrite(s, w) && w.token.Some? && !Stale(s, w)
    ensures w.seen == s.generation && s.catalogues[w.seen] == s.hosts
  {
  }

  /** In every run, a fenced write that is not turned away used the catalogue in force at its commit. */
  lemma CommitIsCurrent(states: seq<Store>, run: seq<Operation>, i: nat, w: Writer)
    requires IsRun(states, run) && i < |run| && Writes(run[i], w) && w.token.Some? && !Stale(states[i], w)
    ensures w.seen < |states[i].catalogues| && states[i].catalogues[w.seen] == states[i].hosts
  {
    hide HostOk, RowsOk, Distinct, ChangesKept, CatalogueOk, UpdateUsage, TcpBy, NextInOrder;
    RunsKeepInv(states, run, i);
    assert Next(states[i], run[i], states[i + 1]);
    CurrentSeen(states[i], w);
  }

  lemma GenerationStep(s: Store, op: Operation, after: Store)
    requires Next(s, op, after) && !op.StartAgain?
    ensures after.generation == if op.ReplaceHosts? then s.generation + 1 else s.generation
  {
    hide UpdateUsage, SyncIdentities, PortOf, NextInOrder, WellKeyed, Prunable;
    match op
    case PollUsage(w, id, snapshot) =>
      if PollOutcome(s, w, id, snapshot) == Done {
        Updated(s, s.catalogues[w.seen][id], snapshot);
      }
    case ReplaceHosts(hosts) => SyncFields(s, hosts);
    case _ =>
  }

  /** Within one process, a successful reload turns away for good every write fenced before it. */
  lemma {:induction false} ReloadFencesWriters(states: seq<Store>, run: seq<Operation>, i: nat, j: nat, w: Writer)
    requires IsRun(states, run) && i < j <= |run| && run[i].ReplaceHosts?
    requires forall k :: i < k < j ==> !run[k].StartAgain?
    requires w.token.Some? && w.token.value <= states[i].generation
    ensures states[i].generation < states[j].generation && Stale(states[j], w)
  {
    hide Next;
    GenerationStep(states[j - 1], run[j - 1], states[j]);
    if i + 1 < j {
      ReloadFencesWriters(states, run, i, j - 1, w);
    }
  }

  /** Every stored TCP result belongs to an enabled check of a configured host, at its address and port. */
  ghost predicate RowsConfigured(s: Store) {
    forall key :: key in s.tcp ==> Configured(s.hosts, key, s.tcp[key])
  }

  lemma {:induction false} PortIsConfigured(checks: seq<TcpCheck>, check: string)
    requires exists i :: 0 <= i < |checks| && checks[i].id == check
    ensures exists i :: 0 <= i < |checks| && checks[i] == TcpCheck(check, FirstPort(checks, check))
  {
    if checks[0].id != check {
      var i :| 0 <= i < |checks| && checks[i].id == check;
      assert checks[1..][i - 1] == checks[i];
      PortIsConfigured(checks[1..], check);
      var k :| 0 <= k < |checks[1..]| && checks[1..][k] == TcpCheck(check, FirstPort(checks[1..], check));
      assert checks[k + 1] == checks[1..][k];
    } else {
      assert checks[0] == TcpCheck(check, FirstPort(checks, check));
    }
  }

  const ANY_RESULT := Connected(0, 1.0)

  /** The catalogue in force still has the check where the writer saw it. */
  predicate StillThere(s: Store, w: Writer, id: string, check: string)
    requires MayWrite(s, w)
  {
    && id in s.catalogues[w.seen] && PortOf(s.catalogues[w.seen][id], check).Some?
    && var host := s.catalogues[w.seen][id];
       Configured(s.hosts, (id, check), TcpRow(host.address, PortOf(host, check).value, ANY_RESULT))
  }

  lemma SameTarget(hosts: Catalogue, key: (string, string), a: TcpRow, b: TcpRow)
    requires a.address == b.address && a.port == b.port
    ensures Configured(hosts, key, a) <==> Configured(hosts, key, b)
  {
  }

  /** A TCP write keeps the rows configured exactly when it is turned away or its target is still there. */
  lemma WriteKeepsConfigured(s: Store, w: Writer, id: string, check: string, snapshot: TcpSnapshot)
    requires CatalogueOk(s) && MayWrite(s, w) && RowsConfigured(s)
    ensures RowsConfigured(TcpBy(s, w, id, check, snapshot))
      <==> TcpOutcome(s, w, id, check) != Done || StillThere(s, w, id, check)
  {
    hide Configured, PortOf;
    if TcpOutcome(s, w, id, check) == Done {
      var host, after := s.catalogues[w.seen][id], TcpBy(s, w, id, check, snapshot);
      SameTarget(s.hosts, (id, check), TcpRow(host.address, PortOf(host, check).value, ANY_RESULT),
                 TcpRow(host.address, PortOf(host, check).value, snapshot));
      assert (id, check) in after.tcp;
    }
  }

  /** The target of a fenced write is always still there. */
  lemma FencedTargetIsThere(s: Store, w: Writer, id: string, check: string)
    requires CatalogueOk(s) && MayWrite(s, w) && w.token.Some? && TcpOutcome(s, w, id, check) == Done
    ensures StillThere(s, w, id, check)
  {
    CurrentSeen(s, w);
    PortIsConfigured(s.hosts[id].tcpChecks, check);
  }

  lemma NextKeepsConfigured(s: Store, op: Operation, after: Store)
    requires Inv(s) && RowsConfigured(s) && Next(s, op, after) && Fenced(op)
    ensures RowsConfigured(after)
  {
    hide HostOk, RowsOk, Distinct, ChangesKept, Configured, PortOf, NextInOrder, Prunable, StillThere;
    match op
    case WriteTcp(w, id, check, snapshot) =>
      if TcpOutcome(s, w, id, check) == Done {
        FencedTargetIsThere(s, w, id, check);
      }
      WriteKeepsConfigured(s, w, id, check, snapshot);
    case _ =>
  }

  /** With fenced writers, in every reachable state every stored TCP result is of a configured target. */
  lemma {:induction false} FencedRowsConfigured(states: seq<Store>, run: seq<Operation>, i: nat)
    requires IsRun(states, run) && i <= |run| && forall k :: 0 <= k < |run| ==> Fenced(run[k])
    ensures RowsConfigured(states[i])
  {
    hide Next, Inv, Configured;
    if i > 0 {
      FencedRowsConfigured(states, run, i - 1);
      RunsKeepInv(states, run, i - 1);
      NextKeepsConfigured(states[i - 1], run[i - 1], states[i]);
    }
  }

  // ----- why the fence is needed -----

  function Router(port: int): Host {
    var on := Module(true, 60_000, 1_000);
    Host("r1", "192.0.2.1", "Router 1", [], on, on, on, [TcpCheck("ssh", port)])
  }

  lemma RouterPort(port: int)
    ensures Router(port).Valid() && PortOf(Router(port), "ssh") == Some(port)
  {
    assert Router(port).tcpChecks[0].id == "ssh";
  }

  lemma RouterMoved(port: int, key: (string, string), row: TcpRow)
    requires row.port != port && key.0 == "r1"
    ensures !Configured(map["r1" := Router(port)], key, row)
  {
  }

  /** Without a fence, a write begun before a reload stores a result for a port no longer configured. */
  lemma UnfencedWriteMismatches() returns (states: seq<Store>, run: seq<Operation>)
    ensures IsRun(states, run) && !RowsConfigured(states[|run|])
    ensures forall k :: 0 <= k < |run| ==>
      Fenced(run[k]) || run[k] == WriteTcp(Writer(None, 0), "r1", "ssh", ANY_RESULT)
  {
    RouterPort(22);
    RouterPort(2222);
    hide PortOf, SyncIdentities, Configured;
    var first, second := map["r1" := Router(22)], map["r1" := Router(2222)];
    var write := WriteTcp(Writer(None, 0), "r1", "ssh", ANY_RESULT);
    run := [StartAgain(first), ReplaceHosts(second), write];
    var a := Restart(EMPTY, first);
    SyncFields(EMPTY, first);
    SyncFields(a, second);
    var b := Reload(a, second);
    var c := TcpBy(b, write.writer, "r1", "ssh", ANY_RESULT);
    states := [EMPTY, a, b, c];
    assert c.tcp[("r1", "ssh")] == TcpRow("192.0.2.1", 22, ANY_RESULT);
    RouterMoved(2222, ("r1", "ssh"), c.tcp[("r1", "ssh")]);
  }
}
