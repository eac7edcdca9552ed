/**
 * What is in the usage and TCP tables, told from the run: what was committed, reloaded and pruned
 * (`update_usage`, `prune_history` and `replace_configuration` in src/storage/sqlite/mod.rs,
 * src/storage/sqlite/maintenance.rs and tcp.rs).
 */
module UsageTables {
  import opened Prelude
  import opened Inventory
  import opened Usage
  import opened UsageInv
  import opened UsageRuns

  // ----- one step -----

  /**
   * A poll is logged exactly when it says something else than the latest one; coverage goes on exactly
   * when the poll before it is at most two intervals and a timeout older.
   */
  lemma PollIsKept(s: Store, host: Host, snapshot: Snapshot)
    requires Inv(s)
    ensures var after, id := UpdateUsage(s, host, snapshot), host.id;
      var known := id in s.latest && snapshot == s.latest[id].(at := snapshot.at);
      var allowed := 2 * host.usage.interval + host.usage.timeout;
      var goesOn := id in s.coverage
        && s.coverage[id].observed <= snapshot.at <= s.coverage[id].observed + allowed;
      && after.latest == s.latest[id := snapshot]
      && after.rows == (if known then s.rows else s.rows[s.sequence + 1 := UsageRow(id, snapshot)])
      && after.coverage
         == s.coverage[id := Coverage(if goesOn then s.coverage[id].started else snapshot.at, snapshot.at)]
      && after.floor == s.floor && after.tcp == s.tcp
  {
    Updated(s, host, snapshot);
    hide UpdateUsage, LogChange, HostOk, RowsOk, Distinct, ChangesKept, CatalogueOk;
  }

  /**
   * A reload keeps the latest poll of exactly the hosts that stay at their address, the coverage of
   * those of them that had and have usage enabled, and the results of exactly the TCP checks that are
   * listed at the same address and port.
   */
  lemma ReloadKeepsExactly(s: Store, hosts: Catalogue, id: string, key: (string, string))
    requires CatalogueOk(s)
    ensures var after := Reload(s, hosts);
      var stays := id in s.hosts && id in hosts && s.hosts[id].address == hosts[id].address;
      && (id in after.latest <==> id in s.latest && stays)
      && (id in after.coverage <==>
            id in s.coverage && stays && s.hosts[id].usage.enabled && hosts[id].usage.enabled)
      && (key in after.tcp <==>
            key in s.tcp && key.0 in hosts
            && var host := hosts[key.0];
               host.tcp.enabled && host.address == s.tcp[key].address
               && TcpCheck(key.1, s.tcp[key].port) in host.tcpChecks)
      && (id in after.latest ==> after.latest[id] == s.latest[id])
      && (id in after.coverage ==> after.coverage[id] == s.coverage[id])
      && (key in after.tcp ==> after.tcp[key] == s.tcp[key])
      && after.rows == s.rows && after.floor == s.floor && after.generation == s.generation + 1
  {
  }

  /**
   * Pruning deletes only rows from before the cutoff that a later such row of the host stands in for or
   * whose host has no latest poll; a batch that is not full leaves nothing else from before the cutoff.
   */
  lemma PruneLeaves(s: Store, cutoff: int, gone: set<int>, after: Store)
    requires Pruned(s, cutoff, gone, after)
    ensures forall r :: r in gone ==>
      && r in s.rows && s.rows[r].snapshot.at < cutoff
      && (s.rows[r].host in s.latest ==>
            exists other :: other in s.rows && other != r && s.rows[other].host == s.rows[r].host
                            && s.rows[r].snapshot.at <= s.rows[other].snapshot.at < cutoff)
    ensures |gone| < 5000 ==> forall r, other ::
      && r in after.rows && after.rows[r].snapshot.at < cutoff
      && other in after.rows && after.rows[other].snapshot.at < cutoff
      && after.rows[r].host == after.rows[other].host ==>
        r == other && after.rows[r].host in s.latest
    ensures after.rows == s.rows - gone && |gone| <= 5000
  {
    forall r | r in gone && s.rows[r].host in s.latest
      ensures exists other :: other in s.rows && other != r && s.rows[other].host == s.rows[r].host
                              && s.rows[r].snapshot.at <= s.rows[other].snapshot.at < cutoff
    {
      assert !IsAnchor(s.rows, cutoff, r);
      var other :| other in s.rows && s.rows[other].host == s.rows[r].host && s.rows[other].snapshot.at < cutoff
                   && other != r && !Later(r, s.rows[r], other, s.rows[other]);
    }
  }

  // ----- every run -----

  /** A poll reports both counts and no error, or an error and no counts. */
  predicate WellFormed(snapshot: Snapshot) {
    && (snapshot.status == Reporting <==> snapshot.console.Some?)
    && (snapshot.console.Some? <==> snapshot.remote.Some?)
    && (snapshot.console.Some? <==> snapshot.error.None?)
  }

  /** The step commits a poll of the host: known where it was looked up, well formed and not fenced off. */
  predicate Commits(s: Store, op: Operation, id: string) {
    && op.PollUsage? && op.id == id && op.writer.seen < |s.catalogues| && id in s.catalogues[op.writer.seen]
    && WellFormed(op.snapshot) && (op.writer.token == None || op.writer.token == Some(s.generation))
  }

  /** What a reload or a new process turns the hosts into. */
  function HostsOf(op: Operation): Option<Catalogue> {
    match op
    case ReplaceHosts(hosts) => Some(hosts)
    case StartAgain(hosts) => Some(hosts)
    case _ => None
  }

  /** The polls of a host in the order in which they were committed. */
  ghost function Committed(states: seq<Store>, run: seq<Operation>, n: nat, id: string): seq<Snapshot>
    requires n <= |run| < |states|
  {
    if n == 0 then []
    else
      Committed(states, run, n - 1, id)
      + if Commits(states[n - 1], run[n - 1], id) then [run[n - 1].snapshot] else []
  }

  function Snapshots(polls: seq<Poll>): seq<Snapshot> {
    seq(|polls|, k requires 0 <= k < |polls| => polls[k].snapshot)
  }

  lemma CommitIsDone(s: Store, op: Operation, id: string)
    requires op.PollUsage? && op.id == id && MayWrite(s, op.writer)
    ensures var outcome := PollOutcome(s, op.writer, id, op.snapshot);
      && (Commits(s, op, id) <==> outcome == Done)
      && (outcome == NotFound <==> id !in s.catalogues[op.writer.seen])
      && (outcome == InvalidData <==> id in s.catalogues[op.writer.seen] && !WellFormed(op.snapshot))
  {
  }

  lemma StepTrail(s: Store, op: Operation, after: Store, id: string)
    requires Inv(s) && Next(s, op, after)
    ensures Snapshots(TrailOf(after.trails, id).polls)
         == Snapshots(TrailOf(s.trails, id).polls) + if Commits(s, op, id) then [op.snapshot] else []
  {
    hide HostOk, RowsOk, Distinct, ChangesKept, Configured, PortOf, NextInOrder, UpdateUsage;
    if op.PollUsage? {
      CommitIsDone(s, op, op.id);
      if Commits(s, op, op.id) {
        Updated(s, s.catalogues[op.writer.seen][op.id], op.snapshot);
      }
    }
  }

  /** The polls the inactivity verdict is measured against are exactly those the run committed. */
  lemma {:induction false} TrailIsRun(states: seq<Store>, run: seq<Operation>, i: nat, id: string)
    requires IsRun(states, run) && i <= |run|
    ensures Snapshots(TrailOf(states[i].trails, id).polls) == Committed(states, run, i, id)
  {
    hide Inv, Next, Commits, Snapshots;
    if i == 0 {
      NoTrail(id);
    } else {
      TrailIsRun(states, run, i - 1, id);
      UsageRuns.RunsKeepInv(states, run, i - 1);
      StepTrail(states[i - 1], run[i - 1], states[i], id);
    }
  }

  lemma NoTrail(id: string)
    ensures Snapshots(TrailOf(EMPTY.trails, id).polls) == []
  {
  }

  /** The last poll of a host, and since when it has been covered without a gap or a disturbance. */
  datatype Known = Known(last: Option<Snapshot>, since: Option<int>)

  function KnownAfter(s: Store, op: Operation, known: Known, id: string): Known {
    if Commits(s, op, id) then
      var usage, at := s.catalogues[op.writer.seen][id].usage, op.snapshot.at;
      var goesOn := known.since.Some? && known.last.Some?
        && known.last.value.at <= at <= known.last.value.at + 2 * usage.interval + usage.timeout;
      Known(Some(op.snapshot), if goesOn then known.since else Some(at))
    else
      match HostsOf(op)
      case None => known
      case Some(hosts) =>
        if id !in s.hosts || id !in hosts || s.hosts[id].address != hosts[id].address then Known(None, None)
        else if !s.hosts[id].usage.enabled || !hosts[id].usage.enabled then known.(since := None)
        else known
  }

  ghost function KnownOf(states: seq<Store>, run: seq<Operation>, n: nat, id: string): Known
    requires n <= |run| < |states|
  {
    if n == 0 then Known(None, None)
    else KnownAfter(states[n - 1], run[n - 1], KnownOf(states, run, n - 1, id), id)
  }

  predicate Matches(s: Store, known: Known, id: string) {
    && (known.last == if id in s.latest then Some(s.latest[id]) else None)
    && (known.since == if id in s.coverage then Some(s.coverage[id].started) else None)
    && (id in s.coverage ==> id in s.latest && s.coverage[id].observed == s.latest[id].at)
  }

  lemma PollMatches(s: Store, op: Operation, after: Store, known: Known, id: string)
    requires Inv(s) && Next(s, op, after) && op.PollUsage? && Matches(s, known, id)
    ensures Matches(after, KnownAfter(s, op, known, id), id)
  {
    hide Inv, NextInOrder, UpdateUsage, Snapshot.Valid, WellFormed;
    CommitIsDone(s, op, op.id);
    if Commits(s, op, op.id) {
      SeenHost(s, op.writer, op.id);
      PollIsKept(s, s.catalogues[op.writer.seen][op.id], op.snapshot);
    }
  }

  lemma SeenHost(s: Store, w: Writer, id: string)
    requires Inv(s) && w.seen < |s.catalogues| && id in s.catalogues[w.seen]
    ensures s.catalogues[w.seen][id].id == id && s.catalogues[w.seen][id].Valid()
  {
    hide HostOk, RowsOk, Distinct, ChangesKept, Host.Valid;
  }

  lemma ReloadMatches(s: Store, op: Operation, after: Store, known: Known, id: string)
    requires Inv(s) && Next(s, op, after) && HostsOf(op).Some? && Matches(s, known, id)
    ensures Matches(after, KnownAfter(s, op, known, id), id)
  {
    hide HostOk, RowsOk, Distinct, ChangesKept, Configured, Host.Valid;
  }

  /**
   * In every reachable state the latest row of a host is its last committed poll since a reload last
   * moved or removed it, and its coverage row says since when there has been neither a gap between polls
   * longer than two intervals and a timeout nor a reload that moved, removed or disabled it.
   */
  lemma {:induction false} RowsAreKnown(states: seq<Store>, run: seq<Operation>, i: nat, id: string)
    requires IsRun(states, run) && i <= |run|
    ensures Matches(states[i], KnownOf(states, run, i, id), id)
  {
    hide Inv, Next, Matches, KnownAfter;
    if i == 0 {
      NothingKnown(id);
    } else {
      RowsAreKnown(states, run, i - 1, id);
      UsageRuns.RunsKeepInv(states, run, i - 1);
      var known := KnownOf(states, run, i - 1, id);
      assert Next(states[i - 1], run[i - 1], states[i]);
      if run[i - 1].PollUsage? {
        PollMatches(states[i - 1], run[i - 1], states[i], known, id);
      } else if HostsOf(run[i - 1]).Some? {
        ReloadMatches(states[i - 1], run[i - 1], states[i], known, id);
      } else {
        OthersMatch(states[i - 1], run[i - 1], states[i], known, id);
      }
    }
  }

  lemma NothingKnown(id: string)
    ensures Matches(EMPTY, Known(None, None), id)
  {
  }

  lemma OthersMatch(s: Store, op: Operation, after: Store, known: Known, id: string)
    requires Next(s, op, after) && !op.PollUsage? && HostsOf(op).None? && Matches(s, known, id)
    ensures Matches(after, KnownAfter(s, op, known, id), id)
  {
    hide Prunable, PortOf;
  }

  // ----- the floor and the generation -----

  /** In every reachable state the retention floor is the largest cutoff rows were ever pruned with. */
  lemma {:induction false} FloorIsLargest(states: seq<Store>, run: seq<Operation>, i: nat)
    requires IsRun(states, run) && i <= |run|
    ensures forall j :: 0 <= j < i && run[j].PruneLog? ==>
      states[i].floor.Some? && run[j].cutoff <= states[i].floor.value
    ensures states[i].floor.Some? ==>
      exists j :: 0 <= j < i && run[j].PruneLog? && run[j].cutoff == states[i].floor.value
  {
    hide Next;
    if i > 0 {
      FloorIsLargest(states, run, i - 1);
      FloorStep(states[i - 1], run[i - 1], states[i]);
      if states[i - 1].floor.Some? {
        var j :| 0 <= j < i - 1 && run[j].PruneLog? && run[j].cutoff == states[i - 1].floor.value;
      }
    }
  }

  lemma FloorStep(s: Store, op: Operation, after: Store)
    requires Next(s, op, after)
    ensures after.floor
      == if !op.PruneLog? then s.floor
         else Some(if s.floor.Some? && s.floor.value > op.cutoff then s.floor.value else op.cutoff)
  {
    hide NextInOrder, PortOf, Prunable, UpdateUsage;
    if op.PollUsage? && PollOutcome(s, op.writer, op.id, op.snapshot) == Done {
      Updated(s, s.catalogues[op.writer.seen][op.id], op.snapshot);
    }
  }

  /** How often a process has reloaded so far. */
  function Reloads(run: seq<Operation>): nat {
    if run == [] || run[|run| - 1].StartAgain? then 0
    else Reloads(run[..|run| - 1]) + if run[|run| - 1].ReplaceHosts? then 1 else 0
  }

  /** The generation a writer is fenced by counts the successful reloads of its process. */
  lemma {:induction false} GenerationCounts(states: seq<Store>, run: seq<Operation>, i: nat)
    requires IsRun(states, run) && i <= |run|
    ensures states[i].generation == Reloads(run[..i])
  {
    hide Next;
    if i > 0 {
      GenerationCounts(states, run, i - 1);
      assert run[..i][..i - 1] == run[..i - 1];
      if run[i - 1].StartAgain? {
        StartsAtZero(states[i - 1], run[i - 1], states[i]);
      } else {
        GenerationStep(states[i - 1], run[i - 1], states[i]);
      }
    }
  }

  lemma StartsAtZero(s: Store, op: Operation, after: Store)
    requires Next(s, op, after) && op.StartAgain?
    ensures after.generation == 0
  {
    hide SyncIdentities, Loaded;
  }

  // ----- TCP results -----

  /** The step commits a result of an enabled check, at the address and port it was looked up with. */
  predicate CommitsTcp(s: Store, op: Operation, key: (string, string), row: TcpRow) {
    && op.WriteTcp? && (op.id, op.check) == key && op.writer.seen < |s.catalogues|
    && op.id in s.catalogues[op.writer.seen]
    && (op.writer.token == None || op.writer.token == Some(s.generation))
    && var host := s.catalogues[op.writer.seen][op.id];
       && host.tcp.enabled && TcpCheck(op.check, row.port) in host.tcpChecks
       && row.address == host.address && row.snapshot == op.result
  }

  /** A reload or a new process no longer lists the check at that address and port. */
  predicate Drops(op: Operation, key: (string, string), row: TcpRow) {
    HostsOf(op).Some?
    && var hosts := HostsOf(op).value;
       !(&& key.0 in hosts && hosts[key.0].tcp.enabled && hosts[key.0].address == row.address
         && TcpCheck(key.1, row.port) in hosts[key.0].tcpChecks)
  }

  /** The row of a check after a step. */
  ghost predicate TcpAfter(
    s: Store, op: Operation, key: (string, string), before: Option<TcpRow>, after: Option<TcpRow>)
  {
    if exists row :: CommitsTcp(s, op, key, row) then after.Some? && CommitsTcp(s, op, key, after.value)
    else if before.Some? && !Drops(op, key, before.value) then after == before
    else after == None
  }

  function RowIn(tcp: map<(string, string), TcpRow>, key: (string, string)): Option<TcpRow> {
    if key in tcp then Some(tcp[key]) else None
  }

  lemma {:induction false} OnePort(checks: seq<TcpCheck>, check: string, port: int)
    requires forall i, j :: 0 <= i < j < |checks| ==> checks[i].id != checks[j].id
    requires TcpCheck(check, port) in checks
    ensures exists i :: 0 <= i < |checks| && checks[i].id == check
    ensures FirstPort(checks, check) == port
  {
    var i :| 0 <= i < |checks| && checks[i] == TcpCheck(check, port);
    PortIsConfigured(checks, check);
  }

  lemma PortIsListed(host: Host, check: string, port: int)
    requires host.Valid()
    ensures PortOf(host, check) == Some(port) <==> host.tcp.enabled && TcpCheck(check, port) in host.tcpChecks
  {
    hide FirstPort;
    if PortOf(host, check).Some? {
      PortIsConfigured(host.tcpChecks, check);
      assert TcpCheck(check, FirstPort(host.tcpChecks, check)) in host.tcpChecks;
    }
    if host.tcp.enabled && TcpCheck(check, port) in host.tcpChecks {
      OnePort(host.tcpChecks, check, port);
    }
  }

  /** How a write of a TCP result ends. */
  lemma WriteEnds(s: Store, w: Writer, id: string, check: string)
    requires Inv(s) && MayWrite(s, w)
    ensures var hosts, outcome := s.catalogues[w.seen], TcpOutcome(s, w, id, check);
      && (outcome == NotFound <==> id !in hosts)
      && (outcome == InvalidData <==>
            id in hosts && !(hosts[id].tcp.enabled && exists c :: c in hosts[id].tcpChecks && c.id == check))
      && (outcome == Done ==> w.token == None || w.token == Some(s.generation))
      && (outcome == StaleGeneration ==> w.token.Some? && w.token != Some(s.generation))
  {
    hide Inv, FirstPort;
    if id in s.catalogues[w.seen] {
      var checks := s.catalogues[w.seen][id].tcpChecks;
      if c :| c in checks && c.id == check {
        var i :| 0 <= i < |checks| && checks[i] == c;
      }
      if i :| 0 <= i < |checks| && checks[i].id == check {
        assert checks[i] in checks;
      }
    }
  }

  lemma WriteCommits(s: Store, op: Operation, after: Store, key: (string, string))
    requires Inv(s) && Next(s, op, after) && op.WriteTcp?
    ensures TcpAfter(s, op, key, RowIn(s.tcp, key), RowIn(after.tcp, key))
  {
    hide Inv, PortOf;
    var w := op.writer;
    if op.id in s.catalogues[w.seen] {
      SeenHost(s, w, op.id);
      forall port
        ensures var host := s.catalogues[w.seen][op.id];
          PortOf(host, op.check) == Some(port) <==> host.tcp.enabled && TcpCheck(op.check, port) in host.tcpChecks
      {
        PortIsListed(s.catalogues[w.seen][op.id], op.check, port);
      }
      CommitsOne(s, op, key);
    }
  }

  lemma CommitsOne(s: Store, op: Operation, key: (string, string))
    requires op.WriteTcp? && MayWrite(s, op.writer) && op.id in s.catalogues[op.writer.seen]
    requires forall port ::
      var host := s.catalogues[op.writer.seen][op.id];
      PortOf(host, op.check) == Some(port) <==> host.tcp.enabled && TcpCheck(op.check, port) in host.tcpChecks
    ensures (exists row :: CommitsTcp(s, op, key, row))
      <==> (op.id, op.check) == key && TcpOutcome(s, op.writer, op.id, op.check) == Done
    ensures (op.id, op.check) == key && TcpOutcome(s, op.writer, op.id, op.check) == Done ==>
      var host := s.catalogues[op.writer.seen][op.id];
      CommitsTcp(s, op, key, TcpRow(host.address, PortOf(host, op.check).value, op.result))
  {
    hide PortOf;
    var host := s.catalogues[op.writer.seen][op.id];
    if row: TcpRow :| CommitsTcp(s, op, key, row) {
      assert PortOf(host, op.check) == Some(row.port);
    }
    if (op.id, op.check) == key && TcpOutcome(s, op.writer, op.id, op.check) == Done {
      assert CommitsTcp(s, op, key, TcpRow(host.address, PortOf(host, op.check).value, op.result));
    }
  }

  lemma ReloadDrops(s: Store, op: Operation, after: Store, key: (string, string))
    requires Next(s, op, after) && HostsOf(op).Some?
    ensures TcpAfter(s, op, key, RowIn(s.tcp, key), RowIn(after.tcp, key))
  {
    hide Identities, Replaced, Interrupted, Loaded, Retained, WellKeyed;
  }

  lemma OthersKeepTcp(s: Store, op: Operation, after: Store, key: (string, string))
    requires Next(s, op, after) && !op.WriteTcp? && HostsOf(op).None?
    ensures after.tcp == s.tcp && TcpAfter(s, op, key, RowIn(s.tcp, key), RowIn(after.tcp, key))
  {
    hide NextInOrder, Prunable, UpdateUsage;
    if op.PollUsage? && PollOutcome(s, op.writer, op.id, op.snapshot) == Done {
      Updated(s, s.catalogues[op.writer.seen][op.id], op.snapshot);
    }
  }

  /**
   * At every step of every run: a committed result becomes the row of its check, with the address and
   * port it was looked up with; any other row stays until a reload no longer lists its check there.
   */
  lemma TcpRowsFollow(states: seq<Store>, run: seq<Operation>, i: nat, key: (string, string))
    requires IsRun(states, run) && i < |run|
    ensures TcpAfter(states[i], run[i], key, RowIn(states[i].tcp, key), RowIn(states[i + 1].tcp, key))
  {
    hide Inv, Next, TcpAfter;
    UsageRuns.RunsKeepInv(states, run, i);
    assert Next(states[i], run[i], states[i + 1]);
    if run[i].WriteTcp? {
      WriteCommits(states[i], run[i], states[i + 1], key);
    } else if HostsOf(run[i]).Some? {
      ReloadDrops(states[i], run[i], states[i + 1], key);
    } else {
      OthersKeepTcp(states[i], run[i], states[i + 1], key);
    }
  }
}
