/**
 * Usage polls and what is kept of them: the latest snapshot, the change log, the coverage row
 * and the retention floor (`update_usage` and `prune_history` in src/storage/sqlite/mod.rs,
 * src/storage/sqlite/maintenance.rs, src/domain/usage.rs).
 */
module Usage {
  import opened Prelude
  import opened Inventory
  import HistoryStats

  datatype Status = Reporting | Failed

  datatype Snapshot = Snapshot(
    at: int, status: Status, console: Option<nat>, remote: Option<nat>, error: Option<string>)
  {
    predicate Valid() {
      match status
      case Reporting => console.Some? && remote.Some? && error.None?
      case Failed => console.None? && remote.None? && error.Some?
    }

    predicate DiffersFrom(previous: Snapshot) {
      || status != previous.status
      || console != previous.console
      || remote != previous.remote
      || error != previous.error
    }

    /** What a poll reports to the history. */
    function Sample(): HistoryStats.Observation {
      HistoryStats.Observation(
        if status == Reporting then "up" else "unknown", status == Reporting, None, console, remote, error)
    }
  }

  /** A completed TCP attempt: how long it took, or why it failed. */
  datatype TcpSnapshot = Connected(at: int, duration: real) | Unreachable(at: int, reason: string)
  {
    function Sample(): HistoryStats.Observation {
      match this
      case Connected(_, duration) => HistoryStats.Observation("up", true, Some(duration), None, None, None)
      case Unreachable(_, reason) => HistoryStats.Observation("down", false, None, None, None, Some(reason))
    }
  }

  datatype Coverage = Coverage(started: int, observed: int)

  datatype Identity = Identity(address: string, usageEnabled: bool)

  datatype UsageRow = UsageRow(host: string, snapshot: Snapshot)

  datatype TcpRow = TcpRow(address: string, port: int, snapshot: TcpSnapshot)

  type Catalogue = map<string, Host>

  // ----- the full log -----

  /** One committed poll: the change row it inserted, if any, and the gap its host's settings allowed. */
  datatype Poll = Poll(snapshot: Snapshot, row: Option<int>, allowance: int)

  /**
   * Every poll of one host.  `born` is the poll that created the current latest row, `first` the
   * poll the coverage row starts at.
   */
  datatype Trail = Trail(polls: seq<Poll>, born: nat, first: nat)

  const NO_POLLS := Trail([], 0, 0)

  /** The tables, the in-memory cache and catalogue; `trails`, `places` and `catalogues` are not stored. */
  datatype Store = Store(
    hosts: Catalogue,
    generation: nat,
    identity: map<string, Identity>,
    latest: map<string, Snapshot>,
    coverage: map<string, Coverage>,
    rows: map<int, UsageRow>,
    sequence: int,
    floor: Option<int>,
    tcp: map<(string, string), TcpRow>,
    cache: map<string, Snapshot>,
    trails: map<string, Trail>,
    places: map<int, nat>,
    catalogues: seq<Catalogue>)

  function TrailOf(trails: map<string, Trail>, id: string): Trail {
    if id in trails then trails[id] else NO_POLLS
  }

  // ----- one poll -----

  /** An observation is current for two intervals and a timeout (src/domain/host.rs:78-91). */
  predicate IsFresh(observed: int, allowance: int, now: int) {
    observed <= now && now - observed <= allowance
  }

  /** The coverage row goes on if the previous poll is still fresh, else it starts again. */
  function Covered(coverage: map<string, Coverage>, id: string, at: int, allowance: int): Coverage {
    if id in coverage && IsFresh(coverage[id].observed, allowance, at) then Coverage(coverage[id].started, at)
    else Coverage(at, at)
  }

  predicate Changed(cache: map<string, Snapshot>, id: string, snapshot: Snapshot) {
    id !in cache || snapshot.DiffersFrom(cache[id])
  }

  function Extend(s: Store, id: string, snapshot: Snapshot, allowance: int): (t: Trail) {
    var t := TrailOf(s.trails, id);
    var row := if Changed(s.cache, id, snapshot) then Some(s.sequence + 1) else None;
    Trail(t.polls + [Poll(snapshot, row, allowance)],
          if id in s.latest then t.born else |t.polls|,
          if id in s.coverage && IsFresh(s.coverage[id].observed, allowance, snapshot.at) then t.first else |t.polls|)
  }

  /** A change row, when the snapshot differs from the cached one. */
  function LogChange(s: Store, id: string, snapshot: Snapshot): Store {
    if Changed(s.cache, id, snapshot) then
      var row := s.sequence + 1;
      s.(rows := s.rows[row := UsageRow(id, snapshot)],
         sequence := row,
         places := s.places[row := |TrailOf(s.trails, id).polls|])
    else s
  }

  function UpdateUsage(s: Store, host: Host, snapshot: Snapshot): Store {
    var id, allowance := host.id, Freshness(host.usage.interval, host.usage.timeout);
    LogChange(s, id, snapshot).(
      coverage := s.coverage[id := Covered(s.coverage, id, snapshot.at, allowance)],
      latest := s.latest[id := snapshot],
      cache := s.cache[id := snapshot],
      trails := s.trails[id := Extend(s, id, snapshot, allowance)])
  }

  // ----- pruning the change log -----

  predicate Later(a: int, x: UsageRow, b: int, y: UsageRow) {
    x.snapshot.at > y.snapshot.at || (x.snapshot.at == y.snapshot.at && a > b)
  }

  /** The last row of its host before the cutoff. */
  predicate IsAnchor(rows: map<int, UsageRow>, cutoff: int, r: int) {
    && r in rows && rows[r].snapshot.at < cutoff
    && forall other ::
         other in rows && rows[other].host == rows[r].host && rows[other].snapshot.at < cutoff && other != r ==>
           Later(r, rows[r], other, rows[other])
  }

  function Prunable(s: Store, cutoff: int): set<int> {
    set r | r in s.rows && s.rows[r].snapshot.at < cutoff
            && (s.rows[r].host !in s.latest || !IsAnchor(s.rows, cutoff, r))
  }

  function RaisedFloor(floor: Option<int>, cutoff: int): Option<int> {
    Some(if floor.Some? then Max(floor.value, cutoff) else cutoff)
  }

  const BATCH := 5000

  /** `gone` is the batch the deletion picked. */
  ghost predicate Pruned(s: Store, cutoff: int, gone: set<int>, after: Store) {
    && IsBatch(gone, Prunable(s, cutoff), BATCH)
    && after == s.(rows := s.rows - gone, places := s.places - gone, floor := RaisedFloor(s.floor, cutoff))
  }

  // ----- replacing the catalogue -----

  /** The host now means something else than the identity on record. */
  predicate Replaced(identity: map<string, Identity>, hosts: Catalogue, id: string) {
    id !in hosts || id !in identity || identity[id].address != hosts[id].address
  }

  /** No claim about the time before may survive. */
  predicate Interrupted(identity: map<string, Identity>, hosts: Catalogue, id: string) {
    Replaced(identity, hosts, id) || !hosts[id].usage.enabled || !identity[id].usageEnabled
  }

  function Identities(hosts: Catalogue): map<string, Identity> {
    map id | id in hosts :: Identity(hosts[id].address, hosts[id].usage.enabled)
  }

  predicate Configured(hosts: Catalogue, key: (string, string), row: TcpRow) {
    key.0 in hosts && hosts[key.0].tcp.enabled && hosts[key.0].address == row.address
    && exists i :: 0 <= i < |hosts[key.0].tcpChecks| && hosts[key.0].tcpChecks[i] == TcpCheck(key.1, row.port)
  }

  /** `sync_identities_in_transaction`: drop what the new catalogue no longer stands behind. */
  function SyncIdentities(s: Store, hosts: Catalogue): Store {
    s.(identity := Identities(hosts),
       latest := map id | id in s.latest && !Replaced(s.identity, hosts, id) :: s.latest[id],
       coverage := map id | id in s.coverage && !Interrupted(s.identity, hosts, id) :: s.coverage[id],
       tcp := map key | key in s.tcp && Configured(hosts, key, s.tcp[key]) :: s.tcp[key])
  }

  /** `usage.retain`: hosts in both catalogues, at the same address. */
  function Retained(cache: map<string, Snapshot>, current: Catalogue, hosts: Catalogue): map<string, Snapshot> {
    map id | id in cache && id in current && id in hosts && current[id].address == hosts[id].address :: cache[id]
  }

  function Loaded(latest: map<string, Snapshot>, hosts: Catalogue): map<string, Snapshot> {
    map id | id in latest && id in hosts :: latest[id]
  }

  /** The in-memory half of `replace_configuration`: a new generation, and no cached usage of a replaced host. */
  function Publish(s: Store, hosts: Catalogue): Store {
    s.(hosts := hosts,
       generation := s.generation + 1,
       cache := Retained(s.cache, s.hosts, hosts),
       catalogues := s.catalogues + [hosts])
  }

  /** `replace_configuration`, once its transaction has committed. */
  function Reload(s: Store, hosts: Catalogue): Store {
    Publish(SyncIdentities(s, hosts), hosts)
  }

  /** The cache is read back from the table. */
  function Load(s: Store, hosts: Catalogue): Store {
    s.(hosts := hosts, generation := 0, cache := Loaded(s.latest, hosts), catalogues := [hosts])
  }

  /** `new_initialized`: a new process over the same tables. */
  function Restart(s: Store, hosts: Catalogue): Store {
    Load(SyncIdentities(s, hosts), hosts)
  }

  // ----- writers -----

  /**
   * Who writes: the generation of the fence, if the writer carries one, and the generation of
   * the catalogue it looked its host up in, some time after it was handed the fence.
   */
  datatype Writer = Writer(token: Option<nat>, seen: nat)

  predicate MayWrite(s: Store, w: Writer) {
    w.seen <= s.generation && w.seen < |s.catalogues| && (w.token.Some? ==> w.token.value <= w.seen)
  }

  predicate Stale(s: Store, w: Writer) {
    w.token.Some? && w.token.value != s.generation
  }

  datatype Outcome = Done | NotFound | InvalidData | StaleGeneration

  function PollOutcome(s: Store, w: Writer, id: string, snapshot: Snapshot): Outcome
    requires MayWrite(s, w)
  {
    if id !in s.catalogues[w.seen] then NotFound
    else if !snapshot.Valid() then InvalidData
    else if Stale(s, w) then StaleGeneration
    else Done
  }

  function PollBy(s: Store, w: Writer, id: string, snapshot: Snapshot): Store
    requires MayWrite(s, w)
  {
    if PollOutcome(s, w, id, snapshot) == Done then UpdateUsage(s, s.catalogues[w.seen][id], snapshot) else s
  }

  /** The port of a check, if the host has it and TCP checks are enabled. */
  function PortOf(host: Host, check: string): Option<int> {
    if host.tcp.enabled && exists i :: 0 <= i < |host.tcpChecks| && host.tcpChecks[i].id == check then
      Some(FirstPort(host.tcpChecks, check))
    else None
  }

  function FirstPort(checks: seq<TcpCheck>, check: string): int
    requires exists i :: 0 <= i < |checks| && checks[i].id == check
  {
    if checks[0].id == check then checks[0].port
    else
      assert exists i :: 0 <= i < |checks[1..]| && checks[1..][i].id == check by {
        var i :| 0 <= i < |checks| && checks[i].id == check;
        assert checks[1..][i - 1] == checks[i];
      }
      FirstPort(checks[1..], check)
  }

  function TcpOutcome(s: Store, w: Writer, id: string, check: string): Outcome
    requires MayWrite(s, w)
  {
    if id !in s.catalogues[w.seen] then NotFound
    else if PortOf(s.catalogues[w.seen][id], check).None? then InvalidData
    else if Stale(s, w) then StaleGeneration
    else Done
  }

  function TcpBy(s: Store, w: Writer, id: string, check: string, snapshot: TcpSnapshot): Store
    requires MayWrite(s, w)
  {
    if TcpOutcome(s, w, id, check) != Done then s
    else
      var host := s.catalogues[w.seen][id];
      s.(tcp := s.tcp[(host.id, check) := TcpRow(host.address, PortOf(host, check).value, snapshot)])
  }
}
