/**
 * Which epochs are live, and what they say of their check: exactly the checks enabled in the
 * inventory, as configured (`sync_epochs`, src/storage/sqlite/history/ingest.rs:3-87), after a
 * synchronisation and until the next one.
 */
module LiveChecks {
  import opened Prelude
  import opened History
  import opened Tiers
  import opened Ingest
  import opened Inventory
  import opened Sync
  import opened Untouched
  import opened Archive
  import HistoryRuns
  import Rollup
  import Prune

  // ----- what the inventory says -----

  /** The host has the check enabled: ping and usage once a host, TCP once for each listed check. */
  predicate Enabled(host: Host, key: CheckKey) {
    && key.host == host.id
    && match key.kind
       case "icmp" => host.icmp.enabled && key.check == ""
       case "usage" => host.usage.enabled && key.check == ""
       case "tcp" => host.tcp.enabled && exists c :: c in host.tcpChecks && c.id == key.check
       case _ => false
  }

  /** The settings of the host that a check of a kind is made with. */
  function SettingsOf(host: Host, kind: string): Module {
    if kind == "icmp" then host.icmp else if kind == "usage" then host.usage else host.tcp
  }

  /** The signature names the address, name, groups, interval, timeout and port configured for the check. */
  ghost predicate SignedBy(s: Signature, host: Host, key: CheckKey) {
    && s.address == host.address && s.name == host.name
    && (forall g :: g in s.groups <==> g in host.groups)
    && s.interval == SettingsOf(host, key.kind).interval && s.timeout == SettingsOf(host, key.kind).timeout
    && if key.kind == "tcp" then TcpCheck(key.check, s.port) in host.tcpChecks else s.port == 0
  }

  /** An epoch shows the name and groups it was signed with and trusts a result for two intervals and a timeout. */
  predicate Signed(e: Epoch) {
    && e.name == e.signature.name && e.groups == e.signature.groups
    && e.freshness == 2 * e.signature.interval + e.signature.timeout
  }

  ghost predicate AllSigned(h: History) {
    forall id :: id in h.epochs ==> Signed(h.epochs[id])
  }

  /** A wanted check is one of a host, as configured there. */
  ghost predicate Configured(w: Wanted, host: Host) {
    && Enabled(host, w.key) && SignedBy(w.signature, host, w.key)
    && w.name == w.signature.name && w.groups == w.signature.groups
    && w.freshness == 2 * w.signature.interval + w.signature.timeout
  }

  lemma {:induction false} TcpWantsAre(host: Host, n: nat, w: Wanted)
    requires n <= |host.tcpChecks|
    ensures w in TcpWants(host, n) <==>
      exists i :: 0 <= i < n && w == Want(host, "tcp", host.tcpChecks[i].id, host.tcp, host.tcpChecks[i].port)
  {
    hide Want;
    if n > 0 {
      TcpWantsAre(host, n - 1, w);
    }
  }

  lemma HostWantsAre(host: Host, w: Wanted)
    requires w in HostWants(host)
    ensures Configured(w, host)
  {
    TcpWantsAre(host, |host.tcpChecks|, w);
    assert "icmp"[0] != "usage"[0] && "icmp"[0] != "tcp"[0] && "usage"[0] != "tcp"[0];
  }

  lemma EnabledIsWanted(host: Host, key: CheckKey) returns (w: Wanted)
    requires Enabled(host, key)
    ensures w in HostWants(host) && w.key == key
  {
    if key.kind == "tcp" {
      var i :| 0 <= i < |host.tcpChecks| && host.tcpChecks[i].id == key.check;
      w := Want(host, "tcp", host.tcpChecks[i].id, host.tcp, host.tcpChecks[i].port);
      TcpWantsAre(host, |host.tcpChecks|, w);
    } else {
      w := Want(host, key.kind, "", SettingsOf(host, key.kind), 0);
    }
  }

  lemma {:induction false} WantsAre(hosts: seq<Host>, w: Wanted)
    ensures w in Wants(hosts) <==> exists i :: 0 <= i < |hosts| && w in HostWants(hosts[i])
  {
    hide HostWants;
    if hosts != [] {
      WantsAre(hosts[1..], w);
      if i :| 0 <= i < |hosts| && w in HostWants(hosts[i]) {
        assert i > 0 ==> hosts[1..][i - 1] == hosts[i];
      }
      if i :| 0 <= i < |hosts[1..]| && w in HostWants(hosts[1..][i]) {
        assert hosts[i + 1] == hosts[1..][i];
      }
    }
  }

  // ----- what one synchronisation does to each epoch -----

  function Ended(e: Epoch, now: int): Epoch {
    e.(ended := Some(Max(e.started, now)), last := None)
  }

  function Begun(w: Wanted, now: int): Epoch {
    Epoch(w.key, w.name, w.groups, w.signature, now, None, w.freshness, None)
  }

  /** Every epoch is kept as it is or, if live, ended now. */
  ghost predicate KeptOrEnded(h: History, after: History, now: int) {
    forall id :: id in h.epochs ==>
      && id in after.epochs
      && (after.epochs[id] == h.epochs[id]
          || (h.epochs[id].ended.None? && after.epochs[id] == Ended(h.epochs[id], now)))
  }

  /** What is new was asked for and has begun now. */
  ghost predicate OnlyBegun(h: History, after: History, wanted: seq<Wanted>, now: int) {
    forall id :: id in after.epochs && id !in h.epochs ==> exists w :: w in wanted && after.epochs[id] == Begun(w, now)
  }

  lemma RetireChanges(h: History, key: CheckKey, now: int)
    ensures var after := Retire(h, key, now);
      && KeptOrEnded(h, after, now) && after.epochs.Keys == h.epochs.Keys
      && forall id :: id in h.epochs && h.epochs[id].key != key ==> after.epochs[id] == h.epochs[id]
  {
    hide FlushTail;
  }

  lemma OpenChanges(h: History, id: int, w: Wanted, now: int)
    requires id !in h.epochs
    ensures Open(h, id, w, now).epochs == h.epochs[id := Begun(w, now)]
  {
  }

  lemma OneChanges(h: History, w: Wanted, now: int)
    ensures var after := SyncOne(h, w, now);
      && KeptOrEnded(h, after, now) && OnlyBegun(h, after, [w], now)
      && forall id :: id in h.epochs && h.epochs[id].key != w.key ==> after.epochs[id] == h.epochs[id]
  {
    hide Retire, Open, Begun, Ended, Current;
    if !Current(h.epochs, w) {
      var retired := Retire(h, w.key, now);
      RetireChanges(h, w.key, now);
      OpenChanges(retired, NextId(retired.epochs), w, now);
      assert w in [w];
    }
  }

  lemma {:induction false} AllChange(h: History, wanted: seq<Wanted>, n: nat, now: int)
    requires DistinctKeys(wanted) && n <= |wanted|
    ensures var after := SyncAll(h, wanted, n, now);
      KeptOrEnded(h, after, now) && OnlyBegun(h, after, wanted[..n], now)
  {
    hide SyncOne;
    if n > 0 {
      var before, w := SyncAll(h, wanted, n - 1, now), wanted[n - 1];
      var after := SyncOne(before, w, now);
      AllChange(h, wanted, n - 1, now);
      OneChanges(before, w, now);
      forall id | id in after.epochs && id !in h.epochs
        ensures exists x :: x in wanted[..n] && after.epochs[id] == Begun(x, now)
      {
        if id in before.epochs {
          var x :| x in wanted[..n - 1] && before.epochs[id] == Begun(x, now);
          var i :| 0 <= i < n - 1 && wanted[i] == x;
          assert wanted[..n][i] == x;
        } else {
          assert wanted[..n][n - 1] == w;
        }
      }
    }
  }

  lemma {:induction false} StaleChange(h: History, wanted: seq<Wanted>, order: seq<int>, n: nat, now: int)
    requires n <= |order|
    ensures var after := CloseStale(h, wanted, order, n, now);
      && KeptOrEnded(h, after, now) && after.epochs.Keys == h.epochs.Keys
      && forall id :: id in h.epochs && IsWanted(wanted, h.epochs[id].key) ==> after.epochs[id] == h.epochs[id]
  {
    hide FlushTail, IsWanted;
    if n > 0 {
      StaleChange(h, wanted, order, n - 1, now);
    }
  }

  /** A live epoch whose check is asked for with its signature is left alone. */
  lemma {:induction false} MatchingStays(
    h: History, wanted: seq<Wanted>, n: nat, i: nat, id: int, config: HistoryConfig, now: int)
    requires Inv(h, config, now) && DistinctKeys(wanted) && n <= |wanted| && i < |wanted|
    requires forall j :: 0 <= j < |wanted| ==> wanted[j].freshness >= 0
    requires Live(h.epochs, id, wanted[i].key) && h.epochs[id].signature == wanted[i].signature
    ensures var after := SyncAll(h, wanted, n, now); id in after.epochs && after.epochs[id] == h.epochs[id]
  {
    hide Inv, SyncOne, LifetimesApart, EpochsOk, SpansOk, Referenced, SyncAll, DistinctKeys;
    if n == 0 {
      NoneSynced(h, wanted, now);
    } else {
      var before := SyncAll(h, wanted, n - 1, now);
      MatchingStays(h, wanted, n - 1, i, id, config, now);
      SyncAllCurrent(h, wanted, n - 1, config, now);
      InvParts(before, config, now);
      NextSynced(h, wanted, n - 1, now);
      if i == n - 1 {
        LiveUnique(before, id, wanted[i].key);
        CurrentStays(before, wanted[i], now);
      } else {
        KeysDiffer(wanted, i, n - 1);
        OneChanges(before, wanted[n - 1], now);
      }
    }
  }

  lemma CurrentStays(h: History, w: Wanted, now: int)
    requires Current(h.epochs, w)
    ensures SyncOne(h, w, now) == h
  {
  }

  lemma KeysDiffer(wanted: seq<Wanted>, i: nat, j: nat)
    requires DistinctKeys(wanted) && i < |wanted| && j < |wanted| && i != j
    ensures wanted[i].key != wanted[j].key
  {
  }

  lemma SyncChanges(h: History, after: History, wanted: seq<Wanted>, now: int)
    requires DistinctKeys(wanted) && Synced(h, after, wanted, now)
    ensures KeptOrEnded(h, after, now) && OnlyBegun(h, after, wanted, now)
  {
    hide SyncAll, CloseStale, ListsLive, DistinctKeys, Begun;
    var synced := SyncAll(h, wanted, |wanted|, now);
    AllChange(h, wanted, |wanted|, now);
    assert wanted[..|wanted|] == wanted;
    var order :| ListsLive(order, synced.epochs) && after == CloseStale(synced, wanted, order, |order|, now);
    StaleChange(synced, wanted, order, |order|, now);
    forall id | id in after.epochs && id !in h.epochs
      ensures exists w :: w in wanted && after.epochs[id] == Begun(w, now)
    {
      var w :| w in wanted && synced.epochs[id] == Begun(w, now);
      BegunIsWanted(wanted, w, now);
    }
  }

  lemma BegunIsWanted(wanted: seq<Wanted>, w: Wanted, now: int)
    requires w in wanted
    ensures IsWanted(wanted, Begun(w, now).key)
  {
  }

  // ----- the live epochs are the enabled checks -----

  /** The same host, wherever it is listed. */
  lemma HostById(hosts: seq<Host>, i: nat, j: nat)
    requires ValidHosts(hosts) && i < |hosts| && j < |hosts| && hosts[i].id == hosts[j].id
    ensures i == j
  {
  }

  lemma LiveIsConfigured(hosts: seq<Host>, epochs: map<int, Epoch>, id: int)
    requires InSync(epochs, Wants(hosts)) && id in epochs && epochs[id].ended.None?
    requires forall other :: other in epochs && Live(epochs, other, epochs[id].key) ==> other == id
    ensures exists i :: 0 <= i < |hosts| && Enabled(hosts[i], epochs[id].key)
                        && SignedBy(epochs[id].signature, hosts[i], epochs[id].key)
  {
    hide HostWants, Wants, Enabled, SignedBy;
    var wanted := Wants(hosts);
    var k :| 0 <= k < |wanted| && wanted[k].key == epochs[id].key;
    assert Current(epochs, wanted[k]);
    WantsAre(hosts, wanted[k]);
    var i :| 0 <= i < |hosts| && wanted[k] in HostWants(hosts[i]);
    HostWantsAre(hosts[i], wanted[k]);
  }

  lemma ConfiguredIsLive(hosts: seq<Host>, epochs: map<int, Epoch>, i: nat, key: CheckKey)
    requires InSync(epochs, Wants(hosts)) && i < |hosts| && Enabled(hosts[i], key)
    ensures HasLive(epochs, key)
  {
    hide HostWants, Wants, Enabled;
    var w := EnabledIsWanted(hosts[i], key);
    WantsAre(hosts, w);
    var k :| 0 <= k < |Wants(hosts)| && Wants(hosts)[k] == w;
    assert Current(epochs, Wants(hosts)[k]);
  }

  /**
   * A check has a live epoch exactly when some host has it enabled, and every live epoch is signed with
   * what is configured there.
   */
  ghost predicate LiveAsConfigured(epochs: map<int, Epoch>, hosts: seq<Host>) {
    && (forall key :: HasLive(epochs, key) <==> exists i :: 0 <= i < |hosts| && Enabled(hosts[i], key))
    && forall id, i ::
         id in epochs && epochs[id].ended.None? && 0 <= i < |hosts| && hosts[i].id == epochs[id].key.host ==>
           SignedBy(epochs[id].signature, hosts[i], epochs[id].key)
  }

  lemma SyncIsConfigured(h: History, after: History, hosts: seq<Host>, config: HistoryConfig, now: int)
    requires ValidHosts(hosts) && Inv(h, config, now) && Synced(h, after, Wants(hosts), now)
    ensures LiveAsConfigured(after.epochs, hosts)
  {
    hide Inv, Synced, Wants, Enabled, SignedBy, InSync, LifetimesApart, EpochsOk, SpansOk, Referenced, ValidHosts;
    WantsDistinct(hosts);
    SyncEstablishes(h, after, Wants(hosts), config, now);
    InvParts(after, config, now);
    forall id | id in after.epochs && after.epochs[id].ended.None?
      ensures exists i :: 0 <= i < |hosts| && Enabled(hosts[i], after.epochs[id].key)
                          && SignedBy(after.epochs[id].signature, hosts[i], after.epochs[id].key)
    {
      OnlyLive(after, id);
      LiveIsConfigured(hosts, after.epochs, id);
    }
    forall key, i | 0 <= i < |hosts| && Enabled(hosts[i], key)
      ensures HasLive(after.epochs, key)
    {
      ConfiguredIsLive(hosts, after.epochs, i, key);
    }
    forall id, i | id in after.epochs && after.epochs[id].ended.None? && 0 <= i < |hosts|
                   && hosts[i].id == after.epochs[id].key.host
      ensures SignedBy(after.epochs[id].signature, hosts[i], after.epochs[id].key)
    {
      var j :| 0 <= j < |hosts| && Enabled(hosts[j], after.epochs[id].key)
               && SignedBy(after.epochs[id].signature, hosts[j], after.epochs[id].key);
      EnabledOnHost(hosts[j], after.epochs[id].key);
      HostById(hosts, i, j);
    }
  }

  lemma EnabledOnHost(host: Host, key: CheckKey)
    requires Enabled(host, key)
    ensures key.host == host.id
  {
  }

  lemma OnlyLive(h: History, id: int)
    requires LifetimesApart(h) && id in h.epochs && h.epochs[id].ended.None?
    ensures forall other :: other in h.epochs && Live(h.epochs, other, h.epochs[id].key) ==> other == id
  {
    hide LifetimesApart;
    forall other | other in h.epochs && Live(h.epochs, other, h.epochs[id].key)
      ensures other == id
    {
      LiveUnique(h, other, h.epochs[id].key);
      LiveUnique(h, id, h.epochs[id].key);
    }
  }

  /** Some host has the check enabled, as the epoch was signed. */
  ghost predicate StillConfigured(e: Epoch, hosts: seq<Host>) {
    exists i :: 0 <= i < |hosts| && Enabled(hosts[i], e.key) && SignedBy(e.signature, hosts[i], e.key)
  }

  /** A host's configuration leaves one signature for a check. */
  lemma OneSignature(host: Host, key: CheckKey, s: Signature, s': Signature)
    requires host.Valid() && SignedBy(s, host, key) && SignedBy(s', host, key)
    ensures s == s'
  {
    assert s.groups == s'.groups;
    if key.kind == "tcp" {
      var i :| 0 <= i < |host.tcpChecks| && host.tcpChecks[i] == TcpCheck(key.check, s.port);
      var j :| 0 <= j < |host.tcpChecks| && host.tcpChecks[j] == TcpCheck(key.check, s'.port);
      assert host.tcpChecks[i].id == host.tcpChecks[j].id;
    }
  }

  lemma ConfiguredStays(h: History, after: History, hosts: seq<Host>, config: HistoryConfig, now: int, id: int)
    requires ValidHosts(hosts) && Inv(h, config, now) && Synced(h, after, Wants(hosts), now)
    requires id in h.epochs && h.epochs[id].ended.None? && StillConfigured(h.epochs[id], hosts)
    ensures id in after.epochs && after.epochs[id] == h.epochs[id]
  {
    hide Inv, SyncAll, CloseStale, ListsLive, DistinctKeys, Wants, HostWants, Enabled, SignedBy;
    var e, wanted := h.epochs[id], Wants(hosts);
    var i :| 0 <= i < |hosts| && Enabled(hosts[i], e.key) && SignedBy(e.signature, hosts[i], e.key);
    var w := EnabledIsWanted(hosts[i], e.key);
    HostWantsAre(hosts[i], w);
    OneSignature(hosts[i], e.key, e.signature, w.signature);
    WantsAre(hosts, w);
    WantsDistinct(hosts);
    var k :| 0 <= k < |wanted| && wanted[k] == w;
    MatchingStays(h, wanted, |wanted|, k, id, config, now);
    var synced := SyncAll(h, wanted, |wanted|, now);
    var order :| ListsLive(order, synced.epochs) && after == CloseStale(synced, wanted, order, |order|, now);
    StaleChange(synced, wanted, order, |order|, now);
    assert IsWanted(wanted, wanted[k].key);
  }

  lemma LiveIsStillConfigured(epochs: map<int, Epoch>, hosts: seq<Host>, id: int)
    requires LiveAsConfigured(epochs, hosts) && id in epochs && epochs[id].ended.None?
    ensures StillConfigured(epochs[id], hosts)
  {
    hide Enabled, SignedBy;
    assert Live(epochs, id, epochs[id].key);
    assert HasLive(epochs, epochs[id].key);
    var i :| 0 <= i < |hosts| && Enabled(hosts[i], epochs[id].key);
    EnabledOnHost(hosts[i], epochs[id].key);
  }

  lemma BegunIsSigned(hosts: seq<Host>, w: Wanted, now: int)
    requires w in Wants(hosts)
    ensures Signed(Begun(w, now)) && Begun(w, now).started == now && Begun(w, now).ended == None
    ensures Begun(w, now).last == None
  {
    hide HostWants;
    WantsAre(hosts, w);
    var i :| 0 <= i < |hosts| && w in HostWants(hosts[i]);
    HostWantsAre(hosts[i], w);
  }

  /**
   * Main result: after a synchronisation a check has a live epoch exactly when some host has it
   * enabled, and every live epoch carries the address, name, groups, interval, timeout, port and
   * freshness configured there.  A live epoch stays as it is exactly when its check is enabled as it
   * was signed, and ends now otherwise; what is opened begins now, with nothing in it.
   */
  lemma SyncFollowsInventory(h: History, after: History, hosts: seq<Host>, config: HistoryConfig, now: int)
    requires ValidHosts(hosts) && Inv(h, config, now) && AllSigned(h) && Synced(h, after, Wants(hosts), now)
    ensures LiveAsConfigured(after.epochs, hosts) && AllSigned(after)
    ensures forall id :: id in h.epochs ==>
      id in after.epochs
      && var e := h.epochs[id];
         after.epochs[id]
         == if e.ended.Some? || StillConfigured(e, hosts) then e
            else e.(ended := Some(Max(e.started, now)), last := None)
    ensures forall id :: id in after.epochs && id !in h.epochs ==>
      && after.epochs[id].started == now && after.epochs[id].ended == None && after.epochs[id].last == None
      && id in after.log && after.log[id] == Start
  {
    hide Inv, Synced, Wants, Begun, LiveAsConfigured, StillConfigured, LifetimesApart, EpochsOk, SpansOk, Referenced,
         ValidHosts, Signed;
    InvParts(h, config, now);
    WantsDistinct(hosts);
    SyncIsConfigured(h, after, hosts, config, now);
    SyncChanges(h, after, Wants(hosts), now);
    SyncSame(h, after, Wants(hosts), now);
    forall id | id in h.epochs && h.epochs[id].ended.None?
      ensures after.epochs[id] == h.epochs[id] <==> StillConfigured(h.epochs[id], hosts)
    {
      if StillConfigured(h.epochs[id], hosts) {
        ConfiguredStays(h, after, hosts, config, now, id);
      } else if after.epochs[id] == h.epochs[id] {
        LiveIsStillConfigured(after.epochs, hosts, id);
      }
    }
    forall id | id in after.epochs && id !in h.epochs
      ensures Signed(after.epochs[id]) && after.epochs[id].started == now
      ensures after.epochs[id].ended == None && after.epochs[id].last == None
    {
      var w :| w in Wants(hosts) && after.epochs[id] == Begun(w, now);
      BegunIsSigned(hosts, w, now);
    }
    forall id | id in h.epochs
      ensures Signed(after.epochs[id])
    {
      SignedOn(h.epochs[id], after.epochs[id]);
    }
  }

  lemma SignedOn(e: Epoch, later: Epoch)
    requires Signed(e) && later == e.(ended := later.ended, last := later.last)
    ensures Signed(later)
  {
  }

  // ----- every run -----

  lemma NextKeepsSigned(h: History, t: HistoryRuns.Transaction, config: HistoryConfig, after: History)
    requires config.Valid() && Inv(h, config, t.now) && AllSigned(h) && HistoryRuns.Next(h, t, config, after)
    ensures AllSigned(after)
  {
    hide Inv, Accepts, Accepted, Synced, Wants, LifetimesApart, EpochsOk, SpansOk, Referenced, ValidHosts, Prune.Pruned,
         Prune.PrunedBy, LiveAsConfigured, StillConfigured, Signed;
    InvParts(h, config, t.now);
    match t.operation
    case Record(key, at, o) =>
      if HasLive(h.epochs, key) && Accepts(h, LiveId(h.epochs, key), at, t.now) {
        var id := LiveId(h.epochs, key);
        HistoryRuns.AcceptedLogs(h, id, at, o);
        SignedOn(h.epochs[id], h.epochs[id].(last := Some(Entry(at, o))));
      }
    case Synchronise(hosts) => SyncFollowsInventory(h, after, hosts, config, t.now);
    case RollUp(limit) => HistoryRuns.RolledUpSame(h, t.now, config, limit, after);
    case PruneRows(usageRetention, limit, passes) =>
      Prune.PrunedKeeps(h, passes, t.now, config, usageRetention, limit);
      Prune.KeptEpochs(h, passes, t.now, config);
      Prune.PrunedFields(h, passes);
  }

  lemma {:induction false} RunsSigned(
    states: seq<World>, run: seq<HistoryRuns.Transaction>, config: HistoryConfig, i: nat)
    requires config.Valid() && HistoryRuns.IsRun(states, run, config) && i <= |run|
    ensures AllSigned(states[i].h)
  {
    hide Inv, HistoryRuns.Next, HistoryRuns.WorldOk, Signed, Archives;
    if i > 0 {
      RunsSigned(states, run, config, i - 1);
      HistoryRuns.RunsKeepInv(states, run, config, i - 1, run[i - 1].now);
      assert HistoryRuns.IsStep(states[i - 1], run[i - 1], config, states[i]);
      NextKeepsSigned(states[i - 1].h, run[i - 1], config, states[i].h);
    }
  }

  /** Only a synchronisation changes which epochs are live or what they are signed with. */
  ghost predicate SameLiveEpochs(epochs: map<int, Epoch>, after: map<int, Epoch>) {
    && (forall id :: id in epochs && epochs[id].ended.None? ==>
          id in after && after[id] == epochs[id].(last := after[id].last))
    && (forall id :: id in after && after[id].ended.None? ==> id in epochs && epochs[id].ended.None?)
  }

  lemma NextKeepsLive(h: History, t: HistoryRuns.Transaction, config: HistoryConfig, after: History)
    requires Inv(h, config, t.now) && HistoryRuns.Next(h, t, config, after) && !t.operation.Synchronise?
    ensures SameLiveEpochs(h.epochs, after.epochs)
  {
    hide Inv, Accepts, Accepted, LifetimesApart, EpochsOk, SpansOk, Referenced, Prune.Pruned;
    InvParts(h, config, t.now);
    match t.operation
    case Record(key, at, o) =>
      if HasLive(h.epochs, key) && Accepts(h, LiveId(h.epochs, key), at, t.now) {
        HistoryRuns.AcceptedLogs(h, LiveId(h.epochs, key), at, o);
      }
    case RollUp(limit) => HistoryRuns.RolledUpSame(h, t.now, config, limit, after);
    case PruneRows(usageRetention, limit, passes) =>
      Prune.PrunedKeeps(h, passes, t.now, config, usageRetention, limit);
      PrunedLive(h, passes, t.now, config);
    case _ =>
  }

  lemma PrunedLive(h: History, p: Prune.Passes, now: int, config: HistoryConfig)
    requires Prune.Kept(h, p, now, config)
    ensures SameLiveEpochs(h.epochs, Prune.PrunedBy(h, p).epochs)
  {
    hide Boundary, Prune.InUse;
  }

  lemma SameLiveConfigured(epochs: map<int, Epoch>, after: map<int, Epoch>, hosts: seq<Host>)
    requires LiveAsConfigured(epochs, hosts) && SameLiveEpochs(epochs, after)
    ensures LiveAsConfigured(after, hosts)
  {
    hide Enabled, SignedBy;
    forall key
      ensures HasLive(after, key) <==> HasLive(epochs, key)
    {
      if HasLive(epochs, key) {
        var id :| id in epochs && Live(epochs, id, key);
        assert Live(after, id, key);
      }
      if HasLive(after, key) {
        var id :| id in after && Live(after, id, key);
        assert Live(epochs, id, key);
      }
    }
  }

  /**
   * Over whole runs: from one synchronisation to the next, whatever is recorded, rolled up or pruned,
   * the live epochs are exactly the checks its inventory has enabled, as configured there.
   */
  lemma {:induction false} RunsFollowInventory(
    states: seq<World>, run: seq<HistoryRuns.Transaction>, config: HistoryConfig, i: nat, j: nat, hosts: seq<Host>)
    requires config.Valid() && HistoryRuns.IsRun(states, run, config) && i < j <= |run|
    requires run[i].operation == HistoryRuns.Synchronise(hosts)
    requires forall k :: i < k < j ==> !run[k].operation.Synchronise?
    ensures LiveAsConfigured(states[j].h.epochs, hosts) && AllSigned(states[j].h)
  {
    hide Inv, HistoryRuns.Next, HistoryRuns.WorldOk, Signed, Archives, LiveAsConfigured, SameLiveEpochs;
    RunsSigned(states, run, config, j);
    HistoryRuns.RunsKeepInv(states, run, config, j - 1, run[j - 1].now);
    assert HistoryRuns.IsStep(states[j - 1], run[j - 1], config, states[j]);
    if i == j - 1 {
      SyncStep(states[i].h, run[i], config, states[j].h, hosts);
    } else {
      RunsFollowInventory(states, run, config, i, j - 1, hosts);
      NextKeepsLive(states[j - 1].h, run[j - 1], config, states[j].h);
      SameLiveConfigured(states[j - 1].h.epochs, states[j].h.epochs, hosts);
    }
  }

  lemma SyncStep(h: History, t: HistoryRuns.Transaction, config: HistoryConfig, after: History, hosts: seq<Host>)
    requires Inv(h, config, t.now) && HistoryRuns.Next(h, t, config, after)
    requires t.operation == HistoryRuns.Synchronise(hosts)
    ensures LiveAsConfigured(after.epochs, hosts)
  {
    hide Inv, Synced, Wants, ValidHosts, LiveAsConfigured;
    SyncIsConfigured(h, after, hosts, config, t.now);
  }
}
