/**
 * The history tables as the program updates them, transaction by transaction
 * (src/storage/sqlite/history/).  Every method is proved against the function or predicate
 * that specifies its transaction; the promises are proved about those.
 */
module HistoryDb {
  import opened Prelude
  import opened HistoryStats
  import opened Tiers
  import opened History
  import opened Ingest
  import opened Inventory
  import opened Sync
  import opened Archive
  import Rollup
  import Prune
  import HistoryRuns
  import LiveChecks

  class Database {
    var epochs: map<int, Epoch>
    var raw: map<(int, int), Observation>
    var events: map<(int, int), Event>
    var buckets: map<BucketKey, Stats>
    var spans: seq<Span>
    // What has been accepted into the stored epochs, and the epochs deleted so far; not in the tables.
    ghost var log: map<int, Log>
    ghost var gone: seq<Past>

    ghost function Tables(): (h: History)
      reads this
      ensures h.epochs == epochs && h.raw == raw && h.events == events
      ensures h.buckets == buckets && h.spans == spans && h.log == log
    {
      History(epochs, raw, events, buckets, spans, log)
    }

    ghost function State(): World
      reads this
    {
      World(Tables(), gone)
    }

    /** At most one live epoch per check, the unique index `history_active`. */
    ghost predicate Indexed()
      reads this
    {
      LifetimesApart(Tables()) && log.Keys == epochs.Keys
    }

    constructor ()
      ensures State() == World(EMPTY, [])
    {
      epochs, raw, events, buckets, spans, log, gone := map[], map[], map[], map[], [], map[], [];
    }

    // ----- ingestion -----

    method AddStats(epoch: int, resolution: int, start: int, stats: Stats)
      modifies `buckets
      ensures buckets == Rollup.AddStats(old(buckets), epoch, resolution, start, stats)
    {
      var key := BucketKey(epoch, resolution, start);
      var next := ZERO;
      if key in buckets {
        next := buckets[key];
      }
      next := Merge(next, stats);
      buckets := buckets[key := next];
    }

    method FlushTail(id: int, end: int)
      requires id in epochs
      modifies `spans
      ensures spans == Ingest.FlushTail(old(spans), id, epochs[id], end)
    {
      var e := epochs[id];
      if e.last.Some? {
        var start := e.last.value.at;
        var until := Min(end, start + e.freshness);
        if until > start {
          spans := spans + [Span(id, start, until, e.last.value.observation)];
        }
      }
    }

    method CloseEpoch(id: int, now: int)
      requires id in epochs
      modifies `spans, `epochs
      ensures Tables() == Close(old(Tables()), id, now)
    {
      FlushTail(id, now);
      epochs := epochs[id := epochs[id].(ended := Some(Max(epochs[id].started, now)), last := None)];
    }

    method FindLive(key: CheckKey) returns (found: Option<int>)
      requires Indexed()
      ensures found == if HasLive(epochs, key) then Some(LiveId(epochs, key)) else None
    {
      if id :| id in epochs && epochs[id].key == key && epochs[id].ended.None? {
        LiveUnique(Tables(), id, key);
        found := Some(id);
      } else {
        found := None;
      }
    }

    method Accept(id: int, at: int, o: Observation)
      requires id in epochs && id in log && (id, at) !in raw
      modifies `epochs, `raw, `events, `buckets, `spans, `log
      ensures Tables() == Accepted(old(Tables()), id, at, o)
    {
      hide Merge, Floor, SampleStats, Ingest.FlushTail;
      var e := epochs[id];
      raw := raw[(id, at) := o];
      FlushTail(id, at);
      if e.last.None? || o.ChangedFrom(e.last.value.observation) {
        if (id, at) !in events {
          events := events[(id, at) := Event(if e.last.Some? then Some(e.last.value.observation.state) else None, o)];
        }
      }
      var stats := SampleStats(o);
      AddStats(id, FIVE_MINUTES, Floor(at, FIVE_MINUTES), stats);
      AddStats(id, HOUR, Floor(at, HOUR), stats);
      AddStats(id, DAY, Floor(at, DAY), stats);
      epochs := epochs[id := e.(last := Some(Entry(at, o)))];
      log := log[id := Then(log[id], Entry(at, o))];
    }

    /** Late, repeated, future and unconfigured observations change nothing. */
    method Record(key: CheckKey, at: int, o: Observation, now: int)
      requires Indexed()
      modifies `epochs, `raw, `events, `buckets, `spans, `log
      ensures HistoryRuns.Recorded(old(Tables()), key, at, o, now, Tables())
    {
      hide Accepted, LifetimesApart;
      if at > now {
        return;
      }
      var live := FindLive(key);
      if live.None? {
        return;
      }
      var id := live.value;
      var e := epochs[id];
      if at < e.started || (e.last.Some? && at <= e.last.value.at) {
        return;
      }
      if (id, at) in raw {
        return;
      }
      Accept(id, at, o);
    }

    // ----- synchronisation -----

    /** The id of a new row: one above the largest. */
    method NextRowId() returns (id: int)
      ensures id == NextId(epochs)
    {
      var rest, largest := epochs.Keys, 0;
      while rest != {}
        invariant rest <= epochs.Keys
        invariant largest == 0 || largest in epochs
        invariant forall k :: k in epochs && k !in rest ==> k <= largest
        invariant largest >= 0
        decreases rest
      {
        ghost var some := Member(rest);
        var k: int :| k in rest;
        if k > largest {
          largest := k;
        }
        rest := rest - {k};
      }
      LargestUnique(epochs.Keys, largest);
      id := largest + 1;
    }

    /** One wanted check: keep its live epoch if the signature still fits, else replace it. */
    method SyncCheck(w: Wanted, now: int) returns (id: int)
      requires Indexed()
      modifies `epochs, `spans, `log
      ensures Tables() == SyncOne(old(Tables()), w, now)
      ensures Live(epochs, id, w.key)
    {
      var prior := FindLive(w.key);
      if prior.Some? && epochs[prior.value].signature == w.signature {
        return prior.value;
      }
      if prior.Some? {
        CloseEpoch(prior.value, now);
      }
      id := NextRowId();
      epochs := epochs[id := Epoch(w.key, w.name, w.groups, w.signature, now, None, w.freshness, None)];
      log := log[id := Start];
    }

    method ListLive() returns (ids: seq<int>)
      ensures forall i, j :: 0 <= i < j < |ids| ==> ids[i] != ids[j]
      ensures forall i :: 0 <= i < |ids| ==> ids[i] in epochs && epochs[ids[i]].ended.None?
      ensures ListsLive(ids, epochs)
    {
      ids := [];
      var rest := set id | id in epochs && epochs[id].ended.None?;
      while rest != {}
        invariant forall i, j :: 0 <= i < j < |ids| ==> ids[i] != ids[j]
        invariant forall i :: 0 <= i < |ids| ==> ids[i] in epochs && epochs[ids[i]].ended.None?
        invariant forall id :: id in rest ==> id in epochs && epochs[id].ended.None?
        invariant forall id :: id in epochs && epochs[id].ended.None? ==> id in ids || id in rest
        invariant forall id :: id in rest ==> id !in ids
        decreases rest
      {
        ghost var some := Member(rest);
        var id: int :| id in rest;
        ids := ids + [id];
        rest := rest - {id};
      }
    }

    method SyncNext(
      active: set<int>, w: Wanted, now: int, ghost before: History, ghost wanted: seq<Wanted>, ghost done: nat,
      ghost config: HistoryConfig)
      returns (extended: set<int>)
      requires Inv(before, config, now) && DistinctKeys(wanted) && forall x :: x in wanted ==> x.freshness > 0
      requires done < |wanted| && wanted[done] == w
      requires Tables() == SyncAll(before, wanted, done, now) && ActiveFor(active, epochs, wanted, done)
      modifies `epochs, `spans, `log
      ensures Tables() == SyncAll(before, wanted, done + 1, now) && ActiveFor(extended, epochs, wanted, done + 1)
    {
      hide Inv, SyncAll, SyncOne, ActiveFor, DistinctKeys;
      ghost var h := Tables();
      SyncedIndexed(before, wanted, done, config, now);
      var id := SyncCheck(w, now);
      NextSynced(before, wanted, done, now);
      ActiveStep(h, Tables(), wanted, done, active, id, config, now);
      extended := active + {id};
    }

    method SyncHost(
      active: set<int>, host: Host, now: int, ghost before: History, ghost wanted: seq<Wanted>, ghost done: nat,
      ghost config: HistoryConfig)
      returns (extended: set<int>)
      requires Inv(before, config, now) && DistinctKeys(wanted) && forall x :: x in wanted ==> x.freshness > 0
      requires done + |HostWants(host)| <= |wanted| && HostWants(host) == wanted[done..done + |HostWants(host)|]
      requires Tables() == SyncAll(before, wanted, done, now) && ActiveFor(active, epochs, wanted, done)
      modifies `epochs, `spans, `log
      ensures var next := done + |HostWants(host)|;
        Tables() == SyncAll(before, wanted, next, now) && ActiveFor(extended, epochs, wanted, next)
    {
      hide Inv, SyncAll, SyncOne, HostWants, ActiveFor, DistinctKeys;
      var checks := ListChecks(host);
      extended := active;
      for j := 0 to |checks|
        invariant Tables() == SyncAll(before, wanted, done + j, now) && ActiveFor(extended, epochs, wanted, done + j)
      {
        assert wanted[done + j] == checks[j];
        extended := SyncNext(extended, checks[j], now, before, wanted, done + j, config);
      }
    }

    /** Make the live epochs exactly the checks the inventory asks for. */
    method SyncEpochs(hosts: seq<Host>, now: int, ghost config: HistoryConfig)
      requires ValidHosts(hosts) && Inv(Tables(), config, now)
      modifies `epochs, `spans, `log
      ensures Synced(old(Tables()), Tables(), Wants(hosts), now)
      ensures LiveChecks.LiveAsConfigured(epochs, hosts)
    {
      hide Inv, SyncAll, SyncOne, CloseStale, HostWants, Host.Valid, ActiveFor, DistinctKeys,
           LiveChecks.LiveAsConfigured;
      ghost var before, wanted, done := Tables(), Wants(hosts), 0;
      WantsDistinct(hosts);
      var active: set<int> := {};
      NoneActive(epochs, wanted);
      NoneSynced(before, wanted, now);
      for i := 0 to |hosts|
        invariant 0 <= done <= |wanted| && wanted[done..] == Wants(hosts[i..])
        invariant Tables() == SyncAll(before, wanted, done, now)
        invariant ActiveFor(active, epochs, wanted, done)
      {
        NextHost(hosts, wanted, done, i);
        active := SyncHost(active, hosts[i], now, before, wanted, done, config);
        done := done + |HostWants(hosts[i])|;
      }
      CloseInactive(active, wanted, now);
      LiveChecks.SyncIsConfigured(before, Tables(), hosts, config, now);
    }

    method CloseInactive(active: set<int>, ghost wanted: seq<Wanted>, now: int)
      requires ActiveFor(active, epochs, wanted, |wanted|)
      modifies `epochs, `spans
      ensures exists order ::
        ListsLive(order, old(epochs)) && Tables() == CloseStale(old(Tables()), wanted, order, |order|, now)
    {
      hide CloseStale, ActiveFor, ListsLive, IsWanted, Ingest.FlushTail;
      ghost var synced := Tables();
      var ids := ListLive();
      NoneClosed(synced, wanted, ids, now);
      for i := 0 to |ids|
        invariant Tables() == CloseStale(synced, wanted, ids, i, now)
        invariant forall j :: i <= j < |ids| ==>
          && ids[j] in epochs && ids[j] in synced.epochs
          && epochs[ids[j]] == synced.epochs[ids[j]] && epochs[ids[j]].ended.None?
      {
        ActiveIsWanted(active, synced.epochs, wanted, ids[i]);
        OneClosed(synced, wanted, ids, i, now);
        if ids[i] !in active {
          CloseEpoch(ids[i], now);
        }
      }
    }

    // ----- maintenance -----

    /** At most `limit` iterations; `more` says whether anything is left to materialise. */
    method RollUp(now: int, config: HistoryConfig, limit: nat) returns (work: nat, more: bool)
      modifies `buckets, `spans
      ensures work <= limit && Tables() == Rollup.Steps(old(Tables()), now, config, work)
      ensures more <==> spans != []
      ensures work < limit ==> !more
    {
      hide Rollup.Step;
      work := 0;
      while work < limit
        invariant work <= limit && Tables() == Rollup.Steps(old(Tables()), now, config, work)
      {
        if spans == [] {
          break;
        }
        RollupSpan(now, config);
        work := work + 1;
      }
      more := spans != [];
    }

    method RollupSpan(now: int, config: HistoryConfig)
      requires spans != []
      modifies `buckets, `spans
      ensures Tables() == Rollup.Step(old(Tables()), now, config)
    {
      hide Merge, Floor, Boundary, Retention, DurationStats;
      var span := spans[0];
      var start := Max(span.cursor, Boundary(now, config, DAY));
      if start >= span.end {
        spans := spans[1..];
        return;
      }
      var smallest := Rollup.Smallest(start, now, config);
      var until := Min(span.end, Floor(start, smallest) + Width(smallest));
      var tiers := [FIVE_MINUTES, HOUR, DAY];
      for i := 0 to 3
        invariant until == StopBefore(Min(span.end, Floor(start, smallest) + Width(smallest)), start, now, config, i)
      {
        var boundary := Boundary(now, config, tiers[i]);
        if boundary > start {
          until := Min(until, boundary);
        }
      }
      ChunkByTier(start, span.end, now, config);
      var stats := DurationStats(span.observation, until - start);
      for i := 0 to 3
        invariant spans == old(spans)
        invariant buckets == CreditedTo(old(buckets), span.epoch, start, stats, now, config, i)
      {
        if start >= Boundary(now, config, tiers[i]) {
          AddStats(span.epoch, tiers[i], Floor(start, tiers[i]), stats);
        }
      }
      CreditByTier(old(buckets), span.epoch, start, stats, now, config);
      if until == span.end {
        spans := spans[1..];
      } else {
        spans := [span.(cursor := until)] + spans[1..];
      }
    }

    method DeleteRaw(usage: bool, cutoff: int, limit: nat) returns (removed: nat)
      modifies `raw
      ensures Prune.Trimmed(old(raw), raw, Prune.ExpiredRaw(epochs, old(raw), usage, cutoff), limit)
      ensures removed == Prune.Gone(old(raw), raw)
    {
      Prune.ExpiredAreKeys(epochs, raw, events, cutoff, cutoff);
      hide Prune.ExpiredRaw, Prune.Trimmed, Prune.Gone;
      raw, removed := DeleteLimited(raw, Prune.ExpiredRaw(epochs, raw, usage, cutoff), limit);
    }

    method DeleteEvents(cutoff: int, limit: nat) returns (removed: nat)
      modifies `events
      ensures Prune.Trimmed(old(events), events, Prune.ExpiredEvents(old(events), cutoff), limit)
      ensures removed == Prune.Gone(old(events), events)
    {
      Prune.ExpiredAreKeys(epochs, raw, events, cutoff, cutoff);
      hide Prune.ExpiredEvents, Prune.Trimmed, Prune.Gone;
      events, removed := DeleteLimited(events, Prune.ExpiredEvents(events, cutoff), limit);
    }

    method DeleteBuckets(now: int, config: HistoryConfig, resolution: int, limit: nat) returns (removed: nat)
      requires IsTier(resolution)
      modifies `buckets
      ensures Prune.Trimmed(old(buckets), buckets, Prune.ExpiredBuckets(old(buckets), now, config, resolution), limit)
      ensures removed == Prune.Gone(old(buckets), buckets)
    {
      Prune.ExpiredBucketsAreRows(buckets, now, config, resolution);
      hide Prune.ExpiredBuckets, Prune.Trimmed, Prune.Gone, Boundary;
      buckets, removed := DeleteLimited(buckets, Prune.ExpiredBuckets(buckets, now, config, resolution), limit);
    }

    method DeleteEpochs(cutoff: int, limit: nat) returns (removed: nat)
      modifies `epochs, `log
      ensures Prune.Trimmed(old(epochs), epochs, Prune.Unreferenced(old(Tables()), cutoff), limit)
      ensures log == map id | id in old(log) && id in epochs :: old(log)[id]
      ensures removed == Prune.Gone(old(epochs), epochs)
    {
      Prune.UnreferencedAreRows(Tables(), cutoff);
      hide Prune.Unreferenced, Prune.Trimmed, Prune.Gone;
      var unreferenced := UnreferencedEpochs(cutoff);
      epochs, removed := DeleteLimited(epochs, unreferenced, limit);
      log := map id | id in log && id in epochs :: log[id];
    }

    /** One bounded batch of deletions; `more` says whether the batch was full. */
    method PruneRows(now: int, config: HistoryConfig, usageRetention: int, limit: nat)
      returns (removed: nat, more: bool, ghost passes: Prune.Passes)
      modifies `raw, `events, `buckets, `epochs, `log, `gone
      ensures Archives(old(State()), State())
      ensures Prune.Pruned(old(Tables()), passes, now, config, usageRetention, limit)
      ensures Tables() == Prune.PrunedBy(old(Tables()), passes)
      ensures removed == Prune.RowsRemoved(old(Tables()), passes)
      ensures more <==> removed >= limit
      ensures !more ==>
        && (forall k :: k in events ==> now - config.eventRetention <= k.1)
        && (forall k :: k in raw ==> Prune.RawInTime(epochs, k, now, config, usageRetention))
        && (forall k :: k in buckets ==> Prune.BucketInTime(k, now, config))
        && (forall id :: id in epochs ==> Prune.EpochInTime(Tables(), id, now, config))
    {
      hide Prune.RawInTime, Prune.BucketInTime, Prune.EpochInTime, Boundary, Prune.Trimmed, Prune.ExpiredRaw,
           Prune.ExpiredEvents, Prune.ExpiredBuckets, Prune.Unreferenced, Prune.Gone, Prune.EpochCutoff, Listed;
      ghost var before := Tables();
      removed := DeleteRaw(false, Cutoff(now, config.rawRetention), limit);
      ghost var raw1 := raw;
      var n := DeleteRaw(true, Cutoff(now, usageRetention), limit);
      removed := removed + n;
      n := DeleteEvents(Cutoff(now, config.eventRetention), limit);
      removed := removed + n;
      n := DeleteBuckets(now, config, FIVE_MINUTES, limit);
      ghost var fine := buckets;
      removed := removed + n;
      n := DeleteBuckets(now, config, HOUR, limit);
      ghost var hourly := buckets;
      removed := removed + n;
      n := DeleteBuckets(now, config, DAY, limit);
      removed := removed + n;
      ghost var rows := Tables();
      n := DeleteEpochs(Prune.EpochCutoff(now, config), limit);
      removed := removed + n;
      more := removed >= limit;
      passes := Prune.Passes(raw1, raw, events, fine, hourly, buckets, epochs);
      assert rows == Prune.RowsPruned(before, passes);
      gone := gone + Listed(before, StoredIds(before) - StoredIds(Tables()));
      if !more {
        Prune.PruneComplete(before, passes, now, config, usageRetention, limit);
      }
    }

    method UnreferencedEpochs(cutoff: int) returns (ids: set<int>)
      ensures ids == Prune.Unreferenced(Tables(), cutoff)
    {
      ids := set id | id in epochs && epochs[id].ended.Some? && epochs[id].ended.value < cutoff
        && !(exists k :: k in raw && k.0 == id)
        && !(exists k :: k in events && k.0 == id)
        && !(exists k :: k in buckets && k.epoch == id)
        && !(exists i :: 0 <= i < |spans| && spans[i].epoch == id);
    }
  }

  // ----- listing checks -----

  method ListChecks(host: Host) returns (checks: seq<Wanted>)
    ensures checks == HostWants(host)
  {
    checks := [];
    if host.icmp.enabled {
      checks := checks + [Want(host, "icmp", "", host.icmp, 0)];
    }
    if host.usage.enabled {
      checks := checks + [Want(host, "usage", "", host.usage, 0)];
    }
    if host.tcp.enabled {
      ghost var before := checks;
      for i := 0 to |host.tcpChecks|
        invariant checks == before + TcpWants(host, i)
      {
        checks := checks + [Want(host, "tcp", host.tcpChecks[i].id, host.tcp, host.tcpChecks[i].port)];
      }
    }
  }

  lemma NextHost(hosts: seq<Host>, wanted: seq<Wanted>, done: nat, i: nat)
    requires i < |hosts| && done <= |wanted| && wanted[done..] == Wants(hosts[i..])
    ensures var next := done + |HostWants(hosts[i])|;
      next <= |wanted| && HostWants(hosts[i]) == wanted[done..next] && wanted[next..] == Wants(hosts[i + 1..])
  {
    hide HostWants;
    var first, rest := HostWants(hosts[i]), Wants(hosts[i + 1..]);
    assert hosts[i..][1..] == hosts[i + 1..];
    assert wanted[done..] == first + rest;
    assert wanted[done..done + |first|] == wanted[done..][..|first|] == first;
    assert wanted[done + |first|..] == wanted[done..][|first|..] == rest;
  }

  // ----- the active set -----

  /** `active` lists the live epochs of the first `n` wanted checks. */
  ghost predicate ActiveFor(active: set<int>, epochs: map<int, Epoch>, wanted: seq<Wanted>, n: nat) {
    forall id :: id in active <==> exists i :: 0 <= i < n && i < |wanted| && Live(epochs, id, wanted[i].key)
  }

  lemma NoneActive(epochs: map<int, Epoch>, wanted: seq<Wanted>)
    ensures ActiveFor({}, epochs, wanted, 0)
  {
  }

  lemma SyncedIndexed(before: History, wanted: seq<Wanted>, n: nat, config: HistoryConfig, now: int)
    requires Inv(before, config, now) && DistinctKeys(wanted) && n <= |wanted|
    requires forall w :: w in wanted ==> w.freshness > 0
    ensures var h := SyncAll(before, wanted, n, now);
      Inv(h, config, now) && LifetimesApart(h) && h.log.Keys == h.epochs.Keys
  {
    hide Inv, SyncAll, DistinctKeys, LifetimesApart;
    SyncAllCurrent(before, wanted, n, config, now);
    InvParts(SyncAll(before, wanted, n, now), config, now);
  }

  lemma ActiveStep(
    h: History, after: History, wanted: seq<Wanted>, n: nat, active: set<int>, id: int, config: HistoryConfig,
    now: int)
    requires n < |wanted| && DistinctKeys(wanted) && wanted[n].freshness >= 0
    requires Inv(h, config, now) && after == SyncOne(h, wanted[n], now) && Live(after.epochs, id, wanted[n].key)
    requires ActiveFor(active, h.epochs, wanted, n)
    ensures ActiveFor(active + {id}, after.epochs, wanted, n + 1)
  {
    hide Inv, SyncOne, LifetimesApart, Current;
    var key := wanted[n].key;
    SyncOneCurrent(h, wanted[n], config, now);
    InvParts(after, config, now);
    forall x
      ensures x in active + {id} <==> exists i :: 0 <= i < n + 1 && i < |wanted| && Live(after.epochs, x, wanted[i].key)
    {
      if Live(after.epochs, x, key) {
        LiveUnique(after, x, key);
        LiveUnique(after, id, key);
      }
      assert forall i :: 0 <= i < n ==> (Live(after.epochs, x, wanted[i].key) <==> Live(h.epochs, x, wanted[i].key));
    }
  }

  lemma ActiveIsWanted(active: set<int>, epochs: map<int, Epoch>, wanted: seq<Wanted>, id: int)
    requires ActiveFor(active, epochs, wanted, |wanted|) && id in epochs && epochs[id].ended.None?
    ensures id in active <==> IsWanted(wanted, epochs[id].key)
  {
    if IsWanted(wanted, epochs[id].key) {
      var i :| 0 <= i < |wanted| && wanted[i].key == epochs[id].key;
      assert Live(epochs, id, wanted[i].key);
    }
  }

  lemma NoneClosed(h: History, wanted: seq<Wanted>, ids: seq<int>, now: int)
    ensures CloseStale(h, wanted, ids, 0, now) == h
  {
  }

  lemma OneClosed(h: History, wanted: seq<Wanted>, ids: seq<int>, n: nat, now: int)
    requires n < |ids|
    ensures var before := CloseStale(h, wanted, ids, n, now);
      CloseStale(h, wanted, ids, n + 1, now)
      == if Stale(before.epochs, wanted, ids[n]) then Close(before, ids[n], now) else before
  {
  }

  lemma LargestUnique(ids: set<int>, largest: int)
    requires largest == 0 || largest in ids
    requires largest >= 0 && forall k :: k in ids ==> k <= largest
    ensures largest == MaxId(ids)
  {
  }

  // ----- chunks, tier by tier -----

  /** The end of a chunk after the boundaries of the first `n` tiers have been looked at. */
  function StopBefore(until: int, start: int, now: int, config: HistoryConfig, n: nat): int {
    if n == 0 then until
    else Rollup.StopAt(StopBefore(until, start, now, config, n - 1), start, Boundary(now, config, TierAt(n - 1)))
  }

  function TierAt(i: nat): (resolution: int)
    ensures resolution > 0
  {
    if i == 0 then FIVE_MINUTES else if i == 1 then HOUR else DAY
  }

  function CreditedTo(
    buckets: map<BucketKey, Stats>, epoch: int, start: int, stats: Stats, now: int, config: HistoryConfig, n: nat)
    : map<BucketKey, Stats>
  {
    if n == 0 then buckets
    else
      var before := CreditedTo(buckets, epoch, start, stats, now, config, n - 1);
      Rollup.Credit(before, epoch, start, stats, now, config, TierAt(n - 1))
  }

  lemma ChunkByTier(start: int, end: int, now: int, config: HistoryConfig)
    requires start < end
    ensures var smallest := Rollup.Smallest(start, now, config);
      var until := StopBefore(Min(end, Floor(start, smallest) + Width(smallest)), start, now, config, 3);
      start < until == Rollup.ChunkEnd(start, end, now, config)
  {
    hide Boundary, Floor;
    Rollup.ChunkInsideBucket(start, end, now, config, DAY);
    var smallest := Rollup.Smallest(start, now, config);
    var until := Min(end, Floor(start, smallest) + Width(smallest));
    assert StopBefore(until, start, now, config, 1) == Rollup.StopAt(until, start, Boundary(now, config, FIVE_MINUTES));
  }

  lemma CreditByTier(
    buckets: map<BucketKey, Stats>, epoch: int, start: int, stats: Stats, now: int, config: HistoryConfig)
    ensures CreditedTo(buckets, epoch, start, stats, now, config, 3)
         == Rollup.CreditAll(buckets, epoch, start, stats, now, config)
  {
    hide Rollup.Credit, TierAt;
    TiersInOrder();
    assert CreditedTo(buckets, epoch, start, stats, now, config, 1)
        == Rollup.Credit(buckets, epoch, start, stats, now, config, FIVE_MINUTES);
  }

  lemma TiersInOrder()
    ensures TierAt(0) == FIVE_MINUTES && TierAt(1) == HOUR && TierAt(2) == DAY
  {
  }

  // ----- bounded deletion -----

  /** `DELETE ... WHERE key IN (SELECT ... LIMIT limit)`; which of the rows go is not specified. */
  method DeleteLimited<K(==), V>(rows: map<K, V>, expired: set<K>, limit: nat) returns (left: map<K, V>, removed: nat)
    requires expired <= rows.Keys
    ensures Prune.Trimmed(rows, left, expired, limit)
    ensures removed == Prune.Gone(rows, left)
  {
    var gone := Choose(expired, limit);
    left := rows - gone;
    removed := |gone|;
    assert rows.Keys - left.Keys == gone;
  }
}
