/**
 * Storing an observation again (docs/history-maintenance.md:31-32), over whole runs: when it is
 * ignored, and exactly when it is not.
 */
module Retries {
  import opened Prelude
  import opened HistoryStats
  import opened Tiers
  import opened History
  import opened Ingest
  import opened Inventory
  import opened Sync
  import Rollup
  import Prune
  import opened Untouched
  import opened Archive
  import opened HistoryRuns

  /** An observation already in the log of the live epoch is ignored, whatever happened since. */
  lemma StoredEntryIgnored(h: History, id: int, at: int, o: Observation, config: HistoryConfig, clock: int, now: int)
    requires Inv(h, config, clock) && id in h.epochs && h.epochs[id].ended.None? && EntryAt(h.log[id], at).Some?
    ensures RecordInto(h, id, at, o, now) == h
  {
    hide Conserved, LifetimesApart, SpansOk, Referenced, Accepted;
    assert EpochOk(h.epochs[id], h.log[id], clock);
    EntryInLifetime(h.log[id], h.epochs[id].started, h.log[id].newest.at, at);
  }

  /** Every live epoch of the check has the observation or began no earlier. */
  ghost predicate Answered(h: History, key: CheckKey, at: int) {
    forall id :: id in StoredIds(h) && Live(h.epochs, id, key) ==>
      EntryAt(h.log[id], at).Some? || at <= h.epochs[id].started
  }

  lemma EntryKept(log: Log, later: Log, at: int)
    requires Grows(log, later) && EntryAt(log, at).Some?
    ensures EntryAt(later, at).Some?
    decreases later
  {
    if later != log {
      EntryKept(log, later.older, at);
    }
  }

  /** An epoch live after a transaction was live before it, or begins at its clock. */
  lemma LiveBefore(h: History, t: Transaction, config: HistoryConfig, after: History, id: int)
    requires Inv(h, config, t.now) && Next(h, t, config, after)
    requires id in StoredIds(after) && after.epochs[id].ended.None?
    ensures || (id in StoredIds(h) && h.epochs[id].ended.None? && Extends(PastOf(h, id), PastOf(after, id)))
            || (id !in StoredIds(h) && after.epochs[id].started == t.now)
  {
    hide Inv, Accepts, Accepted, Synced, Wants, LifetimesApart, EpochsOk, SpansOk, Referenced, ValidHosts, Prune.Pruned,
         Prune.PrunedBy, Grows;
    InvParts(h, config, t.now);
    NextOnlyGrows(h, t, config, after);
    match t.operation
    case Record(key, at, o) =>
      if HasLive(h.epochs, key) && Accepts(h, LiveId(h.epochs, key), at, t.now) {
        AcceptedKeys(h, LiveId(h.epochs, key), at, o);
      }
    case Synchronise(hosts) => SyncSame(h, after, Wants(hosts), t.now);
    case RollUp(limit) => RolledUpSame(h, t.now, config, limit, after);
    case PruneRows(usageRetention, limit, passes) =>
      Prune.PrunedKeeps(h, passes, t.now, config, usageRetention, limit);
      PrunedIds(h, passes, t.now, config);
  }

  lemma PrunedIds(h: History, p: Prune.Passes, now: int, config: HistoryConfig)
    requires Prune.Kept(h, p, now, config)
    ensures StoredIds(Prune.PrunedBy(h, p)) <= StoredIds(h)
  {
    hide Boundary, Prune.InUse;
  }

  lemma StepKeepsAnswered(w: World, t: Transaction, config: HistoryConfig, after: World, key: CheckKey, at: int)
    requires Inv(w.h, config, t.now) && IsStep(w, t, config, after) && Answered(w.h, key, at) && at <= t.now
    ensures Answered(after.h, key, at)
  {
    hide Inv, Next, Archives;
    forall id | id in StoredIds(after.h) && Live(after.h.epochs, id, key)
      ensures EntryAt(after.h.log[id], at).Some? || at <= after.h.epochs[id].started
    {
      LiveBefore(w.h, t, config, after.h, id);
      if id in StoredIds(w.h) && EntryAt(w.h.log[id], at).Some? {
        EntryKept(w.h.log[id], after.h.log[id], at);
      }
    }
  }

  lemma {:induction false} StaysAnswered(
    states: seq<World>, run: seq<Transaction>, config: HistoryConfig, i: nat, j: nat, key: CheckKey, at: int,
    o: Observation)
    requires config.Valid() && IsRun(states, run, config) && i < j <= |run| && AcceptsAt(states[i], run[i], key, at, o)
    ensures Answered(states[j].h, key, at)
  {
    hide Inv, Next, Archives, AcceptsAt, Answered;
    assert IsStep(states[j - 1], run[j - 1], config, states[j]);
    if j == i + 1 {
      RunsKeepInv(states, run, config, j, run[i].now);
      AnsweredAtOnce(states[i], run[i], config, states[j], key, at, o);
    } else {
      StaysAnswered(states, run, config, i, j - 1, key, at, o);
      RunsKeepInv(states, run, config, j - 1, run[j - 1].now);
      AcceptedInTime(states[i], run[i], key, at, o);
      StepKeepsAnswered(states[j - 1], run[j - 1], config, states[j], key, at);
    }
  }

  lemma AcceptedInTime(w: World, t: Transaction, key: CheckKey, at: int, o: Observation)
    requires AcceptsAt(w, t, key, at, o)
    ensures at <= t.now
  {
  }

  lemma AnsweredAtOnce(
    w: World, t: Transaction, config: HistoryConfig, after: World, key: CheckKey, at: int, o: Observation)
    requires IsStep(w, t, config, after) && AcceptsAt(w, t, key, at, o) && Inv(after.h, config, t.now)
    ensures Answered(after.h, key, at)
  {
    hide Inv, Next, Archives, AcceptsAt, LifetimesApart;
    AcceptedEntry(w, t, config, after, key, at, o);
    InvParts(after.h, config, t.now);
    var id := LiveId(w.h.epochs, key);
    LiveUnique(after.h, id, key);
    forall other | other in StoredIds(after.h) && Live(after.h.epochs, other, key)
      ensures EntryAt(after.h.log[other], at).Some?
    {
      LiveUnique(after.h, other, key);
    }
  }

  /** The live epoch of the check, empty so far, began at that very moment. */
  ghost predicate BeganAt(h: History, key: CheckKey, at: int) {
    && HasLive(h.epochs, key) && LiveId(h.epochs, key) in h.log
    && h.epochs[LiveId(h.epochs, key)].started == at && h.log[LiveId(h.epochs, key)] == Start
  }

  lemma EmptyAccepts(h: History, key: CheckKey, at: int, o: Observation, config: HistoryConfig, now: int)
    requires Inv(h, config, now) && RawLogged(h) && at <= now && BeganAt(h, key, at)
    ensures var id := LiveId(h.epochs, key); Accepts(h, id, at, now) && RecordInto(h, id, at, o, now) != h
  {
    hide Conserved, LifetimesApart, SpansOk, Referenced, AddSample, FlushTail, EventsWith;
    var id := LiveId(h.epochs, key);
    assert EpochOk(h.epochs[id], h.log[id], now);
    AcceptedLogs(h, id, at, o);
  }

  /** An epoch that takes an observation at its first moment is empty. */
  lemma TakesFirst(h: History, id: int, at: int, config: HistoryConfig, now: int)
    requires Inv(h, config, now) && id in h.epochs && id in h.log && h.epochs[id].ended.None?
    requires Accepts(h, id, at, now) && at <= h.epochs[id].started
    ensures h.epochs[id].started == at && h.log[id] == Start
  {
    hide Conserved, LifetimesApart, SpansOk, Referenced;
    assert EpochOk(h.epochs[id], h.log[id], now);
  }

  /**
   * Main result on retries: whatever happened in between, storing an accepted observation again
   * changes something if and only if the check's live epoch began at that very moment and has taken
   * nothing yet.
   */
  lemma RetryCountsOnce(
    states: seq<World>, run: seq<Transaction>, config: HistoryConfig, i: nat, j: nat, key: CheckKey, at: int,
    o: Observation, o': Observation)
    requires config.Valid() && IsRun(states, run, config) && i < j < |run|
    requires AcceptsAt(states[i], run[i], key, at, o) && run[j].operation == Record(key, at, o')
    ensures states[j + 1].h != states[j].h <==> BeganAt(states[j].h, key, at)
  {
    hide Inv, Archives, AcceptsAt, Accepts, Accepted, WorldOk, RawLogged;
    StaysAnswered(states, run, config, i, j, key, at, o);
    RunsKeepInv(states, run, config, j, run[j].now);
    WorldInv(states[j], config, run[j].now);
    assert IsStep(states[j], run[j], config, states[j + 1]);
    AcceptedInTime(states[i], run[i], key, at, o);
    var h, now := states[j].h, run[j].now;
    if BeganAt(h, key, at) {
      EmptyAccepts(h, key, at, o', config, now);
    } else if HasLive(h.epochs, key) && LiveId(h.epochs, key) in h.log {
      var id := LiveId(h.epochs, key);
      if EntryAt(h.log[id], at).Some? {
        StoredEntryIgnored(h, id, at, o', config, now, now);
      } else if Accepts(h, id, at, now) {
        TakesFirst(h, id, at, config, now);
      }
    }
  }

  /** Nothing at all changes while the epoch that took the observation stays live. */
  lemma {:induction false} EntryWhileLive(
    states: seq<World>, run: seq<Transaction>, config: HistoryConfig, i: nat, j: nat, key: CheckKey, at: int,
    o: Observation)
    requires config.Valid() && IsRun(states, run, config) && i < j <= |run| && AcceptsAt(states[i], run[i], key, at, o)
    requires forall m :: i < m <= j ==> Live(states[m].h.epochs, LiveId(states[i].h.epochs, key), key)
    ensures var id := LiveId(states[i].h.epochs, key);
      id in StoredIds(states[j].h) && EntryAt(states[j].h.log[id], at).Some?
  {
    hide Inv, Next, Archives;
    var id := LiveId(states[i].h.epochs, key);
    assert IsStep(states[j - 1], run[j - 1], config, states[j]);
    if j == i + 1 {
      AcceptedEntry(states[i], run[i], config, states[j], key, at, o);
    } else {
      EntryWhileLive(states, run, config, i, j - 1, key, at, o);
      RunsKeepInv(states, run, config, j - 1, run[j - 1].now);
      RunsKeepInv(states, run, config, j, run[j - 1].now);
      InvParts(states[j].h, config, run[j - 1].now);
      NextOnlyGrows(states[j - 1].h, run[j - 1], config, states[j].h);
      assert id in StoredIds(states[j].h);
      EntryKept(states[j - 1].h.log[id], states[j].h.log[id], at);
    }
  }

  lemma RetryInSameEpoch(
    states: seq<World>, run: seq<Transaction>, config: HistoryConfig, i: nat, j: nat, key: CheckKey, at: int,
    o: Observation, o': Observation)
    requires config.Valid() && IsRun(states, run, config) && i < j < |run|
    requires AcceptsAt(states[i], run[i], key, at, o) && run[j].operation == Record(key, at, o')
    requires forall m :: i < m <= j ==> Live(states[m].h.epochs, LiveId(states[i].h.epochs, key), key)
    ensures states[j + 1].h == states[j].h
  {
    hide Inv, Archives, Accepted, GoneHeldNothing, GoneOk, LifetimesApart;
    var id := LiveId(states[i].h.epochs, key);
    EntryWhileLive(states, run, config, i, j, key, at, o);
    RunsKeepInv(states, run, config, j, run[j].now);
    assert IsStep(states[j], run[j], config, states[j + 1]);
    InvParts(states[j].h, config, run[j].now);
    LiveUnique(states[j].h, id, key);
    StoredEntryIgnored(states[j].h, id, at, o', config, run[j].now, run[j].now);
  }
}
