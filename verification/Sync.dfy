/**
 * Bringing the live epochs in line with the inventory
 * (`sync_epochs`, src/storage/sqlite/history/ingest.rs).
 */
module Sync {
  import opened Prelude
  import opened HistoryStats
  import opened Tiers
  import opened History
  import opened Ingest
  import opened Inventory

  /** SQLite numbers a new row one above the largest row id. */
  ghost function MaxId(ids: set<int>): (m: int)
    ensures m == 0 || m in ids
    ensures forall id :: id in ids ==> id <= m
  {
    if !exists id :: id in ids then 0
    else
      var id :| id in ids;
      var m := MaxId(ids - {id});
      assert ids == ids - {id} + {id};
      if id > m then id else m
  }

  ghost function NextId(epochs: map<int, Epoch>): (id: int)
    ensures id !in epochs
  {
    MaxId(epochs.Keys) + 1
  }

  ghost function LiveId(epochs: map<int, Epoch>, key: CheckKey): (id: int)
    requires HasLive(epochs, key)
    ensures id in epochs && Live(epochs, id, key)
  {
    var id :| id in epochs && Live(epochs, id, key);
    id
  }

  /** The check already has a live epoch with the same signature. */
  ghost predicate Current(epochs: map<int, Epoch>, w: Wanted) {
    HasLive(epochs, w.key) && epochs[LiveId(epochs, w.key)].signature == w.signature
  }

  ghost function Retire(h: History, key: CheckKey, now: int): History {
    if HasLive(h.epochs, key) then Close(h, LiveId(h.epochs, key), now) else h
  }

  ghost function SyncOne(h: History, w: Wanted, now: int): History {
    if Current(h.epochs, w) then h
    else
      var retired := Retire(h, w.key, now);
      Open(retired, NextId(retired.epochs), w, now)
  }

  ghost function SyncAll(h: History, wanted: seq<Wanted>, n: nat, now: int): History
    requires n <= |wanted|
  {
    if n == 0 then h else SyncOne(SyncAll(h, wanted, n - 1, now), wanted[n - 1], now)
  }

  predicate IsWanted(wanted: seq<Wanted>, key: CheckKey) {
    exists i :: 0 <= i < |wanted| && wanted[i].key == key
  }

  predicate Stale(epochs: map<int, Epoch>, wanted: seq<Wanted>, id: int) {
    id in epochs && epochs[id].ended.None? && !IsWanted(wanted, epochs[id].key)
  }

  /** Close the stale epochs among `order[..n]`, in that order. */
  function CloseStale(h: History, wanted: seq<Wanted>, order: seq<int>, n: nat, now: int): History
    requires n <= |order|
  {
    if n == 0 then h
    else
      var before := CloseStale(h, wanted, order, n - 1, now);
      if Stale(before.epochs, wanted, order[n - 1]) then Close(before, order[n - 1], now) else before
  }

  ghost predicate ListsLive(order: seq<int>, epochs: map<int, Epoch>) {
    forall id :: id in epochs && epochs[id].ended.None? ==> id in order
  }

  /** What one synchronisation does; the live epochs are listed in any order. */
  ghost predicate Synced(h: History, after: History, wanted: seq<Wanted>, now: int) {
    var synced := SyncAll(h, wanted, |wanted|, now);
    exists order :: ListsLive(order, synced.epochs) && after == CloseStale(synced, wanted, order, |order|, now)
  }

  /** The live epochs are exactly the wanted checks, with their current signatures. */
  ghost predicate InSync(epochs: map<int, Epoch>, wanted: seq<Wanted>) {
    && (forall i :: 0 <= i < |wanted| ==> Current(epochs, wanted[i]))
    && (forall id :: id in epochs && epochs[id].ended.None? ==> IsWanted(wanted, epochs[id].key))
  }

  // ----- proofs -----

  lemma NoneSynced(h: History, wanted: seq<Wanted>, now: int)
    ensures SyncAll(h, wanted, 0, now) == h
  {
  }

  lemma NextSynced(before: History, wanted: seq<Wanted>, n: nat, now: int)
    requires n < |wanted|
    ensures SyncAll(before, wanted, n + 1, now) == SyncOne(SyncAll(before, wanted, n, now), wanted[n], now)
  {
  }

  /** Lifetimes apart means one live epoch per check. */
  lemma LiveUnique(h: History, id: int, key: CheckKey)
    requires LifetimesApart(h) && Live(h.epochs, id, key)
    ensures HasLive(h.epochs, key) && LiveId(h.epochs, key) == id
  {
    var other := LiveId(h.epochs, key);
    assert !Before(h.epochs[other], h.epochs[id]) && !Before(h.epochs[id], h.epochs[other]);
  }

  /** Live epochs of every other check are untouched. */
  ghost predicate SameLive(h: History, after: History, key: CheckKey) {
    && (forall id, k :: k != key ==> (Live(after.epochs, id, k) <==> Live(h.epochs, id, k)))
    && (forall id, k :: k != key && Live(h.epochs, id, k) ==> after.epochs[id] == h.epochs[id])
  }

  lemma RetireKeepsInv(h: History, key: CheckKey, config: HistoryConfig, now: int)
    requires Inv(h, config, now)
    ensures Inv(Retire(h, key, now), config, now)
    ensures !HasLive(Retire(h, key, now).epochs, key)
    ensures SameLive(h, Retire(h, key, now), key)
  {
    hide Inv, FlushTail;
    if HasLive(h.epochs, key) {
      var id := LiveId(h.epochs, key);
      CloseKeepsInv(h, id, config, now);
      InvParts(h, config, now);
      var after := Close(h, id, now);
      forall other | other in after.epochs
        ensures !Live(after.epochs, other, key)
      {
        if other != id && Live(h.epochs, other, key) {
          LiveUnique(h, other, key);
        }
      }
    }
  }

  lemma SyncOneCurrent(h: History, w: Wanted, config: HistoryConfig, now: int)
    requires Inv(h, config, now) && w.freshness >= 0
    ensures var after := SyncOne(h, w, now);
      && Inv(after, config, now)
      && Current(after.epochs, w)
      && SameLive(h, after, w.key)
  {
    hide Inv, Close;
    if !Current(h.epochs, w) {
      var retired := Retire(h, w.key, now);
      RetireKeepsInv(h, w.key, config, now);
      var id := NextId(retired.epochs);
      OpenKeepsInv(retired, id, w, config, now);
      var after := Open(retired, id, w, now);
      assert Live(after.epochs, id, w.key);
      InvParts(after, config, now);
      LiveUnique(after, id, w.key);
    }
  }

  lemma StaysCurrent(h: History, after: History, key: CheckKey, w: Wanted)
    requires LifetimesApart(after) && SameLive(h, after, key) && w.key != key
    requires Current(h.epochs, w)
    ensures Current(after.epochs, w)
  {
    var id := LiveId(h.epochs, w.key);
    LiveUnique(after, id, w.key);
  }

  lemma {:induction false} SyncAllCurrent(h: History, wanted: seq<Wanted>, n: nat, config: HistoryConfig, now: int)
    requires Inv(h, config, now) && DistinctKeys(wanted) && n <= |wanted|
    requires forall i :: 0 <= i < |wanted| ==> wanted[i].freshness >= 0
    ensures Inv(SyncAll(h, wanted, n, now), config, now)
    ensures forall i :: 0 <= i < n ==> Current(SyncAll(h, wanted, n, now).epochs, wanted[i])
  {
    hide Inv, SyncOne, Current;
    if n > 0 {
      SyncAllCurrent(h, wanted, n - 1, config, now);
      var before := SyncAll(h, wanted, n - 1, now);
      var after := SyncOne(before, wanted[n - 1], now);
      SyncOneCurrent(before, wanted[n - 1], config, now);
      InvParts(after, config, now);
      forall i | 0 <= i < n - 1
        ensures Current(after.epochs, wanted[i])
      {
        StaysCurrent(before, after, wanted[n - 1].key, wanted[i]);
      }
    }
  }

  lemma {:induction false} CloseStaleKeeps(
    h: History, wanted: seq<Wanted>, order: seq<int>, n: nat, config: HistoryConfig, now: int)
    requires Inv(h, config, now) && n <= |order|
    ensures var after := CloseStale(h, wanted, order, n, now);
      && Inv(after, config, now)
      && after.epochs.Keys == h.epochs.Keys
      && (forall id :: id in h.epochs && IsWanted(wanted, h.epochs[id].key) ==> after.epochs[id] == h.epochs[id])
      && (forall id :: id in h.epochs && after.epochs[id].ended.None? ==> after.epochs[id] == h.epochs[id])
      && (forall i :: 0 <= i < n ==> !Stale(after.epochs, wanted, order[i]))
  {
    hide Inv, FlushTail;
    if n > 0 {
      CloseStaleKeeps(h, wanted, order, n - 1, config, now);
      var before := CloseStale(h, wanted, order, n - 1, now);
      if Stale(before.epochs, wanted, order[n - 1]) {
        CloseKeepsInv(before, order[n - 1], config, now);
      }
    }
  }

  lemma WantedStayCurrent(synced: History, after: History, wanted: seq<Wanted>, i: nat)
    requires i < |wanted| && Current(synced.epochs, wanted[i]) && LifetimesApart(after)
    requires forall id :: id in synced.epochs && IsWanted(wanted, synced.epochs[id].key) ==>
      id in after.epochs && after.epochs[id] == synced.epochs[id]
    ensures Current(after.epochs, wanted[i])
  {
    hide LifetimesApart;
    var id := LiveId(synced.epochs, wanted[i].key);
    assert IsWanted(wanted, wanted[i].key);
    LiveUnique(after, id, wanted[i].key);
  }

  /** Synchronising keeps every invariant and makes the live epochs exactly the inventory. */
  lemma SyncEstablishes(h: History, after: History, wanted: seq<Wanted>, config: HistoryConfig, now: int)
    requires Inv(h, config, now) && DistinctKeys(wanted) && Synced(h, after, wanted, now)
    requires forall i :: 0 <= i < |wanted| ==> wanted[i].freshness >= 0
    ensures Inv(after, config, now) && InSync(after.epochs, wanted)
  {
    hide Inv, SyncAll, CloseStale, Current, LifetimesApart, EpochsOk, SpansOk, Referenced, DistinctKeys, Stale,
        IsWanted, ListsLive;
    var synced := SyncAll(h, wanted, |wanted|, now);
    SyncAllCurrent(h, wanted, |wanted|, config, now);
    var order :| ListsLive(order, synced.epochs) && after == CloseStale(synced, wanted, order, |order|, now);
    CloseStaleKeeps(synced, wanted, order, |order|, config, now);
    InvParts(after, config, now);
    forall i | 0 <= i < |wanted|
      ensures Current(after.epochs, wanted[i])
    {
      WantedStayCurrent(synced, after, wanted, i);
    }
    OnlyWantedLive(synced, after, wanted, order);
  }

  lemma OnlyWantedLive(synced: History, after: History, wanted: seq<Wanted>, order: seq<int>)
    requires ListsLive(order, synced.epochs) && after.epochs.Keys == synced.epochs.Keys
    requires forall id :: id in synced.epochs && after.epochs[id].ended.None? ==> after.epochs[id] == synced.epochs[id]
    requires forall i :: 0 <= i < |order| ==> !Stale(after.epochs, wanted, order[i])
    ensures forall id :: id in after.epochs && after.epochs[id].ended.None? ==> IsWanted(wanted, after.epochs[id].key)
  {
    hide IsWanted;
    forall id | id in after.epochs && after.epochs[id].ended.None?
      ensures IsWanted(wanted, after.epochs[id].key)
    {
      var i :| 0 <= i < |order| && order[i] == id;
      assert !Stale(after.epochs, wanted, order[i]);
    }
  }

  lemma {:induction false} CurrentUnchanged(h: History, wanted: seq<Wanted>, n: nat, now: int)
    requires InSync(h.epochs, wanted) && n <= |wanted|
    ensures SyncAll(h, wanted, n, now) == h
  {
    hide Current;
    if n > 0 {
      CurrentUnchanged(h, wanted, n - 1, now);
    }
  }

  lemma {:induction false} NothingStale(h: History, wanted: seq<Wanted>, order: seq<int>, n: nat, now: int)
    requires InSync(h.epochs, wanted) && n <= |order|
    ensures CloseStale(h, wanted, order, n, now) == h
  {
    hide Current;
    if n > 0 {
      NothingStale(h, wanted, order, n - 1, now);
    }
  }

  /** Synchronising with the inventory already in force changes nothing, at any later time. */
  lemma SyncIdempotent(h: History, after: History, wanted: seq<Wanted>, now: int)
    requires InSync(h.epochs, wanted) && Synced(h, after, wanted, now)
    ensures after == h
  {
    hide InSync, SyncAll, CloseStale;
    CurrentUnchanged(h, wanted, |wanted|, now);
    var order :| ListsLive(order, h.epochs) && after == CloseStale(h, wanted, order, |order|, now);
    NothingStale(h, wanted, order, |order|, now);
  }
}
