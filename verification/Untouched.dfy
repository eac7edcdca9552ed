/**
 * What a transaction leaves alone: the raw and event rows, the logs of the stored epochs and all
 * of an epoch but its end and its latest observation.
 */
module Untouched {
  import opened Prelude
  import opened HistoryStats
  import opened Tiers
  import opened History
  import opened Ingest
  import opened Inventory
  import opened Sync
  import Rollup

  /** The same epoch, later; once ended it stays so. */
  predicate Continues(e: Epoch, later: Epoch) {
    later == e.(ended := later.ended, last := later.last) && (e.ended.Some? ==> later.ended == e.ended)
  }

  /** Neither the raw rows, the events nor the log of any stored epoch change; new epochs begin empty, now. */
  ghost predicate SameRecords(h: History, after: History, now: int) {
    && after.raw == h.raw && after.events == h.events
    && (forall id :: id in h.epochs && id in h.log ==>
          && id in after.epochs && id in after.log
          && after.log[id] == h.log[id] && Continues(h.epochs[id], after.epochs[id]))
    && (forall id :: id in after.epochs && id in after.log && !(id in h.epochs && id in h.log) ==>
          after.log[id] == Start && after.epochs[id].started == now && id !in h.epochs)
  }

  // ----- synchronisation -----

  lemma SameTwice(a: History, b: History, c: History, now: int)
    requires SameRecords(a, b, now) && SameRecords(b, c, now) && a.log.Keys == a.epochs.Keys
    ensures SameRecords(a, c, now)
  {
  }

  lemma SyncOneSame(h: History, w: Wanted, now: int)
    requires h.log.Keys == h.epochs.Keys
    ensures var after := SyncOne(h, w, now); SameRecords(h, after, now) && after.log.Keys == after.epochs.Keys
  {
    hide Close, Open, SameRecords, Current;
    SameAsItself(h, now);
    var retired := Retire(h, w.key, now);
    if HasLive(h.epochs, w.key) {
      CloseSame(h, LiveId(h.epochs, w.key), now);
    }
    OpenSame(retired, NextId(retired.epochs), w, now);
    SameTwice(h, retired, Open(retired, NextId(retired.epochs), w, now), now);
  }

  lemma OpenSame(h: History, id: int, w: Wanted, now: int)
    requires id !in h.epochs && h.log.Keys == h.epochs.Keys
    ensures SameRecords(h, Open(h, id, w, now), now) && Open(h, id, w, now).log.Keys == Open(h, id, w, now).epochs.Keys
  {
  }

  lemma {:induction false} SyncAllSame(h: History, wanted: seq<Wanted>, n: nat, now: int)
    requires h.log.Keys == h.epochs.Keys && n <= |wanted|
    ensures var after := SyncAll(h, wanted, n, now); SameRecords(h, after, now) && after.log.Keys == after.epochs.Keys
  {
    hide SyncOne, SameRecords;
    if n == 0 {
      SameAsItself(h, now);
    } else {
      SyncAllSame(h, wanted, n - 1, now);
      var before := SyncAll(h, wanted, n - 1, now);
      SyncOneSame(before, wanted[n - 1], now);
      SameTwice(h, before, SyncAll(h, wanted, n, now), now);
    }
  }

  lemma SameAsItself(h: History, now: int)
    ensures SameRecords(h, h, now)
  {
  }

  lemma CloseSame(h: History, id: int, now: int)
    requires id in h.epochs && h.epochs[id].ended.None?
    ensures var after := Close(h, id, now);
      SameRecords(h, after, now) && after.epochs.Keys == h.epochs.Keys && after.log == h.log
  {
    hide FlushTail;
  }

  lemma {:induction false} CloseStaleSame(h: History, wanted: seq<Wanted>, order: seq<int>, n: nat, now: int)
    requires h.log.Keys == h.epochs.Keys && n <= |order|
    ensures var after := CloseStale(h, wanted, order, n, now);
      SameRecords(h, after, now) && after.log.Keys == after.epochs.Keys
  {
    hide Close, SameRecords, IsWanted;
    if n == 0 {
      SameAsItself(h, now);
    } else {
      CloseStaleSame(h, wanted, order, n - 1, now);
      var before := CloseStale(h, wanted, order, n - 1, now);
      if Stale(before.epochs, wanted, order[n - 1]) {
        CloseSame(before, order[n - 1], now);
        SameTwice(h, before, Close(before, order[n - 1], now), now);
      }
    }
  }

  // ----- rollup -----

  lemma StepSame(h: History, now: int, config: HistoryConfig)
    requires h.spans != []
    ensures SameRecords(h, Rollup.Step(h, now, config), now) && Rollup.Step(h, now, config).log == h.log
    ensures Rollup.Step(h, now, config).epochs == h.epochs
  {
    hide Rollup.CreditAll, Rollup.ChunkEnd, DurationStats, Boundary;
  }

  lemma {:induction false} StepsSame(h: History, now: int, config: HistoryConfig, n: nat)
    requires h.log.Keys == h.epochs.Keys
    ensures var after := Rollup.Steps(h, now, config, n);
      SameRecords(h, after, now) && after.log == h.log && after.epochs == h.epochs
  {
    hide Rollup.Step, SameRecords;
    if n == 0 {
      SameAsItself(h, now);
    } else {
      StepsSame(h, now, config, n - 1);
      var before := Rollup.Steps(h, now, config, n - 1);
      if before.spans != [] {
        StepSame(before, now, config);
        SameTwice(h, before, Rollup.Step(before, now, config), now);
      }
    }
  }

  lemma SyncSame(h: History, after: History, wanted: seq<Wanted>, now: int)
    requires h.log.Keys == h.epochs.Keys && Synced(h, after, wanted, now)
    ensures SameRecords(h, after, now) && after.log.Keys == after.epochs.Keys
  {
    hide SameRecords, SyncAll, CloseStale, ListsLive;
    var synced := SyncAll(h, wanted, |wanted|, now);
    SyncAllSame(h, wanted, |wanted|, now);
    var order :| ListsLive(order, synced.epochs) && after == CloseStale(synced, wanted, order, |order|, now);
    CloseStaleSame(synced, wanted, order, |order|, now);
    SameTwice(h, synced, after, now);
  }
}
