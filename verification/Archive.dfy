/**
 * Every epoch there ever was, with its log: the stored ones, and the ones pruning has deleted.
 * Row ids may be used again after a deletion; the archive keeps every opening apart.
 */
module Archive {
  import opened Prelude
  import opened HistoryStats
  import opened Tiers
  import opened History
  import opened Sums
  import opened Chart
  import opened Query
  import opened Untouched

  /** One opening of an epoch and the observations accepted into it. */
  datatype Past = Past(epoch: Epoch, log: Log)

  const NEVER := Past(Epoch(CheckKey("", "", ""), "", {}, Signature("", "", {}, 0, 0, 0), 0, None, 0, None), Start)

  ghost function PastOf(h: History, id: int): Past {
    if id in h.epochs && id in h.log then Past(h.epochs[id], h.log[id]) else NEVER
  }

  /** Some stored epochs as a list. */
  ghost function Listed(h: History, ids: set<int>): seq<Past> {
    if !exists id :: id in ids then []
    else
      var id := Pick(ids);
      [PastOf(h, id)] + Listed(h, ids - {id})
  }

  /** The tables and the epochs deleted from them so far. */
  datatype World = World(h: History, gone: seq<Past>)

  function StoredIds(h: History): set<int> {
    h.epochs.Keys * h.log.Keys
  }

  /** The archive: nothing is ever taken out of it. */
  ghost function Everything(w: World): seq<Past> {
    w.gone + Listed(w.h, StoredIds(w.h))
  }

  /** Whatever a transaction deletes from the tables goes into the archive. */
  ghost predicate Archives(w: World, after: World) {
    after.gone == w.gone + Listed(w.h, StoredIds(w.h) - StoredIds(after.h))
  }

  // ----- what the archive holds -----

  ghost predicate Archived(w: World, p: Past) {
    p in w.gone || exists id :: id in StoredIds(w.h) && p == PastOf(w.h, id)
  }

  lemma {:induction false} ListedAre(h: History, ids: set<int>)
    ensures forall id :: id in ids ==> PastOf(h, id) in Listed(h, ids)
    ensures forall p :: p in Listed(h, ids) ==> exists id :: id in ids && p == PastOf(h, id)
    decreases ids
  {
    hide PastOf;
    if exists id :: id in ids {
      var x := Pick(ids);
      ListedAre(h, ids - {x});
      forall p | p in Listed(h, ids)
        ensures exists id :: id in ids && p == PastOf(h, id)
      {
        if p != PastOf(h, x) {
          assert p in Listed(h, ids - {x});
        }
      }
    }
  }

  lemma EverythingIsArchived(w: World, p: Past)
    ensures p in Everything(w) <==> Archived(w, p)
  {
    hide PastOf, Listed, StoredIds;
    ListedAre(w.h, StoredIds(w.h));
  }

  // ----- the archive only grows -----

  ghost predicate Grows(log: Log, later: Log) {
    later == log || (later.Then? && Grows(log, later.older))
  }

  /** The same opening, later: more observations, perhaps an end. */
  ghost predicate Extends(p: Past, q: Past) {
    Continues(p.epoch, q.epoch) && Grows(p.log, q.log)
  }

  lemma {:induction false} GrowsFurther(a: Log, b: Log, c: Log)
    requires Grows(a, b) && Grows(b, c)
    ensures Grows(a, c)
    decreases c
  {
    if c != b {
      GrowsFurther(a, b, c.older);
    }
  }

  lemma ExtendsFurther(p: Past, q: Past, s: Past)
    requires Extends(p, q) && Extends(q, s)
    ensures Extends(p, s)
  {
    GrowsFurther(p.log, q.log, s.log);
  }

  /** A stored epoch that is still stored has only grown. */
  ghost predicate OnlyGrew(h: History, after: History) {
    forall id :: id in StoredIds(h) && id in StoredIds(after) ==> Extends(PastOf(h, id), PastOf(after, id))
  }

  lemma StaysArchived(w: World, after: World, p: Past) returns (q: Past)
    requires Archives(w, after) && OnlyGrew(w.h, after.h) && Archived(w, p)
    ensures Archived(after, q) && Extends(p, q)
  {
    hide PastOf, Listed, StoredIds, Grows;
    q := p;
    SelfExtends(p);
    if p !in w.gone {
      var id :| id in StoredIds(w.h) && p == PastOf(w.h, id);
      if id in StoredIds(after.h) {
        q := PastOf(after.h, id);
      } else {
        ListedAre(w.h, StoredIds(w.h) - StoredIds(after.h));
      }
    }
  }

  lemma SelfExtends(p: Past)
    ensures Extends(p, p)
  {
  }

  lemma {:induction false} EntryStays(log: Log, later: Log, started: int, end: int, at: int)
    requires Grows(log, later) && Ordered(later, started, end) && EntryAt(log, at).Some?
    ensures EntryAt(later, at) == EntryAt(log, at)
    decreases later
  {
    if later != log {
      EntryStays(log, later.older, started, later.newest.at - 1, at);
      EntryInLifetime(later.older, started, later.newest.at - 1, at);
    }
  }

  // ----- sums over the archive -----

  ghost function PastSum(pasts: seq<Past>, r: Request, key: string, f: Past -> Stats): Stats {
    if pasts == [] then ZERO
    else Merge(if AskedFor(pasts[0].epoch, r, key) then f(pasts[0]) else ZERO, PastSum(pasts[1..], r, key, f))
  }

  /** The truth of a bucket: the samples and the time of every epoch there ever was in the series. */
  ghost function TruthEver(w: World, r: Request, plan: Plan, now: int, key: string, k: int): Stats {
    PastSum(Everything(w), r, key, PastTruths(plan, now, k))
  }

  ghost function PastTruths(plan: Plan, now: int, k: int): Past -> Stats {
    (p: Past) => TruthOf(p.epoch, p.log, plan, now, k)
  }

  lemma {:induction false} PastSumSplits(a: seq<Past>, b: seq<Past>, r: Request, key: string, f: Past -> Stats)
    ensures PastSum(a + b, r, key, f) == Merge(PastSum(a, r, key, f), PastSum(b, r, key, f))
  {
    hide Merge, AskedFor;
    if a == [] {
      assert a + b == b;
      MergeZero(PastSum(b, r, key, f));
    } else {
      assert (a + b)[1..] == a[1..] + b;
      PastSumSplits(a[1..], b, r, key, f);
      MergeAssociates(
        if AskedFor(a[0].epoch, r, key) then f(a[0]) else ZERO, PastSum(a[1..], r, key, f), PastSum(b, r, key, f));
    }
  }

  lemma {:induction false} PastSumZero(pasts: seq<Past>, r: Request, key: string, f: Past -> Stats)
    requires forall i :: 0 <= i < |pasts| ==> f(pasts[i]) == ZERO
    ensures PastSum(pasts, r, key, f) == ZERO
  {
    hide Merge, AskedFor;
    if pasts != [] {
      PastSumZero(pasts[1..], r, key, f);
      MergeZero(ZERO);
    }
  }

  function Counting(h: History, ids: set<int>, r: Request, key: string): set<int> {
    set id | id in ids && id in h.epochs && AskedFor(h.epochs[id], r, key)
  }

  lemma {:induction false} PastSumListed(
    h: History, ids: set<int>, r: Request, key: string, f: Past -> Stats, g: int -> Stats)
    requires ids <= StoredIds(h) && forall id :: id in ids ==> f(PastOf(h, id)) == g(id)
    ensures PastSum(Listed(h, ids), r, key, f) == Sum(Counting(h, ids, r, key), g)
    decreases ids
  {
    hide Merge, AskedFor;
    if exists id :: id in ids {
      var x := Pick(ids);
      var rest := ids - {x};
      PastSumListed(h, rest, r, key, f, g);
      assert ([PastOf(h, x)] + Listed(h, rest))[1..] == Listed(h, rest);
      MergeZero(Sum(Counting(h, rest, r, key), g));
      if AskedFor(h.epochs[x], r, key) {
        SumPick(Counting(h, ids, r, key), x, g);
        assert Counting(h, ids, r, key) - {x} == Counting(h, rest, r, key);
      } else {
        assert Counting(h, ids, r, key) == Counting(h, rest, r, key);
      }
    } else {
      SumZero(Counting(h, ids, r, key), g);
    }
  }

  /** No deleted epoch has, or ever will have, a sample or any time in a bucket of an answer. */
  ghost predicate GoneHeldNothing(gone: seq<Past>, config: HistoryConfig, clock: int) {
    forall i, plan, now, k ::
      0 <= i < |gone| && clock <= now && PlanOk(plan, config, now) ==> PastTruths(plan, now, k)(gone[i]) == ZERO
  }

  lemma CountingIsAsked(h: History, r: Request, key: string)
    requires h.log.Keys == h.epochs.Keys
    ensures Counting(h, StoredIds(h), r, key) == Asked(h, r, key)
  {
    hide AskedFor;
    assert StoredIds(h) == h.epochs.Keys;
  }

  /** So the truth over everything there ever was is the truth over what is stored. */
  lemma TruthEverIsStored(
    w: World, r: Request, plan: Plan, config: HistoryConfig, clock: int, now: int, key: string, k: int)
    requires w.h.log.Keys == w.h.epochs.Keys && GoneHeldNothing(w.gone, config, clock)
    requires clock <= now && PlanOk(plan, config, now)
    ensures TruthEver(w, r, plan, now, key, k) == Sum(Asked(w.h, r, key), Truths(w.h, plan, now, k))
  {
    hide Merge, PlanOk, PastSum, Listed, TruthOf, Asked, Counting;
    var f, g, ids := PastTruths(plan, now, k), Truths(w.h, plan, now, k), StoredIds(w.h);
    forall i | 0 <= i < |w.gone|
      ensures f(w.gone[i]) == ZERO
    {
    }
    PastSumSplits(w.gone, Listed(w.h, ids), r, key, f);
    PastSumZero(w.gone, r, key, f);
    PastSumListed(w.h, ids, r, key, f, g);
    CountingIsAsked(w.h, r, key);
    MergeZero(Sum(Asked(w.h, r, key), g));
  }
}
