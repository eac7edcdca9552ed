/**
 * Laying out the answer to a history request: the plan, the epochs and the empty series
 * (the first half of `query`, src/storage/sqlite/history/query.rs:156-228).
 */
module QuerySetup {
  import opened Prelude
  import opened HistoryStats
  import opened Tiers
  import opened History
  import opened Sums
  import opened Chart
  import opened Plans
  import opened Query
  import opened Accounts
  import opened HistoryDb
  import Percentile
  import Promises

  // ----- the plan -----

  method ChoosePlan(r: Request, config: HistoryConfig, now: int, epochs: nat) returns (plan: Plan)
    requires r.from < r.to <= now && r.maxPoints > 0
    ensures plan == PlanFor(r, config, now, epochs)
  {
    var source := DesiredSource(r, config, now);
    ghost var desired := source;
    while source < DAY && epochs * ((r.to - r.from) / Width(source) + 1) > 150_000
      invariant IsTier(source) && Coarsen(source, r, epochs) == Coarsen(desired, r, epochs)
      decreases DAY - source
    {
      source := if source == FIVE_MINUTES then HOUR else DAY;
    }
    plan := LayOut(r, config, now, source);
    SameLayout(r, config, now, epochs, source);
  }

  /** Round the range outwards to the source's buckets and group them. */
  method LayOut(r: Request, config: HistoryConfig, now: int, source: int) returns (plan: Plan)
    requires r.from < r.to <= now && r.maxPoints > 0 && IsTier(source)
    ensures plan == PlanWith(r, config, now, source)
  {
    RangeNotEmpty(r, now, source);
    hide Floor, Boundary, CeilDiv;
    var from := Floor(r.from, source);
    var top := Floor(r.to - 1, source) + Width(source);
    var to := Min(top, now);
    var most := r.maxPoints * Width(source);
    RoundsUp(to - from, most);
    var group := Max((to - from + most - 1) / most, 1);
    var width := group * Width(source);
    RoundsUp(to - from, width);
    var count := (to - from + width - 1) / width;
    plan := Plan(source, from, to, top, Boundary(now, config, source), group, count);
  }

  lemma RangeNotEmpty(r: Request, now: int, source: int)
    requires r.from < r.to <= now && IsTier(source)
    ensures Floor(r.from, source) < Min(Floor(r.to - 1, source) + Width(source), now)
  {
    FloorBounds(r.from, source);
    FloorBounds(r.to - 1, source);
    hide Floor;
  }

  lemma SameLayout(r: Request, config: HistoryConfig, now: int, epochs: nat, source: int)
    requires r.maxPoints > 0 && IsTier(source) && source == Coarsen(DesiredSource(r, config, now), r, epochs)
    ensures PlanWith(r, config, now, source) == PlanFor(r, config, now, epochs)
  {
  }

  // ----- choosing epochs -----

  /** At most 10 000 candidate epochs are read. */
  method ScanEpochs(db: Database, r: Request, now: int) returns (busy: bool, found: set<int>)
    ensures busy <==> |Candidates(db.Tables(), r, now)| > 10_000
    ensures !busy ==> found == Candidates(db.Tables(), r, now)
  {
    hide IsCandidate;
    ghost var wanted := Candidates(db.Tables(), r, now);
    found := {};
    var rest := db.epochs.Keys;
    while rest != {}
      invariant rest <= db.epochs.Keys && |found| <= 10_000
      invariant found <= wanted <= found + rest && found !! rest
      decreases rest
    {
      ghost var some := Member(rest);
      var id: int :| id in rest;
      rest := rest - {id};
      if IsCandidate(db.epochs[id], r, now) {
        found := found + {id};
        if |found| > 10_000 {
          SmallerSubset(found, wanted);
          return true, {};
        }
      }
    }
    assert found == wanted;
    busy := false;
  }

  // ----- opening the series -----

  ghost predicate Framed(out: Output, c: Reading) {
    && out.Keys == KeysOf(c.h, c.r, c.ids)
    && forall key :: key in out ==>
         |out[key]| == c.plan.count && forall k :: 0 <= k < c.plan.count ==> out[key][k] == Frame(c, key, k)
  }

  function EmptySeries(plan: Plan): (series: seq<OutBucket>)
    requires plan.count >= 0
    ensures |series| == plan.count
    ensures forall k :: 0 <= k < plan.count ==> series[k] == OutBucket(Edge(plan, k), CellEnd(plan, k), 0, ZERO, None)
  {
    seq(plan.count, k requires 0 <= k < plan.count => OutBucket(Edge(plan, k), CellEnd(plan, k), 0, ZERO, None))
  }

  function Extended(b: OutBucket, started: int, ended: int): OutBucket {
    b.(eligible := b.eligible + Clip(started, ended, b.start, b.end))
  }

  /** A series once an epoch with that lifetime has been counted in. */
  ghost predicate Counted(before: seq<OutBucket>, after: seq<OutBucket>, started: int, ended: int) {
    |after| == |before| && forall k :: 0 <= k < |before| ==> after[k] == Extended(before[k], started, ended)
  }

  method AddEligible(series: seq<OutBucket>, started: int, ended: int) returns (after: seq<OutBucket>)
    ensures Counted(series, after, started, ended)
  {
    after := series;
    for i := 0 to |series|
      invariant |after| == |series|
      invariant forall k :: 0 <= k < |series| ==>
        after[k] == if k < i then Extended(series[k], started, ended) else series[k]
    {
      after := after[i := Extended(after[i], started, ended)];
    }
  }

  function SeriesOf(out: Output, key: string, plan: Plan): seq<OutBucket>
    requires plan.count >= 0
  {
    if key in out then out[key] else EmptySeries(plan)
  }

  /** The output once an epoch has been counted in the series of `keys`. */
  ghost predicate CountedIn(out: Output, after: Output, keys: set<string>, plan: Plan, started: int, ended: int)
    requires plan.count >= 0
  {
    && after.Keys == out.Keys + keys
    && forall key :: key in after ==>
         if key in keys then Counted(SeriesOf(out, key, plan), after[key], started, ended)
         else key in out && after[key] == out[key]
  }

  lemma NoneCounted(out: Output, plan: Plan, started: int, ended: int)
    requires plan.count >= 0
    ensures CountedIn(out, out, {}, plan, started, ended)
  {
  }

  lemma CountedOne(
    out: Output, before: Output, done: set<string>, key: string, series: seq<OutBucket>, plan: Plan, started: int,
    ended: int)
    requires plan.count >= 0 && CountedIn(out, before, done, plan, started, ended) && key !in done
    requires Counted(SeriesOf(before, key, plan), series, started, ended)
    ensures CountedIn(out, before[key := series], done + {key}, plan, started, ended)
  {
    hide EmptySeries, Counted;
  }

  predicate TooMany(keys: set<string>) {
    |keys| > 16
  }

  lemma StillTooMany(some: set<string>, all: set<string>)
    requires some <= all && TooMany(some)
    ensures TooMany(all)
  {
    SmallerSubset(some, all);
  }

  /** More than sixteen series are refused. */
  method CountEpoch(out: Output, keys: set<string>, plan: Plan, started: int, ended: int)
    returns (tooMany: bool, after: Output)
    requires plan.count >= 0 && !TooMany(out.Keys)
    ensures tooMany <==> TooMany(out.Keys + keys)
    ensures !tooMany ==> CountedIn(out, after, keys, plan, started, ended) && after.Keys == out.Keys + keys
  {
    hide EmptySeries, Counted, CountedIn, SeriesOf, TooMany;
    after := out;
    var rest := keys;
    ghost var done: set<string> := {};
    NoneCounted(out, plan, started, ended);
    while rest != {}
      invariant done + rest == keys && done !! rest
      invariant !TooMany(after.Keys) && after.Keys == out.Keys + done
      invariant CountedIn(out, after, done, plan, started, ended)
      decreases rest
    {
      ghost var some := Member(rest);
      var key: string :| key in rest;
      var series := AddEligible(SeriesOf(after, key, plan), started, ended);
      CountedOne(out, after, done, key, series, plan, started, ended);
      after := after[key := series];
      rest := rest - {key};
      done := done + {key};
      if TooMany(after.Keys) {
        StillTooMany(after.Keys, out.Keys + keys);
        return true, after;
      }
    }
    assert done == keys;
    tooMany := false;
  }

  /** The reading with one more epoch selected. */
  function With(c: Reading, id: int): Reading {
    c.(ids := c.ids + {id})
  }

  lemma KeyedWith(c: Reading, id: int, key: string)
    requires id in c.h.epochs && id !in c.ids
    ensures Keyed(c.h, c.r, With(c, id).ids, key)
      == if key in Labels(c.h.epochs[id], c.r) then Keyed(c.h, c.r, c.ids, key) + {id} else Keyed(c.h, c.r, c.ids, key)
    ensures id !in Keyed(c.h, c.r, c.ids, key)
    ensures key !in KeysOf(c.h, c.r, c.ids) ==> Keyed(c.h, c.r, c.ids, key) == {}
  {
    hide Labels;
    if Keyed(c.h, c.r, c.ids, key) != {} {
      var other := Member(Keyed(c.h, c.r, c.ids, key));
    }
  }

  lemma KeysWith(c: Reading, id: int)
    requires id in c.h.epochs
    ensures KeysOf(c.h, c.r, With(c, id).ids) == KeysOf(c.h, c.r, c.ids) + Labels(c.h.epochs[id], c.r)
  {
    hide Labels;
  }

  lemma FrameWith(c: Reading, id: int, key: string, k: int)
    requires id in c.h.epochs && id !in c.ids
    ensures Frame(With(c, id), key, k)
      == if key in Labels(c.h.epochs[id], c.r)
         then Extended(Frame(c, key, k), c.h.epochs[id].started, EndAt(c.h.epochs[id], c.now))
         else Frame(c, key, k)
  {
    hide Labels, Edge, CellEnd, Keyed, KeysOf;
    var mine := Keyed(c.h, c.r, c.ids, key);
    KeyedWith(c, id, key);
    if key in Labels(c.h.epochs[id], c.r) {
      TotalPick(mine + {id}, id, Eligibles(c.h, c.plan, c.now, k));
      assert mine + {id} - {id} == mine;
    }
  }

  lemma FrameUnused(c: Reading, id: int, key: string, k: int)
    requires id in c.h.epochs && id !in c.ids && key !in KeysOf(c.h, c.r, c.ids)
    ensures Frame(c, key, k) == OutBucket(Edge(c.plan, k), CellEnd(c.plan, k), 0, ZERO, None)
  {
    hide Labels, Edge, CellEnd, Keyed, KeysOf;
    KeyedWith(c, id, key);
  }

  lemma FramedWith(out: Output, after: Output, c: Reading, id: int)
    requires c.plan.count >= 0 && id in c.h.epochs && id !in c.ids && Framed(out, c)
    requires var e := c.h.epochs[id]; CountedIn(out, after, Labels(e, c.r), c.plan, e.started, EndAt(e, c.now))
    ensures Framed(after, With(c, id))
  {
    hide Labels, Edge, CellEnd, Frame, KeysOf, Extended, EndAt;
    KeysWith(c, id);
    forall key | key in after
      ensures |after[key]| == c.plan.count
      ensures forall k :: 0 <= k < c.plan.count ==> after[key][k] == Frame(With(c, id), key, k)
    {
      forall k | 0 <= k < c.plan.count
        ensures |after[key]| == c.plan.count && after[key][k] == Frame(With(c, id), key, k)
      {
        FrameWith(c, id, key, k);
        if key !in out {
          FrameUnused(c, id, key, k);
        }
      }
    }
  }

  /** One series per label, with the configured time of every selected epoch. */
  method OpenSeries(db: Database, ghost c: Reading, r: Request, plan: Plan, now: int, ids: set<int>)
    returns (tooMany: bool, out: Output)
    requires c == Reading(db.Tables(), r, plan, now, ids) && plan.count >= 0 && ids <= db.epochs.Keys
    ensures tooMany <==> TooMany(KeysOf(c.h, r, ids))
    ensures !tooMany ==> Framed(out, c)
  {
    hide Framed, KeysOf, Labels, CountedIn;
    out := map[];
    var rest := ids;
    ghost var done: set<int> := {};
    NoSeries(c.(ids := {}));
    hide TooMany;
    while rest != {}
      invariant done + rest == ids && done !! rest
      invariant !TooMany(out.Keys) && out.Keys == KeysOf(c.h, r, done) && Framed(out, c.(ids := done))
      decreases rest
    {
      ghost var some := Member(rest);
      var id: int :| id in rest;
      var e := db.epochs[id];
      var keys := Labels(e, r);
      KeysWith(c.(ids := done), id);
      var before := out;
      tooMany, out := CountEpoch(before, keys, plan, e.started, EndAt(e, now));
      if tooMany {
        FewerKeys(c.h, r, done + {id}, ids);
        StillTooMany(KeysOf(c.h, r, done + {id}), KeysOf(c.h, r, ids));
        return;
      }
      FramedWith(before, out, c.(ids := done), id);
      done := done + {id};
      rest := rest - {id};
    }
    assert done == ids;
    tooMany := false;
  }

  lemma NoSeries(c: Reading)
    requires c.ids == {}
    ensures Framed(map[], c) && KeysOf(c.h, c.r, c.ids) == {}
  {
    hide Labels;
  }

  lemma FewerKeys(h: History, r: Request, some: set<int>, all: set<int>)
    requires some <= all
    ensures KeysOf(h, r, some) <= KeysOf(h, r, all)
  {
    hide Labels;
  }
}
