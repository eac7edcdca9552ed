/** Runs that show where the documented promises stop: pruning that shows, and a sample that is missed. */
module Witnesses {
  import opened Prelude
  import opened HistoryStats
  import opened Tiers
  import opened History
  import opened Ingest
  import opened Inventory
  import opened Sync
  import opened Chart
  import opened Plans
  import opened Query
  import opened Archive
  import opened HistoryRuns
  import Prune
  import Sums
  import Truth

  const CONFIG := HistoryConfig(Width(DAY), Width(DAY), Width(DAY), Width(DAY), Width(DAY))

  const HOST := Host("h", "a", "n", [], Module(true, 60_000, 1_000), Module(false, 1, 1), Module(false, 1, 1), [])
  const MOVED := HOST.(address := "b")
  const KEY := CheckKey("h", "icmp", "")

  function Wish(host: Host): Wanted {
    Want(host, "icmp", "", host.icmp, 0)
  }

  lemma OneWish(host: Host)
    requires host == HOST || host == MOVED
    ensures ValidHosts([host]) && Wants([host]) == [Wish(host)] && Wish(host).key == KEY
  {
    assert Wants([host][1..]) == [];
  }

  /** An inventory of one check whose epoch is the only live one is in force after one step. */
  lemma SyncsTo(h: History, w: Wanted, now: int, after: History, id: int)
    requires after == SyncOne(h, w, now)
    requires forall other :: other in after.epochs && after.epochs[other].ended.None? ==>
      other == id && after.epochs[id].key == w.key
    ensures Synced(h, after, [w], now)
  {
    hide SyncOne;
    var wanted, order := [w], [id];
    assert SyncAll(h, wanted, 0, now) == h;
    assert SyncAll(h, wanted, 1, now) == after;
    assert CloseStale(after, wanted, order, 0, now) == after;
    assert IsWanted(wanted, w.key) by { assert wanted[0].key == w.key; }
    assert CloseStale(after, wanted, order, 1, now) == after;
  }

  /** The store once the host is configured. */
  function Configured(): History {
    Open(EMPTY, 1, Wish(HOST), 0)
  }

  lemma FirstStep()
    ensures Next(EMPTY, Transaction(Synchronise([HOST]), 0), CONFIG, Configured())
  {
    OneWish(HOST);
    assert NextId(EMPTY.epochs) == 1;
    SyncsTo(EMPTY, Wish(HOST), 0, Configured(), 1);
  }

  lemma KeepsAll(w: World, after: World)
    requires StoredIds(w.h) <= StoredIds(after.h) && after.gone == w.gone
    ensures Archives(w, after)
  {
    assert StoredIds(w.h) - StoredIds(after.h) == {};
  }

  // ----- pruning that shows -----

  /** The host is no longer configured. */
  function Dropped(): History {
    Close(Configured(), 1, 1000)
  }

  lemma DropStep()
    ensures Next(Configured(), Transaction(Synchronise([]), 1000), CONFIG, Dropped())
  {
    var h, order := Configured(), [1];
    assert SyncAll(h, [], 0, 1000) == h;
    assert CloseStale(h, [], order, 0, 1000) == h;
    assert CloseStale(h, [], order, 1, 1000) == Dropped();
    assert ListsLive(order, h.epochs);
    assert Synced(h, Dropped(), [], 1000);
  }

  const PASSES := Prune.Passes(map[], map[], map[], map[], map[], map[], map[])

  /** A day and two seconds later the epoch is past every retention. */
  const PRUNED_AT := Width(DAY) + 2000

  lemma DroppedIs()
    ensures var h := Dropped();
      && h == EMPTY.(epochs := h.epochs, log := map[1 := Start]) && h.epochs.Keys == {1}
      && h.epochs[1].started == 0 && h.epochs[1].ended == Some(1000) && h.epochs[1].key == KEY
      && h.epochs[1].last == None
  {
  }

  lemma NoRowsToTrim(epochs: map<int, Epoch>, now: int)
    ensures var cutoff := Cutoff(now, Width(DAY));
      && Prune.Trimmed(map[], PASSES.raw1, Prune.ExpiredRaw(epochs, map[], false, cutoff), 1000)
      && Prune.Trimmed(PASSES.raw1, PASSES.raw2, Prune.ExpiredRaw(epochs, PASSES.raw1, true, cutoff), 1000)
    ensures Prune.Trimmed(map[], PASSES.events, Prune.ExpiredEvents(map[], Cutoff(now, CONFIG.eventRetention)), 1000)
    ensures Prune.Trimmed(map[], PASSES.fine, Prune.ExpiredBuckets(map[], now, CONFIG, FIVE_MINUTES), 1000)
    ensures Prune.Trimmed(PASSES.fine, PASSES.hourly, Prune.ExpiredBuckets(PASSES.fine, now, CONFIG, HOUR), 1000)
    ensures Prune.Trimmed(PASSES.hourly, PASSES.daily, Prune.ExpiredBuckets(PASSES.hourly, now, CONFIG, DAY), 1000)
  {
    hide Boundary;
  }

  lemma PruneStep()
    ensures Next(Dropped(), Transaction(PruneRows(Width(DAY), 1000, PASSES), PRUNED_AT), CONFIG, EMPTY)
  {
    hide Dropped, Prune.ExpiredRaw, Prune.ExpiredEvents, Prune.ExpiredBuckets, Prune.Unreferenced, Prune.RowsPruned;
    DroppedIs();
    NoRowsToTrim(Dropped().epochs, PRUNED_AT);
    OneUnreferenced();
    var h := Dropped();
    assert h.epochs - {1} == map[];
    NothingLeft();
  }

  lemma OneUnreferenced()
    ensures Prune.Unreferenced(Prune.RowsPruned(Dropped(), PASSES), Prune.EpochCutoff(PRUNED_AT, CONFIG)) == {1}
  {
    hide Dropped;
    DroppedIs();
  }

  lemma NothingLeft()
    ensures Prune.PrunedBy(Dropped(), PASSES) == EMPTY
  {
    hide Dropped;
    DroppedIs();
  }

  /** The range from the epoch's first moment until now. */
  const WHOLE := Request(0, PRUNED_AT, "icmp", None, [], [], "all", 100)

  lemma WholeIsValid()
    ensures CONFIG.Valid() && ValidRequest(WHOLE, PRUNED_AT) && WHOLE.(to := Min(WHOLE.to, PRUNED_AT)) == WHOLE
  {
  }

  lemma WholeFrom(epochs: nat)
    ensures var plan := PlanFor(WHOLE, CONFIG, PRUNED_AT, epochs);
      plan.source == DAY && plan.from == 0 && plan.to == PRUNED_AT
  {
    hide CeilDiv, Boundary, Coarsen;
    SourceIsFinest(WHOLE, CONFIG, PRUNED_AT, epochs);
  }

  lemma DroppedSelected(plan: Plan)
    requires plan.from == 0 && plan.to == PRUNED_AT
    ensures var ids := Selected(Dropped(), WHOLE, plan, PRUNED_AT);
      ids == Candidates(Dropped(), WHOLE, PRUNED_AT) == {1} && KeysOf(Dropped(), WHOLE, ids) == {"all"}
  {
    hide Dropped;
    DroppedIs();
    OnlySeries(Dropped(), WHOLE, Selected(Dropped(), WHOLE, plan, PRUNED_AT), 1);
  }

  lemma OnlySeries(h: History, r: Request, ids: set<int>, id: int)
    requires id in ids && id in h.epochs && r.breakdown == "all"
    ensures KeysOf(h, r, ids) == {"all"}
  {
    assert "all"[0] != "host"[0] && "all"[0] != "group"[0];
    assert "all" in Labels(h.epochs[id], r);
  }

  lemma DroppedShows(a: Result)
    requires IsAnswer(Dropped(), WHOLE, CONFIG, PRUNED_AT, a)
    ensures a.Ok? && a.response.source == DAY && a.response.series.Keys == {"all"}
  {
    hide Dropped, PlanFor, ValidRequest, Cell, Selected, Candidates, KeysOf, IsEarliest;
    DroppedIs();
    WholeIsValid();
    var n := |Candidates(Dropped(), WHOLE, PRUNED_AT)|;
    WholeFrom(n);
    DroppedSelected(PlanFor(WHOLE, CONFIG, PRUNED_AT, n));
  }

  lemma NothingShows(a: Result)
    requires IsAnswer(EMPTY, WHOLE, CONFIG, PRUNED_AT, a)
    ensures a.Ok? && a.response.source == DAY && a.response.series == map[]
  {
    hide PlanFor, ValidRequest, Cell, IsEarliest;
    WholeIsValid();
    var n := |Candidates(EMPTY, WHOLE, PRUNED_AT)|;
    WholeFrom(n);
  }

  const CONFIGURE := Transaction(Synchronise([HOST]), 0)
  const DROP := Transaction(Synchronise([]), 1000)
  const PRUNE := Transaction(PruneRows(Width(DAY), 1000, PASSES), PRUNED_AT)

  lemma DroppedArchive() returns (gone: seq<Past>)
    ensures Archives(World(EMPTY, []), World(Configured(), []))
    ensures Archives(World(Configured(), []), World(Dropped(), []))
    ensures Archives(World(Dropped(), []), World(EMPTY, gone))
  {
    KeepsAll(World(EMPTY, []), World(Configured(), []));
    KeepsAll(World(Configured(), []), World(Dropped(), []));
    gone := [] + Listed(Dropped(), StoredIds(Dropped()) - StoredIds(EMPTY));
  }

  lemma DroppedSteps() returns (gone: seq<Past>)
    ensures IsStep(World(EMPTY, []), CONFIGURE, CONFIG, World(Configured(), []))
    ensures IsStep(World(Configured(), []), DROP, CONFIG, World(Dropped(), []))
    ensures IsStep(World(Dropped(), []), PRUNE, CONFIG, World(EMPTY, gone))
  {
    hide Next, Configured, Dropped, Archives, Listed;
    FirstStep();
    DropStep();
    PruneStep();
    gone := DroppedArchive();
  }

  lemma RunOfThree(w0: World, w1: World, w2: World, w3: World, t0: Transaction, t1: Transaction, t2: Transaction)
    requires w0 == World(EMPTY, []) && t0.now <= t1.now <= t2.now
    requires IsStep(w0, t0, CONFIG, w1) && IsStep(w1, t1, CONFIG, w2) && IsStep(w2, t2, CONFIG, w3)
    ensures IsRun([w0, w1, w2, w3], [t0, t1, t2], CONFIG)
  {
    hide IsStep;
  }

  /**
   * Pruning can change an answer: a check is configured, dropped a second later and its epoch is
   * deleted a day after that; from the same source tier, its series is there before and gone after.
   */
  lemma PruningCanShow() returns (states: seq<World>, run: seq<Transaction>, a: Result, b: Result)
    ensures CONFIG.Valid() && IsRun(states, run, CONFIG) && run == [CONFIGURE, DROP, PRUNE] && |states| == 4
    ensures IsAnswer(states[2].h, WHOLE, CONFIG, PRUNED_AT, a) && IsAnswer(states[3].h, WHOLE, CONFIG, PRUNED_AT, b)
    ensures a.Ok? && b.Ok? && a.response.source == b.response.source
    ensures a.response.series.Keys == {"all"} && b.response.series == map[]
  {
    hide IsStep, IsRun, Configured, Dropped, IsAnswer;
    var gone := DroppedSteps();
    run := [CONFIGURE, DROP, PRUNE];
    states := [World(EMPTY, []), World(Configured(), []), World(Dropped(), []), World(EMPTY, gone)];
    RunOfThree(states[0], states[1], states[2], states[3], CONFIGURE, DROP, PRUNE);
    WholeIsValid();
    a := AnswerExists(Dropped(), WHOLE, CONFIG, PRUNED_AT);
    b := AnswerExists(EMPTY, WHOLE, CONFIG, PRUNED_AT);
    DroppedShows(a);
    NothingShows(b);
  }

  // ----- a sample that is missed, and one taken twice -----

  /** The start of a 5-minute bucket. */
  const EDGE := 300_000

  const UP := Observation("up", true, None, None, None, None)

  /** The store after an observation at the edge. */
  function Taken(): History {
    Accepted(Configured(), 1, EDGE, UP)
  }

  lemma ConfiguredIs()
    ensures var h := Configured();
      && h.epochs.Keys == {1} && h.log == map[1 := Start] && h.raw == map[] && h.spans == [] && h.buckets == map[]
      && h.epochs[1] == Epoch(KEY, "n", {}, Wish(HOST).signature, 0, None, 121_000, None)
  {
  }

  lemma TakeStep()
    ensures Next(Configured(), Transaction(Record(KEY, EDGE, UP), EDGE), CONFIG, Taken())
  {
    hide Configured, Accepted;
    ConfiguredIs();
    assert Live(Configured().epochs, 1, KEY);
  }

  lemma TakenIs()
    ensures var h := Taken();
      && h.epochs.Keys == {1} && h.log == map[1 := Then(Start, Entry(EDGE, UP))] && h.raw.Keys == {(1, EDGE)}
      && h.spans == []
      && h.epochs[1] == Epoch(KEY, "n", {}, Wish(HOST).signature, 0, None, 121_000, Some(Entry(EDGE, UP)))
      && forall k :: k in h.buckets ==> k.epoch == 1
  {
    hide Configured, SampleStats, Floor;
    ConfiguredIs();
  }

  /** The store after a reload at the same moment that gives the host another address. */
  function Reloaded(): History {
    Open(Close(Taken(), 1, EDGE), 2, Wish(MOVED), EDGE)
  }

  lemma ReloadedIs()
    ensures var h := Reloaded();
      && h.epochs.Keys == {1, 2} && h.log == map[1 := Then(Start, Entry(EDGE, UP)), 2 := Start]
      && h.raw.Keys == {(1, EDGE)} && h.spans == []
      && h.epochs[1] == Epoch(KEY, "n", {}, Wish(HOST).signature, 0, Some(EDGE), 121_000, None)
      && h.epochs[2] == Epoch(KEY, "n", {}, Wish(MOVED).signature, EDGE, None, 121_000, None)
      && forall k :: k in h.buckets ==> k.epoch == 1
  {
    hide Taken;
    TakenIs();
  }

  lemma ReloadStep()
    ensures Next(Taken(), Transaction(Synchronise([MOVED]), EDGE), CONFIG, Reloaded())
  {
    hide Taken, Close, Open;
    OneWish(MOVED);
    TakenIs();
    ReloadedIs();
    var h := Taken();
    assert Live(h.epochs, 1, KEY);
    assert LiveId(h.epochs, KEY) == 1;
    assert "a"[0] != "b"[0];
    assert Wish(HOST).signature != Wish(MOVED).signature;
    assert Retire(h, KEY, EDGE) == Close(h, 1, EDGE);
    ClosedIds();
    assert SyncOne(h, Wish(MOVED), EDGE) == Reloaded();
    SyncsTo(h, Wish(MOVED), EDGE, Reloaded(), 2);
  }

  lemma ClosedIds()
    ensures var closed := Close(Taken(), 1, EDGE); closed.epochs.Keys == {1} && NextId(closed.epochs) == 2
  {
    hide Taken;
    TakenIs();
  }

  /** The second after the edge. */
  const ASKED_AT := EDGE + 1000
  const SECOND := Request(EDGE, ASKED_AT, "icmp", None, [], [], "all", 100)

  lemma SecondIsValid()
    ensures ValidRequest(SECOND, ASKED_AT) && SECOND.(to := Min(SECOND.to, ASKED_AT)) == SECOND
  {
  }

  lemma SecondFrom(epochs: nat)
    requires epochs <= 2
    ensures var plan := PlanFor(SECOND, CONFIG, ASKED_AT, epochs);
      plan.source == FIVE_MINUTES && plan.from == EDGE && plan.to == ASKED_AT
  {
    hide CeilDiv, Boundary, Coarsen;
    SourceIsFinest(SECOND, CONFIG, ASKED_AT, epochs);
  }

  lemma ReloadedSelected(plan: Plan)
    requires plan.from == EDGE && plan.to == ASKED_AT
    ensures var ids := Selected(Reloaded(), SECOND, plan, ASKED_AT);
      ids == {2} && KeysOf(Reloaded(), SECOND, ids) == {"all"} && BucketRows(Reloaded(), plan, ids) == {}
      && SpanRows(Reloaded(), plan, ids) == {}
    ensures |Candidates(Reloaded(), SECOND, ASKED_AT)| <= 2
  {
    hide Reloaded;
    ReloadedIs();
    SmallerSubset(Candidates(Reloaded(), SECOND, ASKED_AT), {1, 2});
    OnlySeries(Reloaded(), SECOND, Selected(Reloaded(), SECOND, plan, ASKED_AT), 2);
  }

  lemma ReloadedShows(a: Result)
    requires IsAnswer(Reloaded(), SECOND, CONFIG, ASKED_AT, a) && Inv(Reloaded(), CONFIG, ASKED_AT)
    ensures a.Ok? && a.response.series.Keys == {"all"} && |a.response.series["all"]| > 0
    ensures var bucket := a.response.series["all"][0];
      bucket.start == EDGE < bucket.end && bucket.stats == ZERO
  {
    hide Reloaded, PlanFor, ValidRequest, Selected, Candidates, KeysOf, IsEarliest, Inv, Merge, Truths,
         Truth.Shown, PlanOk;
    SecondIsValid();
    ReloadedCandidates();
    var n := |Candidates(Reloaded(), SECOND, ASKED_AT)|;
    SecondFrom(n);
    var plan := PlanFor(SECOND, CONFIG, ASKED_AT, n);
    PlanTiles(SECOND, CONFIG, ASKED_AT, n);
    PlanShape(SECOND, CONFIG, ASKED_AT, n);
    EdgeStep(plan, 0);
    ReloadedSelected(plan);
    Truth.SelectedTruth(Reloaded(), SECOND, CONFIG, ASKED_AT, ASKED_AT, a, "all", 0);
    var mine := Truth.Shown(Reloaded(), SECOND, plan, ASKED_AT, "all");
    ReloadedShown(plan);
    EmptyLog(plan, 0);
    Sums.SumZero(mine, Truths(Reloaded(), plan, ASKED_AT, 0));
  }

  lemma ReloadedShown(plan: Plan)
    requires plan.from == EDGE
    ensures Truth.Shown(Reloaded(), SECOND, plan, ASKED_AT, "all") <= {2}
  {
    hide Reloaded, Asked;
    ReloadedIs();
  }

  lemma ReloadedCandidates()
    ensures |Candidates(Reloaded(), SECOND, ASKED_AT)| <= 2
  {
    ReloadedSelected(Plan(FIVE_MINUTES, EDGE, ASKED_AT, 0, 0, 1, 1));
  }

  lemma EmptyLog(plan: Plan, k: int)
    ensures Truths(Reloaded(), plan, ASKED_AT, k)(2) == ZERO
  {
    hide Reloaded, Merge;
    ReloadedIs();
    MergeZero(ZERO);
  }

  const TAKE := Transaction(Record(KEY, EDGE, UP), EDGE)
  const RELOAD := Transaction(Synchronise([MOVED]), EDGE)

  lemma ChartArchives()
    ensures Archives(World(EMPTY, []), World(Configured(), [])) && Archives(World(Configured(), []), World(Taken(), []))
    ensures Archives(World(Taken(), []), World(Reloaded(), []))
  {
    hide Configured, Taken, Reloaded, Archives;
    ConfiguredIs();
    TakenIs();
    ReloadedIs();
    KeepsAll(World(EMPTY, []), World(Configured(), []));
    KeepsAll(World(Configured(), []), World(Taken(), []));
    KeepsAll(World(Taken(), []), World(Reloaded(), []));
  }

  lemma ReloadSteps()
    ensures IsStep(World(EMPTY, []), CONFIGURE, CONFIG, World(Configured(), []))
    ensures IsStep(World(Configured(), []), TAKE, CONFIG, World(Taken(), []))
    ensures IsStep(World(Taken(), []), RELOAD, CONFIG, World(Reloaded(), []))
  {
    hide Next, Configured, Taken, Reloaded, Archives;
    FirstStep();
    TakeStep();
    ReloadStep();
    ChartArchives();
  }

  lemma LastOk(states: seq<World>, run: seq<Transaction>)
    requires CONFIG.Valid() && IsRun(states, run, CONFIG) && run == [CONFIGURE, TAKE, RELOAD]
    ensures |states| == 4 && Inv(states[3].h, CONFIG, ASKED_AT)
  {
    hide IsStep, WorldOk, Inv;
    RunsKeepInv(states, run, CONFIG, 3, ASKED_AT);
  }

  lemma AcceptedBothTimes()
    ensures AcceptsAt(World(Configured(), []), TAKE, KEY, EDGE, UP)
    ensures AcceptsAt(World(Reloaded(), []), TAKE, KEY, EDGE, UP)
  {
    hide Configured, Reloaded;
    ConfiguredIs();
    ReloadedIs();
    assert Live(Configured().epochs, 1, KEY) && Live(Reloaded().epochs, 2, KEY);
  }

  /**
   * A chart can miss a sample, and a repeated observation can be taken twice: a check reports at the
   * start of a bucket and a reload at the same moment opens a new epoch.  The bucket that begins
   * there shows no sample, and the same observation, stored again, is accepted into the new epoch.
   */
  lemma SampleAtTheEdge() returns (states: seq<World>, run: seq<Transaction>, a: Result)
    ensures CONFIG.Valid() && IsRun(states, run, CONFIG) && run == [CONFIGURE, TAKE, RELOAD] && |states| == 4
    ensures AcceptsAt(states[1], TAKE, KEY, EDGE, UP)
    ensures IsAnswer(states[3].h, SECOND, CONFIG, ASKED_AT, a)
    ensures a.Ok? && a.response.series.Keys == {"all"} && |a.response.series["all"]| > 0
    ensures var bucket := a.response.series["all"][0];
      bucket.start <= EDGE < bucket.end && bucket.stats.samples == 0
    ensures AcceptsAt(states[3], TAKE, KEY, EDGE, UP)
  {
    hide IsStep, IsRun, Configured, Taken, Reloaded, IsAnswer, AcceptsAt, Inv, WorldOk;
    ReloadSteps();
    run := [CONFIGURE, TAKE, RELOAD];
    states := [World(EMPTY, []), World(Configured(), []), World(Taken(), []), World(Reloaded(), [])];
    RunOfThree(states[0], states[1], states[2], states[3], CONFIGURE, TAKE, RELOAD);
    WholeIsValid();
    LastOk(states, run);
    a := AnswerExists(Reloaded(), SECOND, CONFIG, ASKED_AT);
    ReloadedShows(a);
    AcceptedBothTimes();
  }

}
