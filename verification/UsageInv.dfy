/** What every poll, reload, restart and pruning keeps of the usage tables. */
module UsageInv {
  import opened Prelude
  import opened Inventory
  import opened Usage

  // ----- the catalogue and the cache -----

  predicate WellKeyed(hosts: Catalogue) {
    forall id :: id in hosts ==> hosts[id].id == id && hosts[id].Valid()
  }

  /** The identities on record are those of the catalogue in force, the last of this process. */
  ghost predicate CatalogueOk(s: Store) {
    && |s.catalogues| == s.generation + 1
    && s.catalogues[s.generation] == s.hosts
    && (forall g :: 0 <= g < |s.catalogues| ==> WellKeyed(s.catalogues[g]))
    && s.identity == Identities(s.hosts)
  }

  // ----- one trail -----

  ghost predicate InOrder(polls: seq<Poll>) {
    forall i, j :: 0 <= i <= j < |polls| ==> polls[i].snapshot.at <= polls[j].snapshot.at
  }

  /** Change rows are numbered in the order of the polls, all up to `sequence`. */
  ghost predicate Numbered(polls: seq<Poll>, sequence: int) {
    && (forall i :: 0 <= i < |polls| && polls[i].row.Some? ==> 0 < polls[i].row.value <= sequence)
    && (forall i, j :: 0 <= i < j < |polls| && polls[i].row.Some? && polls[j].row.Some? ==>
        polls[i].row.value < polls[j].row.value)
  }

  /** A poll without a change row reported what the poll before it reported. */
  ghost predicate Compressed(polls: seq<Poll>) {
    && (forall i :: 0 < i < |polls| && polls[i].row.None? ==>
          polls[i].snapshot == polls[i - 1].snapshot.(at := polls[i].snapshot.at))
    && (polls != [] ==> polls[0].row.Some?)
  }

  ghost predicate Sound(polls: seq<Poll>) {
    forall i :: 0 <= i < |polls| ==> polls[i].snapshot.Valid()
  }

  ghost predicate TrailOk(t: Trail, sequence: int) {
    InOrder(t.polls) && Numbered(t.polls, sequence) && Compressed(t.polls) && Sound(t.polls)
  }

  /** Consecutive polls of the coverage fit the gap allowed at the later one. */
  ghost predicate Chained(polls: seq<Poll>, first: nat) {
    forall i :: first < i < |polls| ==> IsFresh(polls[i - 1].snapshot.at, polls[i].allowance, polls[i].snapshot.at)
  }

  ghost predicate LatestOk(t: Trail, latest: Snapshot) {
    t.born < |t.polls| && t.polls[t.born].row.Some? && t.polls[|t.polls| - 1].snapshot == latest
  }

  /** The coverage row spans a chain of polls, up to the newest. */
  ghost predicate CoverageOk(t: Trail, c: Coverage) {
    && t.born <= t.first < |t.polls|
    && t.polls[t.first].snapshot.at == c.started
    && t.polls[|t.polls| - 1].snapshot.at == c.observed
    && Chained(t.polls, t.first)
  }

  // ----- the stored change rows -----

  /** A stored row is the change row of the poll at its place. */
  ghost predicate RowOk(s: Store, r: int) {
    && r in s.rows && r in s.places && s.rows[r].host in s.trails
    && var polls := s.trails[s.rows[r].host].polls;
       s.places[r] < |polls| && polls[s.places[r]].row == Some(r) && polls[s.places[r]].snapshot == s.rows[r].snapshot
  }

  ghost predicate RowsOk(s: Store) {
    && s.places.Keys == s.rows.Keys
    && (forall r :: r in s.rows ==> RowOk(s, r))
    && (forall r :: r in s.rows ==> 0 < r <= s.sequence)
  }

  /** No two polls share a change row. */
  ghost predicate Distinct(s: Store) {
    forall id, i, r ::
      id in s.trails && 0 <= i < |s.trails[id].polls| && s.trails[id].polls[i].row == Some(r) && r in s.rows ==>
        s.rows[r].host == id && r in s.places && s.places[r] == i
  }

  /** A later change row of the host that is below the retention floor and still stored. */
  ghost predicate SupersededBy(s: Store, id: string, i: nat, r: int) {
    && r in s.rows && r in s.places && s.rows[r].host == id && s.places[r] > i
    && s.floor.Some? && s.rows[r].snapshot.at < s.floor.value
  }

  ghost predicate ChangeKept(s: Store, id: string, i: nat) {
    id in s.trails && i < |s.trails[id].polls| && s.trails[id].polls[i].row.Some? ==>
      s.trails[id].polls[i].row.value in s.rows || exists r :: SupersededBy(s, id, i, r)
  }

  /** Since the latest row was created, a change row is missing only below the floor and behind a stored one. */
  ghost predicate ChangesKept(s: Store) {
    forall id, i: nat :: id in s.latest && TrailOf(s.trails, id).born <= i ==> ChangeKept(s, id, i)
  }

  // ----- all of it -----

  ghost predicate HostOk(s: Store, id: string) {
    && (id in s.trails ==> TrailOk(s.trails[id], s.sequence))
    && (id in s.latest ==> id in s.trails && LatestOk(s.trails[id], s.latest[id]))
    && (id in s.coverage ==> id in s.latest && id in s.trails && CoverageOk(s.trails[id], s.coverage[id]))
  }

  ghost predicate Inv(s: Store) {
    && CatalogueOk(s)
    && s.cache == s.latest
    && s.sequence >= 0
    && (forall id :: HostOk(s, id))
    && RowsOk(s)
    && Distinct(s)
    && ChangesKept(s)
  }

  // ----- polls -----

  /** Each host's poll times do not decrease. */
  ghost predicate NextInOrder(s: Store, id: string, at: int) {
    var polls := TrailOf(s.trails, id).polls;
    polls != [] ==> polls[|polls| - 1].snapshot.at <= at
  }

  lemma AppendInOrder(polls: seq<Poll>, poll: Poll)
    requires InOrder(polls) && (polls != [] ==> polls[|polls| - 1].snapshot.at <= poll.snapshot.at)
    ensures InOrder(polls + [poll])
  {
  }

  lemma AppendNumbered(polls: seq<Poll>, poll: Poll, sequence: int, later: int)
    requires Numbered(polls, sequence) && 0 <= sequence <= later
    requires poll.row.Some? ==> poll.row.value == sequence + 1 == later
    ensures Numbered(polls + [poll], later)
  {
  }

  lemma AppendCompressed(polls: seq<Poll>, poll: Poll)
    requires Compressed(polls)
    requires poll.row.None? ==>
      polls != [] && poll.snapshot == polls[|polls| - 1].snapshot.(at := poll.snapshot.at)
    ensures Compressed(polls + [poll])
  {
  }

  lemma ExtendedOk(s: Store, id: string, snapshot: Snapshot, allowance: int)
    requires HostOk(s, id) && s.cache == s.latest && s.sequence >= 0 && snapshot.Valid()
    requires NextInOrder(s, id, snapshot.at)
    ensures var sequence := if Changed(s.cache, id, snapshot) then s.sequence + 1 else s.sequence;
      TrailOk(Extend(s, id, snapshot, allowance), sequence)
    ensures LatestOk(Extend(s, id, snapshot, allowance), snapshot)
  {
    hide InOrder, Numbered, Compressed, CoverageOk;
    var polls, after := TrailOf(s.trails, id).polls, Extend(s, id, snapshot, allowance);
    var poll := after.polls[|polls|];
    NoPollsOk(s.sequence);
    AppendInOrder(polls, poll);
    AppendNumbered(polls, poll, s.sequence, if Changed(s.cache, id, snapshot) then s.sequence + 1 else s.sequence);
    AppendCompressed(polls, poll);
  }

  lemma NoPollsOk(sequence: int)
    ensures InOrder([]) && Numbered([], sequence) && Compressed([])
  {
  }

  lemma CoverageExtends(s: Store, id: string, snapshot: Snapshot, allowance: int)
    requires HostOk(s, id)
    ensures CoverageOk(Extend(s, id, snapshot, allowance), Covered(s.coverage, id, snapshot.at, allowance))
  {
    var t, after := TrailOf(s.trails, id), Extend(s, id, snapshot, allowance);
    assert forall i :: 0 <= i < |t.polls| ==> after.polls[i] == t.polls[i];
  }

  lemma Logged(s: Store, id: string, snapshot: Snapshot)
    ensures var after, row, changed := LogChange(s, id, snapshot), s.sequence + 1, Changed(s.cache, id, snapshot);
      && after.rows == (if changed then s.rows[row := UsageRow(id, snapshot)] else s.rows)
      && after.places == (if changed then s.places[row := |TrailOf(s.trails, id).polls|] else s.places)
      && after.sequence == (if changed then row else s.sequence)
      && after.hosts == s.hosts && after.generation == s.generation && after.catalogues == s.catalogues
      && after.identity == s.identity && after.floor == s.floor && after.tcp == s.tcp
  {
    hide Changed, TrailOf;
    if Changed(s.cache, id, snapshot) {
      assert LogChange(s, id, snapshot).sequence == s.sequence + 1;
    }
  }

  /** A committed poll, table by table. */
  lemma Updated(s: Store, host: Host, snapshot: Snapshot)
    ensures var after, id, row := UpdateUsage(s, host, snapshot), host.id, s.sequence + 1;
      var changed, allowance := Changed(s.cache, id, snapshot), Freshness(host.usage.interval, host.usage.timeout);
      && after.rows == (if changed then s.rows[row := UsageRow(id, snapshot)] else s.rows)
      && after.places == (if changed then s.places[row := |TrailOf(s.trails, id).polls|] else s.places)
      && after.sequence == (if changed then row else s.sequence)
      && after.coverage == s.coverage[id := Covered(s.coverage, id, snapshot.at, allowance)]
      && after.latest == s.latest[id := snapshot] && after.cache == s.cache[id := snapshot]
      && after.trails == s.trails[id := Extend(s, id, snapshot, allowance)]
      && after.hosts == s.hosts && after.generation == s.generation && after.catalogues == s.catalogues
      && after.identity == s.identity && after.floor == s.floor && after.tcp == s.tcp
      && after.trails[id].polls
         == TrailOf(s.trails, id).polls + [Poll(snapshot, if changed then Some(row) else None, allowance)]
  {
    Logged(s, host.id, snapshot);
    ExtendedPolls(s, host.id, snapshot, Freshness(host.usage.interval, host.usage.timeout));
    hide Changed, TrailOf, Covered, Extend, Freshness, LogChange;
  }

  lemma ExtendedPolls(s: Store, id: string, snapshot: Snapshot, allowance: int)
    ensures var row := if Changed(s.cache, id, snapshot) then Some(s.sequence + 1) else None;
      Extend(s, id, snapshot, allowance).polls == TrailOf(s.trails, id).polls + [Poll(snapshot, row, allowance)]
  {
  }

  lemma PollKeepsRows(s: Store, host: Host, snapshot: Snapshot)
    requires RowsOk(s) && s.sequence >= 0
    ensures RowsOk(UpdateUsage(s, host, snapshot))
  {
    Updated(s, host, snapshot);
    hide UpdateUsage, LogChange, Extend, Changed, Covered, Freshness;
    var after := UpdateUsage(s, host, snapshot);
    forall r | r in after.rows
      ensures RowOk(after, r)
    {
      if r in s.rows {
        assert RowOk(s, r);
      }
    }
  }

  lemma NewRowUnused(polls: seq<Poll>, sequence: int, i: nat)
    requires Numbered(polls, sequence) && i < |polls|
    ensures polls[i].row != Some(sequence + 1)
  {
  }

  lemma PollKeepsDistinct(s: Store, host: Host, snapshot: Snapshot)
    requires RowsOk(s) && Distinct(s) && s.sequence >= 0
    requires forall id :: id in s.trails ==> Numbered(s.trails[id].polls, s.sequence)
    ensures Distinct(UpdateUsage(s, host, snapshot))
  {
    Updated(s, host, snapshot);
    hide UpdateUsage, LogChange, Extend, Changed, Covered, Freshness, Numbered, RowOk;
    var after := UpdateUsage(s, host, snapshot);
    forall id, i, r |
      && id in after.trails && 0 <= i < |after.trails[id].polls|
      && after.trails[id].polls[i].row == Some(r) && r in after.rows
      ensures after.rows[r].host == id && r in after.places && after.places[r] == i
    {
      if id in s.trails && i < |s.trails[id].polls| {
        NewRowUnused(s.trails[id].polls, s.sequence, i);
        assert s.trails[id].polls[i].row == Some(r);
        assert r in s.rows;
      }
    }
  }

  lemma PollKeepsChanges(s: Store, host: Host, snapshot: Snapshot)
    requires RowsOk(s) && ChangesKept(s) && s.sequence >= 0
    requires forall id :: id in s.latest ==> id in s.trails
    ensures ChangesKept(UpdateUsage(s, host, snapshot))
  {
    Updated(s, host, snapshot);
    hide UpdateUsage, LogChange, Covered, Changed, Freshness, RowOk;
    var after := UpdateUsage(s, host, snapshot);
    forall id, i: nat | id in after.latest && TrailOf(after.trails, id).born <= i
      ensures ChangeKept(after, id, i)
    {
      var before := TrailOf(s.trails, id);
      if i < |before.polls| {
        assert ChangeKept(s, id, i);
        assert after.trails[id].polls[i] == before.polls[i];
        if r :| SupersededBy(s, id, i, r) {
          assert SupersededBy(after, id, i, r);
        }
      }
    }
  }

  lemma PollKeepsHosts(s: Store, host: Host, snapshot: Snapshot, id: string)
    requires (forall other :: HostOk(s, other)) && s.cache == s.latest && s.sequence >= 0
    requires snapshot.Valid() && NextInOrder(s, host.id, snapshot.at)
    ensures HostOk(UpdateUsage(s, host, snapshot), id)
  {
    Updated(s, host, snapshot);
    hide UpdateUsage, LogChange;
    var after, allowance := UpdateUsage(s, host, snapshot), Freshness(host.usage.interval, host.usage.timeout);
    assert HostOk(s, id);
    if id == host.id {
      ExtendedOk(s, id, snapshot, allowance);
      CoverageExtends(s, id, snapshot, allowance);
    } else if id in s.trails {
      NumberedFurther(s.trails[id].polls, s.sequence, after.sequence);
    }
  }

  lemma NumberedFurther(polls: seq<Poll>, sequence: int, later: int)
    requires Numbered(polls, sequence) && sequence <= later
    ensures Numbered(polls, later)
  {
  }

  /** A committed poll keeps everything. */
  lemma UpdateKeepsInv(s: Store, host: Host, snapshot: Snapshot)
    requires Inv(s) && snapshot.Valid() && NextInOrder(s, host.id, snapshot.at)
    ensures Inv(UpdateUsage(s, host, snapshot))
  {
    hide HostOk, RowsOk, Distinct, ChangesKept, CatalogueOk, NextInOrder, Extend, Covered, Numbered;
    TrailsNumbered(s);
    PollKeepsRows(s, host, snapshot);
    PollKeepsDistinct(s, host, snapshot);
    PollKeepsChanges(s, host, snapshot);
    PollKeepsCatalogue(s, host, snapshot);
    forall id
      ensures HostOk(UpdateUsage(s, host, snapshot), id)
    {
      PollKeepsHosts(s, host, snapshot, id);
    }
  }

  lemma PollKeepsCatalogue(s: Store, host: Host, snapshot: Snapshot)
    requires CatalogueOk(s)
    ensures CatalogueOk(UpdateUsage(s, host, snapshot))
  {
    Updated(s, host, snapshot);
    hide UpdateUsage, LogChange;
  }

  lemma TrailsNumbered(s: Store)
    requires forall id :: HostOk(s, id)
    ensures forall id :: id in s.trails ==>
      Numbered(s.trails[id].polls, s.sequence) && TrailOk(s.trails[id], s.sequence)
    ensures forall id :: id in s.latest ==> id in s.trails
  {
    forall id
      ensures id in s.trails ==> Numbered(s.trails[id].polls, s.sequence) && TrailOk(s.trails[id], s.sequence)
      ensures id in s.latest ==> id in s.trails
    {
      assert HostOk(s, id);
    }
  }

  // ----- pruning -----

  /** The row of the later poll comes later in the table's order. */
  lemma PlacesAreLater(s: Store, a: int, b: int)
    requires RowsOk(s) && a in s.rows && b in s.rows && s.rows[a].host == s.rows[b].host && s.places[a] < s.places[b]
    requires TrailOk(TrailOf(s.trails, s.rows[a].host), s.sequence)
    ensures Later(b, s.rows[b], a, s.rows[a])
  {
    hide Sound, Compressed;
    assert RowOk(s, a) && RowOk(s, b);
  }

  /** A prunable row of a host that still has a latest row lies behind the anchor. */
  lemma AnchorBehind(s: Store, cutoff: int, r: int) returns (anchor: int)
    requires RowsOk(s) && Distinct(s) && r in Prunable(s, cutoff) && s.rows[r].host in s.latest
    requires TrailOk(TrailOf(s.trails, s.rows[r].host), s.sequence)
    ensures IsAnchor(s.rows, cutoff, anchor) && s.rows[anchor].host == s.rows[r].host && anchor !in Prunable(s, cutoff)
    ensures s.places[anchor] > s.places[r]
  {
    hide RowOk, TrailOk, Later;
    var candidates := set x | x in s.rows && s.rows[x].host == s.rows[r].host && s.rows[x].snapshot.at < cutoff;
    assert r in candidates;
    anchor := LastRow(s, candidates);
    forall x | x in candidates && x != anchor
      ensures Later(anchor, s.rows[anchor], x, s.rows[x])
    {
      PlacesDiffer(s, x, anchor);
      PlacesAreLater(s, x, anchor);
    }
    assert IsAnchor(s.rows, cutoff, anchor);
    assert r != anchor;
    PlacesDiffer(s, r, anchor);
  }

  lemma PlacesDiffer(s: Store, a: int, b: int)
    requires RowsOk(s) && a in s.rows && b in s.rows && s.rows[a].host == s.rows[b].host && a != b
    ensures s.places[a] != s.places[b]
  {
    assert RowOk(s, a) && RowOk(s, b);
  }

  /** Among stored rows of one host, the one whose poll came last. */
  lemma {:induction false} LastRow(s: Store, candidates: set<int>) returns (last: int)
    requires candidates != {} && forall x :: x in candidates ==> x in s.places
    ensures last in candidates && forall x :: x in candidates ==> s.places[x] <= s.places[last]
    decreases candidates
  {
    var x := Member(candidates);
    var rest := candidates - {x};
    if rest == {} {
      last := x;
      assert candidates == {x};
    } else {
      last := LastRow(s, rest);
      assert candidates == rest + {x};
      if s.places[x] > s.places[last] {
        last := x;
      }
    }
  }

  lemma PruneKeepsAt(s: Store, cutoff: int, gone: set<int>, after: Store, id: string, i: nat)
    requires RowsOk(s) && Distinct(s) && Pruned(s, cutoff, gone, after)
    requires id in s.latest && id in s.trails && TrailOk(s.trails[id], s.sequence) && ChangeKept(s, id, i)
    ensures ChangeKept(after, id, i)
  {
    hide TrailOk, IsAnchor, RowOk;
    if i < |s.trails[id].polls| && s.trails[id].polls[i].row.Some? {
      var r := s.trails[id].polls[i].row.value;
      if r in s.rows {
        if r in gone {
          var a := AnchorBehind(s, cutoff, r);
          AnchorIsOld(s, cutoff, a);
          assert SupersededBy(after, id, i, a);
        }
      } else {
        var b :| SupersededBy(s, id, i, b);
        if b in gone {
          var a := AnchorBehind(s, cutoff, b);
          AnchorIsOld(s, cutoff, a);
          assert SupersededBy(after, id, i, a);
        } else {
          assert SupersededBy(after, id, i, b);
        }
      }
    }
  }

  lemma AnchorIsOld(s: Store, cutoff: int, r: int)
    requires IsAnchor(s.rows, cutoff, r)
    ensures r in s.rows && s.rows[r].snapshot.at < cutoff
  {
  }

  lemma PruneKeepsTables(s: Store, cutoff: int, gone: set<int>, after: Store)
    requires Pruned(s, cutoff, gone, after) && RowsOk(s) && Distinct(s)
    ensures RowsOk(after) && Distinct(after)
  {
    hide IsAnchor;
    forall r | r in after.rows
      ensures RowOk(after, r)
    {
      assert RowOk(s, r);
    }
  }

  /** Pruning keeps everything: the anchor stands in for what it deletes. */
  lemma PruneKeepsInv(s: Store, cutoff: int, gone: set<int>, after: Store)
    requires Inv(s) && Pruned(s, cutoff, gone, after)
    ensures Inv(after)
  {
    PruneKeepsTables(s, cutoff, gone, after);
    hide HostOk, RowsOk, Distinct, CatalogueOk, ChangeKept, Prunable;
    TrailsNumbered(s);
    forall id, i: nat | id in after.latest && TrailOf(after.trails, id).born <= i
      ensures ChangeKept(after, id, i)
    {
      assert ChangeKept(s, id, i);
      PruneKeepsAt(s, cutoff, gone, after, id, i);
    }
    PruneKeepsRest(s, cutoff, gone, after);
  }

  lemma PruneKeepsRest(s: Store, cutoff: int, gone: set<int>, after: Store)
    requires Pruned(s, cutoff, gone, after) && CatalogueOk(s) && forall id :: HostOk(s, id)
    ensures CatalogueOk(after) && forall id :: HostOk(after, id)
  {
    hide Prunable, TrailOk, LatestOk, CoverageOk;
    forall id
      ensures HostOk(after, id)
    {
      assert HostOk(s, id);
    }
  }

  // ----- reloads and restarts -----

  lemma SyncKeepsHosts(s: Store, hosts: Catalogue, id: string)
    requires HostOk(s, id)
    ensures HostOk(SyncIdentities(s, hosts), id)
  {
    hide Chained, InOrder, Numbered, Compressed, Sound;
  }

  lemma SyncKeepsRows(s: Store, hosts: Catalogue)
    requires RowsOk(s) && Distinct(s) && ChangesKept(s) && forall id :: id in s.latest ==> id in s.trails
    ensures RowsOk(SyncIdentities(s, hosts)) && Distinct(SyncIdentities(s, hosts))
    ensures ChangesKept(SyncIdentities(s, hosts))
  {
    hide Configured, Interrupted, Replaced;
    var after := SyncIdentities(s, hosts);
    forall r | r in after.rows
      ensures RowOk(after, r)
    {
      assert RowOk(s, r);
    }
    forall id, i: nat | id in after.latest && TrailOf(after.trails, id).born <= i
      ensures ChangeKept(after, id, i)
    {
      assert ChangeKept(s, id, i);
      if r :| SupersededBy(s, id, i, r) {
        assert SupersededBy(after, id, i, r);
      }
    }
  }

  /** The cache drops exactly the hosts whose latest row is dropped. */
  lemma ReloadKeepsCache(s: Store, hosts: Catalogue)
    requires CatalogueOk(s) && s.cache == s.latest
    ensures Reload(s, hosts).cache == Reload(s, hosts).latest
  {
  }

  /** A successful reload keeps everything. */
  lemma ReloadKeepsInv(s: Store, hosts: Catalogue)
    requires Inv(s) && WellKeyed(hosts)
    ensures Inv(Reload(s, hosts))
  {
    hide HostOk, RowsOk, Distinct, ChangesKept, CatalogueOk, SyncIdentities;
    TrailsNumbered(s);
    SyncKeepsRows(s, hosts);
    ReloadKeepsCache(s, hosts);
    var synced, after := SyncIdentities(s, hosts), Reload(s, hosts);
    SameTables(synced, after);
    SyncFields(s, hosts);
    forall id
      ensures HostOk(after, id)
    {
      SyncKeepsHosts(s, hosts, id);
    }
    ReloadKeepsCatalogue(s, hosts);
  }

  lemma SyncFields(s: Store, hosts: Catalogue)
    ensures var after := SyncIdentities(s, hosts);
      && after.sequence == s.sequence && after.hosts == s.hosts && after.generation == s.generation
      && after.cache == s.cache && after.catalogues == s.catalogues
  {
    hide Configured, Replaced, Interrupted;
  }

  lemma ReloadKeepsCatalogue(s: Store, hosts: Catalogue)
    requires CatalogueOk(s) && WellKeyed(hosts)
    ensures CatalogueOk(Reload(s, hosts))
  {
    hide WellKeyed;
  }

  lemma SameTables(s: Store, after: Store)
    requires after.rows == s.rows && after.places == s.places && after.trails == s.trails
    requires after.sequence == s.sequence
    requires after.latest == s.latest && after.coverage == s.coverage && after.floor == s.floor
    ensures RowsOk(s) ==> RowsOk(after)
    ensures Distinct(s) ==> Distinct(after)
    ensures ChangesKept(s) ==> ChangesKept(after)
    ensures forall id :: HostOk(s, id) ==> HostOk(after, id)
  {
    hide TrailOk, LatestOk, CoverageOk;
    if RowsOk(s) {
      assert forall r :: r in s.rows ==> RowOk(s, r);
      assert forall r :: r in after.rows ==> RowOk(after, r);
    }
    if ChangesKept(s) {
      forall id, i: nat | id in after.latest && TrailOf(after.trails, id).born <= i
        ensures ChangeKept(after, id, i)
      {
        assert ChangeKept(s, id, i);
        if r :| SupersededBy(s, id, i, r) {
          assert SupersededBy(after, id, i, r);
        }
      }
    }
  }

  /** So does a restart, whatever the catalogue it starts with. */
  lemma RestartKeepsInv(s: Store, hosts: Catalogue)
    requires Inv(s) && WellKeyed(hosts)
    ensures Inv(Restart(s, hosts))
  {
    hide HostOk, RowsOk, Distinct, ChangesKept, CatalogueOk, SyncIdentities;
    TrailsNumbered(s);
    SyncKeepsRows(s, hosts);
    var synced, after := SyncIdentities(s, hosts), Restart(s, hosts);
    SameTables(synced, after);
    SyncFields(s, hosts);
    forall id
      ensures HostOk(after, id)
    {
      SyncKeepsHosts(s, hosts, id);
    }
    RestartKeepsCatalogue(s, hosts);
  }

  lemma RestartKeepsCatalogue(s: Store, hosts: Catalogue)
    requires WellKeyed(hosts)
    ensures CatalogueOk(Restart(s, hosts)) && Restart(s, hosts).cache == Restart(s, hosts).latest
  {
    hide WellKeyed;
  }

  // ----- other writers -----

  /** A writer, fenced or not, keeps everything, whether it commits or is turned away. */
  lemma PollByKeepsInv(s: Store, w: Writer, id: string, snapshot: Snapshot)
    requires Inv(s) && MayWrite(s, w) && NextInOrder(s, id, snapshot.at)
    ensures Inv(PollBy(s, w, id, snapshot))
  {
    hide HostOk, RowsOk, Distinct, ChangesKept, UpdateUsage, NextInOrder;
    if PollOutcome(s, w, id, snapshot) == Done {
      UpdateKeepsInv(s, s.catalogues[w.seen][id], snapshot);
    }
  }

  lemma TcpKeepsInv(s: Store, after: Store)
    requires Inv(s) && after == s.(tcp := after.tcp)
    ensures Inv(after)
  {
    hide HostOk, RowsOk, Distinct, ChangesKept, WellKeyed, Identities;
    SameTables(s, after);
  }

  lemma TcpByKeepsInv(s: Store, w: Writer, id: string, check: string, snapshot: TcpSnapshot)
    requires Inv(s) && MayWrite(s, w)
    ensures Inv(TcpBy(s, w, id, check, snapshot))
  {
    hide Inv, PortOf;
    TcpKeepsInv(s, TcpBy(s, w, id, check, snapshot));
  }
}
