/** Every run keeps each clean hour equal to pooling its processed granules from scratch. */
module GranuleRefinement {
  import opened Prelude
  import opened RegionHour
  import opened GranuleInventory
  import GridLatest

  // ---------- Listings ----------

  ghost function ScanIfReadable(site: Site, inventory: Inventory): string -> seq<Scan>
  {
    id => if Readable(site, inventory, id) then [ScanOf(site, inventory, id)] else []
  }

  lemma {:induction false} ScansAsFlatMap(site: Site, inventory: Inventory, ids: seq<string>)
    requires forall id :: id in ids ==> Readable(site, inventory, id)
    ensures ScansOf(site, inventory, ids) == FlatMap(ids, ScanIfReadable(site, inventory))
  {
    if ids != [] {
      ScansAsFlatMap(site, inventory, ids[1..]);
      assert ScansOf(site, inventory, ids) == [ScanOf(site, inventory, ids[0])] + ScansOf(site, inventory, ids[1..]);
    }
  }

  lemma ScansPermutation(site: Site, inventory: Inventory, a: seq<string>, b: seq<string>)
    requires forall id :: id in a ==> Readable(site, inventory, id)
    requires multiset(a) == multiset(b)
    ensures forall id :: id in b ==> Readable(site, inventory, id)
    ensures multiset(ScansOf(site, inventory, a)) == multiset(ScansOf(site, inventory, b))
  {
    forall id | id in b ensures id in a { assert id in multiset(b); }
    ScansAsFlatMap(site, inventory, a);
    ScansAsFlatMap(site, inventory, b);
    FlatMapPermutation(a, b, ScanIfReadable(site, inventory));
  }

  /** Pooling an hour gives one answer for every order of its granules. */
  lemma AnyListingPoolsAlike(site: Site, inventory: Inventory, hour: int, a: seq<string>, b: seq<string>)
    requires site.Sound() && RowsOk(site, inventory)
    requires IsListing(a, ProcessedIn(inventory, hour)) && IsListing(b, ProcessedIn(inventory, hour))
    requires PoolHour(ScansOf(site, inventory, a), site.geography).Ok?
    ensures PoolHour(ScansOf(site, inventory, b), site.geography) == PoolHour(ScansOf(site, inventory, a), site.geography)
  {
    ListingsArePermutations(a, b, ProcessedIn(inventory, hour));
    ScansPermutation(site, inventory, a, b);
    PoolOrderFree(ScansOf(site, inventory, a), ScansOf(site, inventory, b), site.geography);
  }

  // ---------- Framing ----------

  // An hour that neither gained, lost nor re-read a granule keeps its verdict.
  lemma HourUnaffected(site: Site, s: State, t: State, hour: int)
    requires site.Sound() && RowsOk(site, s.inventory) && RowsOk(site, t.inventory)
    requires ProcessedIn(s.inventory, hour) == ProcessedIn(t.inventory, hour)
    requires forall id :: id in ProcessedIn(s.inventory, hour) ==>
      s.inventory[id].checksum == t.inventory[id].checksum
    requires hour in s.hourly <==> hour in t.hourly
    requires hour in s.hourly ==> s.hourly[hour] == t.hourly[hour]
    ensures HourOk(site, s, hour) <==> HourOk(site, t, hour)
  {
    forall ids | IsListing(ids, ProcessedIn(s.inventory, hour))
      ensures ScansOf(site, s.inventory, ids) == ScansOf(site, t.inventory, ids)
    {
      var a, b := ScansOf(site, s.inventory, ids), ScansOf(site, t.inventory, ids);
      forall i | 0 <= i < |ids| ensures a[i] == b[i] {
        assert ids[i] in ids;
      }
    }
  }

  // ---------- Discovery ----------

  lemma DiscoveryRowsOk(site: Site, s: State, batch: seq<Discovered>)
    requires RowsOk(site, s.inventory) && DistinctIds(batch)
    ensures RowsOk(site, AfterDiscovery(site, s, batch).inventory)
  {
    forall id | id in AfterDiscovery(site, s, batch).inventory
      ensures RowOk(site, AfterDiscovery(site, s, batch).inventory[id])
    {
      DiscoveryRow(site, s, batch, id);
    }
  }

  lemma DiscoveryMembers(site: Site, s: State, batch: seq<Discovered>, hour: int)
    requires DistinctIds(batch)
    ensures var t := AfterDiscovery(site, s, batch);
      && ProcessedIn(t.inventory, hour) == ProcessedIn(s.inventory, hour) - Requeued(s.inventory, batch)
      && forall id :: id in ProcessedIn(t.inventory, hour) ==> s.inventory[id].checksum == t.inventory[id].checksum
  {
    var t := AfterDiscovery(site, s, batch);
    DiscoveryKeepsRows(site, s, batch);
    forall id | id in t.inventory
      ensures id in ProcessedIn(t.inventory, hour) <==>
              id in ProcessedIn(s.inventory, hour) && id !in Requeued(s.inventory, batch)
      ensures id in ProcessedIn(t.inventory, hour) ==> s.inventory[id].checksum == t.inventory[id].checksum
    {
      DiscoveryRow(site, s, batch, id);
    }
  }

  lemma DiscoveryKeepsConsistent(site: Site, s: State, batch: seq<Discovered>)
    requires Consistent(site, s) && DistinctIds(batch)
    ensures Consistent(site, AfterDiscovery(site, s, batch))
  {
    var t := AfterDiscovery(site, s, batch);
    DiscoveryRowsOk(site, s, batch);
    forall hour | hour !in t.dirty
      ensures HourOk(site, t, hour)
    {
      DiscoveryMembers(site, s, batch, hour);
      assert ProcessedIn(t.inventory, hour) == ProcessedIn(s.inventory, hour) by {
        assert forall id :: id in Requeued(s.inventory, batch) && s.inventory[id].hour.Some? ==>
          s.inventory[id].hour.value in HoursLeft(s.inventory, Requeued(s.inventory, batch));
      }
      HourUnaffected(site, s, t, hour);
    }
  }

  lemma RequeueKeepsConsistent(site: Site, s: State, batch: seq<Discovered>, gone: set<string>)
    requires Consistent(site, s)
    ensures Consistent(site, AfterRequeue(s, batch, gone))
  {
    var t, ids := AfterRequeue(s, batch, gone), Requeued(s.inventory, batch);
    forall id | id in t.inventory
      ensures RowOk(site, t.inventory[id])
    {
      assert RowOk(site, s.inventory[id]);
    }
    forall hour | hour !in t.dirty
      ensures HourOk(site, t, hour)
    {
      assert ProcessedIn(t.inventory, hour) == ProcessedIn(s.inventory, hour) by {
        assert forall id :: id in ids && s.inventory[id].hour.Some? ==>
          s.inventory[id].hour.value in HoursLeft(s.inventory, ids);
      }
      HourUnaffected(site, s, t, hour);
    }
  }

  // An empty batch changes nothing.
  lemma EmptyDiscovery(site: Site, s: State)
    ensures AfterDiscovery(site, s, []) == s
  {
    assert Requeued(s.inventory, []) == {};
    NothingReset(site, s.inventory, s.files, s.dirty);
  }

  /** A discovery that was interrupted and is repeated ends with the tables of an undisturbed
      one, but deletes no further file: a stale file that survived the interruption stays. */
  lemma RepeatedDiscoveryKeepsStaleFiles(site: Site, s: State, batch: seq<Discovered>, gone: set<string>)
    requires DistinctIds(batch)
    ensures var t := AfterDiscovery(site, AfterRequeue(s, batch, gone), batch);
      && t == AfterDiscovery(site, s, batch).(files := t.files)
      && t.files == s.files - gone
  {
    var u := AfterRequeue(s, batch, gone);
    NothingLeftToRequeue(s.inventory, batch);
    NothingReset(site, u.inventory, u.files, u.dirty);
  }

  lemma NothingRemoved(files: map<string, Bytes>)
    ensures files - {} == files
  {
  }

  lemma NothingLeftToRequeue(inventory: Inventory, batch: seq<Discovered>)
    ensures Requeued(ResetAll(inventory, Requeued(inventory, batch)), batch) == {}
  {
    var ids := Requeued(inventory, batch);
    forall d | d in batch && d.id in inventory
      ensures !Overtaken(ResetAll(inventory, ids)[d.id], d)
    {
      assert Overtaken(inventory[d.id], d) ==> d.id in ids;
    }
  }

  lemma NothingReset(site: Site, inventory: Inventory, files: map<string, Bytes>, dirty: set<int>)
    ensures ResetAll(inventory, {}) == inventory
    ensures files - StalePaths(site, inventory, {}) == files
    ensures dirty + HoursLeft(inventory, {}) == dirty
  {
    assert StalePaths(site, inventory, {}) == {} && HoursLeft(inventory, {}) == {};
  }

  /** A discovery leaves an hour's aggregate right exactly when it requeues none of the
      hour's granules: the pooled rows record how many scans they were built from. */
  lemma StaleExactlyWhenRequeued(site: Site, s: State, batch: seq<Discovered>, hour: int)
    requires Consistent(site, s) && DistinctIds(batch)
    requires HourOk(site, s, hour)
    requires site.geography.weights.regionIds != []
    ensures RowsOk(site, AfterDiscovery(site, s, batch).inventory)
    ensures HourOk(site, AfterDiscovery(site, s, batch), hour) <==>
      forall id :: id in s.inventory && s.inventory[id].processing == Done && s.inventory[id].hour == Some(hour) ==>
        !IsSuperseded(s.inventory, batch, id)
  {
    RequeuedAreSuperseded(s.inventory, batch);
    var t := AfterDiscovery(site, s, batch);
    DiscoveryRowsOk(site, s, batch);
    DiscoveryMembers(site, s, batch, hour);
    var before, after := ProcessedIn(s.inventory, hour), ProcessedIn(t.inventory, hour);
    if before !! Requeued(s.inventory, batch) {
      assert after == before;
      HourUnaffected(site, s, t, hour);
    } else {
      assert before != {} && after < before;
      var ids := ListingOf(before);
      if after != {} {
        var fewer := ListingOf(after);
        FewerIds(ids, before, fewer, after);
        PooledCount(ScansOf(site, s.inventory, ids), site.geography);
        PooledCount(ScansOf(site, t.inventory, fewer), site.geography);
      }
    }
  }

  lemma PooledCount(scans: seq<Scan>, g: Geography)
    requires g.weights.Sliceable() && g.weights.regionIds != []
    ensures PoolHour(scans, g).Ok? ==>
      PoolHour(scans, g).value != [] && PoolHour(scans, g).value[0].sourceGranules == |scans|
  {
  }

  lemma {:induction false} FewerIds(ids: seq<string>, members: set<string>, fewer: seq<string>, less: set<string>)
    requires IsListing(ids, members) && IsListing(fewer, less) && less < members
    ensures |fewer| < |ids|
  {
    ListingLength(ids, members);
    ListingLength(fewer, less);
    SmallerSet(less, members);
  }

  lemma SmallerSet(a: set<string>, b: set<string>)
    requires a < b
    ensures |a| < |b|
  {
    var rest := b - a;
    assert b == a + rest && a !! rest;
    assert |b| == |a| + |rest|;
    assert rest != {};
  }

  // ---------- Commit ----------

  // The two updates a commit makes to the inventory, row by row.
  lemma MarkedRows(site: Site, before: Inventory, restored: map<string, string>, id: string, path: string,
                   grid: Grid, content: Bytes, now: int)
    requires RowsOk(site, before)
    requires restored.Keys <= Siblings(before, id, grid.hour)
    requires site.extract(content) == Some(grid)
    ensures var after := MarkProcessed(MarkRestored(before, restored), id, path, Sha256(content), grid.hour, now);
      && RowsOk(site, after)
      && after.Keys == before.Keys
      && (forall other :: other in before && other != id ==>
            after[other] == before[other].(localPath := after[other].localPath))
      && (id in before ==> after[id].processing == Done && after[id].hour == Some(grid.hour)
                           && after[id].checksum == Some(Sha256(content)))
  {
    var marked := MarkRestored(before, restored);
    forall other | other in before
      ensures other in marked && RowOk(site, marked[other])
      ensures marked[other] == before[other].(localPath := marked[other].localPath)
    {
      assert RowOk(site, before[other]);
    }
  }

  lemma CommitRows(site: Site, s: State, t: State, id: string, path: string, grid: Grid, content: Bytes, now: int,
                   order: seq<string>, rows: seq<RegionRow>, restored: map<string, string>)
    requires site.Sound() && RowsOk(site, s.inventory)
    requires CommitsWith(site, s, t, id, path, grid, Sha256(content), now, order, rows, restored)
    requires site.extract(content) == Some(grid)
    ensures RowsOk(site, t.inventory)
    ensures t.inventory.Keys == s.inventory.Keys
    ensures forall other :: other in s.inventory && other != id ==>
      t.inventory[other] == s.inventory[other].(localPath := t.inventory[other].localPath)
    ensures id in s.inventory ==>
      && t.inventory[id].processing == Done && t.inventory[id].hour == Some(grid.hour)
      && t.inventory[id].checksum == Some(Sha256(content))
  {
    MarkedRows(site, s.inventory, restored, id, path, grid, content, now);
  }

  // Membership of an hour after one granule's row was rewritten.
  lemma MembersAfter(before: Inventory, after: Inventory, id: string, landed: int, hour: int)
    requires after.Keys == before.Keys
    requires forall other :: other in before && other != id ==>
      after[other] == before[other].(localPath := after[other].localPath)
    requires id in before ==> after[id].processing == Done && after[id].hour == Some(landed)
    ensures ProcessedIn(after, hour) ==
      ProcessedIn(before, hour) - {id} + (if hour == landed && id in before then {id} else {})
    ensures forall other :: other in ProcessedIn(after, hour) && other != id ==>
      before[other].checksum == after[other].checksum
  {
    forall other | other in before && other != id
      ensures other in ProcessedIn(after, hour) <==> other in ProcessedIn(before, hour)
    {
      assert after[other] == before[other].(localPath := after[other].localPath);
    }
  }

  /** Committing a granule makes its hour right exactly when the inventory has a row for
      it: without one the final UPDATE is a no-op and the hour counts a granule too many. */
  lemma CommittedHourRightExactlyWhenListed(site: Site, s: State, t: State, id: string, path: string,
                                            grid: Grid, content: Bytes, now: int)
    requires site.Sound() && RowsOk(site, s.inventory)
    requires Commits(site, s, t, id, path, grid, Sha256(content), now)
    requires site.extract(content) == Some(grid)
    ensures RowsOk(site, t.inventory)
    ensures HourOk(site, t, grid.hour) <==> id in s.inventory
  {
    var order, rows, restored :| CommitsWith(site, s, t, id, path, grid, Sha256(content), now, order, rows, restored);
    CommitRows(site, s, t, id, path, grid, content, now, order, rows, restored);
    MembersAfter(s.inventory, t.inventory, id, grid.hour, grid.hour);
    assert forall other :: other in order ==> other in Siblings(s.inventory, id, grid.hour);
    SameScans(site, s.inventory, t.inventory, order);
    var scans := [Scan(id, grid)] + ScansOf(site, s.inventory, order);
    if id in s.inventory {
      ListedHourRight(site, t, id, grid, order, rows);
    } else if ProcessedIn(t.inventory, grid.hour) != {} {
      assert IsListing(order, ProcessedIn(t.inventory, grid.hour));
      NonEmptyRegions(scans, site.geography);
      PooledCount(scans, site.geography);
      PooledCount(ScansOf(site, t.inventory, order), site.geography);
    }
  }

  lemma ListedHourRight(site: Site, t: State, id: string, grid: Grid, order: seq<string>, rows: seq<RegionRow>)
    requires site.Sound() && RowsOk(site, t.inventory)
    requires Readable(site, t.inventory, id) && ScanOf(site, t.inventory, id) == Scan(id, grid)
    requires id in ProcessedIn(t.inventory, grid.hour)
    requires IsListing(order, ProcessedIn(t.inventory, grid.hour) - {id})
    requires PoolHour([Scan(id, grid)] + ScansOf(site, t.inventory, order), site.geography) == Ok(rows)
    requires grid.hour in t.hourly && t.hourly[grid.hour] == rows
    ensures HourOk(site, t, grid.hour)
  {
    var members := ProcessedIn(t.inventory, grid.hour);
    var listing := [id] + order;
    assert forall x :: x in listing <==> x == id || x in order;
    assert IsListing(listing, members);
    assert ScansOf(site, t.inventory, listing) == [Scan(id, grid)] + ScansOf(site, t.inventory, order);
    forall ids | IsListing(ids, members)
      ensures PoolHour(ScansOf(site, t.inventory, ids), site.geography) == Ok(rows)
    {
      AnyListingPoolsAlike(site, t.inventory, grid.hour, listing, ids);
    }
  }

  lemma NonEmptyRegions(scans: seq<Scan>, g: Geography)
    requires g.weights.Sliceable() && PoolHour(scans, g).Ok? && PoolHour(scans, g).value != []
    ensures g.weights.regionIds != []
  {
  }

  lemma SameScans(site: Site, before: Inventory, after: Inventory, ids: seq<string>)
    requires forall id :: id in ids ==> Readable(site, before, id)
    requires forall id :: id in ids ==> id in before && id in after && after[id].checksum == before[id].checksum
    ensures forall id :: id in ids ==> Readable(site, after, id)
    ensures ScansOf(site, before, ids) == ScansOf(site, after, ids)
  {
    var a, b := ScansOf(site, before, ids), ScansOf(site, after, ids);
    forall i | 0 <= i < |ids| ensures a[i] == b[i] {
      assert ids[i] in ids;
    }
  }

  lemma CommitKeepsConsistent(site: Site, s: State, t: State, id: string, path: string, grid: Grid, content: Bytes, now: int)
    requires Consistent(site, s) && id in s.inventory
    requires Commits(site, s, t, id, path, grid, Sha256(content), now)
    requires site.extract(content) == Some(grid)
    ensures Consistent(site, t)
    ensures grid.hour !in t.dirty
  {
    CommittedHourRightExactlyWhenListed(site, s, t, id, path, grid, content, now);
    var order, rows, restored :| CommitsWith(site, s, t, id, path, grid, Sha256(content), now, order, rows, restored);
    CommitRows(site, s, t, id, path, grid, content, now, order, rows, restored);
    forall hour | hour !in t.dirty
      ensures HourOk(site, t, hour)
    {
      if hour != grid.hour {
        MembersAfter(s.inventory, t.inventory, id, grid.hour, hour);
        assert id !in ProcessedIn(s.inventory, hour);
        HourUnaffected(site, s, t, hour);
      }
    }
  }

  // ---------- The remaining steps ----------

  lemma FailKeepsConsistent(site: Site, s: State, id: string)
    requires Consistent(site, s) && id in s.inventory && IsPending(s.inventory[id])
    ensures Consistent(site, s.(inventory := MarkFailed(s.inventory, id)))
  {
    var t := s.(inventory := MarkFailed(s.inventory, id));
    assert RowOk(site, s.inventory[id]);
    assert RowsOk(site, t.inventory);
    forall hour | hour !in t.dirty
      ensures HourOk(site, t, hour)
    {
      HourUnaffected(site, s, t, hour);
    }
  }

  lemma PruneKeepsConsistent(site: Site, s: State, ids: set<string>)
    requires Consistent(site, s)
    ensures Consistent(site, s.(inventory := ForgetPaths(s.inventory, ids)))
  {
    var t := s.(inventory := ForgetPaths(s.inventory, ids));
    assert RowsOk(site, t.inventory);
    forall hour | hour !in t.dirty
      ensures HourOk(site, t, hour)
    {
      HourUnaffected(site, s, t, hour);
    }
  }

  lemma FilesDoNotMatter(site: Site, s: State, t: State)
    requires Consistent(site, s) && t == s.(files := t.files)
    ensures Consistent(site, t)
  {
    forall hour | hour !in t.dirty
      ensures HourOk(site, t, hour)
    {
      HourUnaffected(site, s, t, hour);
    }
  }

  lemma StepKeepsConsistent(site: Site, s: State, step: Step, t: State)
    requires Consistent(site, s) && Next(site, s, step, t)
    ensures Consistent(site, t)
  {
    match step
    case Discover(batch) => DiscoveryKeepsConsistent(site, s, batch);
    case Requeue(batch, gone) => RequeueKeepsConsistent(site, s, batch, gone);
    case Process(id, path, grid, content, now) => CommitKeepsConsistent(site, s, t, id, path, grid, content, now);
    case Fail(id) =>
      FailKeepsConsistent(site, s, id);
      FilesDoNotMatter(site, s.(inventory := MarkFailed(s.inventory, id)), t);
    case Prune(ids) =>
      PruneKeepsConsistent(site, s, ids);
      FilesDoNotMatter(site, s.(inventory := ForgetPaths(s.inventory, ids)), t);
    case FilesChange => FilesDoNotMatter(site, s, t);
  }

  ghost predicate IsRun(site: Site, states: seq<State>, steps: seq<Step>)
  {
    && site.Sound()
    && |states| == |steps| + 1
    && states[0].inventory == map[] && states[0].hourly == map[] && states[0].dirty == {} && states[0].latest == map[]
    && forall i :: 0 <= i < |steps| ==> Next(site, states[i], steps[i], states[i + 1])
  }

  /** The refinement: after any run from an empty warehouse, every hour that no requeue
      dirtied since its last commit stores exactly what pooling its processed granules
      from scratch gives, and the inventory's columns move together. */
  lemma {:induction false} EveryRunIsConsistent(site: Site, states: seq<State>, steps: seq<Step>, n: nat)
    requires IsRun(site, states, steps) && n < |states|
    ensures Consistent(site, states[n])
    decreases n
  {
    if n == 0 {
      assert forall hour :: ProcessedIn(states[0].inventory, hour) == {};
    } else {
      EveryRunIsConsistent(site, states, steps, n - 1);
      StepKeepsConsistent(site, states[n - 1], steps[n - 1], states[n]);
    }
  }

  // ---------- The latest observations ----------

  // What each commit contributes, in order.
  ghost function Arrivals(site: Site, steps: seq<Step>): seq<GridLatest.Batch>
    requires site.Sound()
  {
    if steps == [] then []
    else
      var last := steps[|steps| - 1];
      Arrivals(site, steps[..|steps| - 1])
      + if last.Process? then [GridLatest.LatestBatch(site.geography, last.id, last.grid, last.now)] else []
  }

  /** After any run the table of latest observations is the merge of what each commit
      contributed, in order: discoveries, requeues, failures and prunes leave it alone, so
      each cell shows its first-arriving maximum, whatever has become of the granule. */
  lemma {:induction false} LatestFollowsCommits(site: Site, states: seq<State>, steps: seq<Step>, n: nat)
    requires IsRun(site, states, steps) && n < |states|
    ensures states[n].latest == GridLatest.AfterAll(Arrivals(site, steps[..n]))
    decreases n
  {
    if n > 0 {
      LatestFollowsCommits(site, states, steps, n - 1);
      assert steps[..n][..n - 1] == steps[..n - 1] && steps[..n][n - 1] == steps[n - 1];
      assert Next(site, states[n - 1], steps[n - 1], states[n]);
      LatestStep(site, states[n - 1], steps[n - 1], states[n], Arrivals(site, steps[..n - 1]));
    }
  }

  lemma {:induction false} LatestStep(site: Site, s: State, step: Step, t: State, before: seq<GridLatest.Batch>)
    requires site.Sound() && Next(site, s, step, t) && s.latest == GridLatest.AfterAll(before)
    ensures t.latest == GridLatest.AfterAll(
      before + if step.Process? then [GridLatest.LatestBatch(site.geography, step.id, step.grid, step.now)] else [])
  {
    if step.Process? {
      var batch := GridLatest.LatestBatch(site.geography, step.id, step.grid, step.now);
      var order, rows, restored :|
        CommitsWith(site, s, t, step.id, step.path, step.grid, Sha256(step.content), step.now, order, rows, restored);
      assert (before + [batch])[..|before|] == before;
    } else {
      assert before + [] == before;
    }
  }

  /** The observation shown in a cell is one of the content its granule now stands for. */
  ghost predicate Backed(site: Site, s: State, at: GridLatest.At)
    requires site.Sound()
  {
    && at in s.latest && Readable(site, s.inventory, s.latest[at].granuleId)
    && var o := s.latest[at];
       var batch := GridLatest.LatestBatch(site.geography, o.granuleId, ScanOf(site, s.inventory, o.granuleId).grid, o.ingestedAt);
       at in batch && batch[at] == o
  }

  /** A discovery leaves a cell's observation without backing exactly when it requeues the
      granule the observation came from. */
  lemma CellBackedExactlyUnlessRequeued(site: Site, s: State, batch: seq<Discovered>, at: GridLatest.At)
    requires Consistent(site, s) && DistinctIds(batch) && Backed(site, s, at)
    ensures var t := AfterDiscovery(site, s, batch);
      && t.latest == s.latest
      && (Backed(site, t, at) <==> !IsSuperseded(s.inventory, batch, s.latest[at].granuleId))
  {
    RequeuedAreSuperseded(s.inventory, batch);
    var id := s.latest[at].granuleId;
    DiscoveryKeepsRows(site, s, batch);
    DiscoveryRow(site, s, batch, id);
  }

  /** A pending granule carries no checksum, so the comparison of a download with a
      previously recorded checksum never rejects anything. */
  lemma PendingHasNoChecksum(site: Site, s: State, id: string)
    requires Consistent(site, s) && id in s.inventory && IsPending(s.inventory[id])
    ensures s.inventory[id].checksum.None? && s.inventory[id].hour.None? && s.inventory[id].localPath.None?
  {
    assert RowOk(site, s.inventory[id]);
  }

  // ---------- What a row and a cell stand for, over runs ----------

  function RecordedChecksum(s: State, id: string): Option<Digest>
  {
    if id in s.inventory then s.inventory[id].checksum else None
  }

  ghost predicate Requeues(s: State, step: Step, id: string)
  {
    (step.Discover? || step.Requeue?) && IsSuperseded(s.inventory, step.batch, id)
  }

  // Step j committed the granule and no later step before n requeued it.
  ghost predicate StandsFrom(states: seq<State>, steps: seq<Step>, j: nat, n: nat, id: string)
    requires |states| == |steps| + 1 && n < |states|
  {
    && j < n && steps[j].Process? && steps[j].id == id
    && forall g :: j < g < n ==> !Requeues(states[g], steps[g], id)
  }

  lemma ChecksumStep(site: Site, s: State, step: Step, t: State, id: string)
    requires Consistent(site, s) && Next(site, s, step, t)
    ensures RecordedChecksum(t, id) ==
      if step.Process? && step.id == id then Some(Sha256(step.content))
      else if Requeues(s, step, id) then None
      else RecordedChecksum(s, id)
    ensures step.Process? && step.id == id ==> RecordedChecksum(s, id) == None
  {
    match step
    case Discover(batch) =>
      DiscoveryKeepsRows(site, s, batch);
      if id in t.inventory {
        DiscoveryRow(site, s, batch, id);
      }
    case Process(other, path, grid, content, now) =>
      var order, rows, restored :| CommitsWith(site, s, t, other, path, grid, Sha256(content), now, order, rows, restored);
      CommitRows(site, s, t, other, path, grid, content, now, order, rows, restored);
      PendingHasNoChecksum(site, s, other);
    case _ =>
  }

  lemma StandsStep(states: seq<State>, steps: seq<Step>, h: nat, j: nat, id: string)
    requires |states| == |steps| + 1 && h < |steps|
    ensures StandsFrom(states, steps, j, h + 1, id) <==>
      || (j == h && steps[h].Process? && steps[h].id == id)
      || (StandsFrom(states, steps, j, h, id) && !Requeues(states[h], steps[h], id))
  {
  }

  /** At any moment of any run a row has a checksum exactly when some commit of the granule
      has not been undone by a requeue since, and it is the checksum of what that commit read. */
  lemma {:induction false} ChecksumIsOfStandingCommit(site: Site, states: seq<State>, steps: seq<Step>, n: nat, id: string)
    requires IsRun(site, states, steps) && n < |states|
    ensures RecordedChecksum(states[n], id).Some? <==> exists j: nat :: StandsFrom(states, steps, j, n, id)
    ensures forall j: nat :: StandsFrom(states, steps, j, n, id) ==>
      RecordedChecksum(states[n], id) == Some(Sha256(steps[j].content))
    decreases n
  {
    if n > 0 {
      var h := n - 1;
      ChecksumIsOfStandingCommit(site, states, steps, h, id);
      EveryRunIsConsistent(site, states, steps, h);
      ChecksumStep(site, states[h], steps[h], states[n], id);
      forall j: nat
        ensures StandsFrom(states, steps, j, n, id) <==>
          || (j == h && steps[h].Process? && steps[h].id == id)
          || (StandsFrom(states, steps, j, h, id) && !Requeues(states[h], steps[h], id))
      {
        StandsStep(states, steps, h, j, id);
      }
      if steps[h].Process? && steps[h].id == id {
        assert StandsFrom(states, steps, h, n, id);
      }
    }
  }

  // The content a step read contributes exactly this observation to the cell.
  ghost predicate Confirms(site: Site, step: Step, at: GridLatest.At, o: GridLatest.Observation)
    requires site.Sound() && step.Process?
  {
    var batch := GridLatest.LatestBatch(site.geography, step.id, step.grid, o.ingestedAt);
    at in batch && batch[at] == o
  }

  // The commit that wrote what a cell shows.
  lemma {:induction false} WriterOf(site: Site, states: seq<State>, steps: seq<Step>, n: nat, at: GridLatest.At) returns (k: nat)
    requires IsRun(site, states, steps) && n < |states| && at in states[n].latest
    ensures k < n && steps[k].Process? && steps[k].id == states[n].latest[at].granuleId
    ensures steps[k].now == states[n].latest[at].ingestedAt && Confirms(site, steps[k], at, states[n].latest[at])
    decreases n
  {
    var h := n - 1;
    assert n > 0 && Next(site, states[h], steps[h], states[n]);
    if at in states[h].latest && states[h].latest[at] == states[n].latest[at] {
      k := WriterOf(site, states, steps, h, at);
    } else {
      k := h;
    }
  }

  lemma BackedByStandingCommit(site: Site, states: seq<State>, steps: seq<Step>, n: nat, at: GridLatest.At)
    requires IsRun(site, states, steps) && n < |states| && at in states[n].latest
    ensures Backed(site, states[n], at) <==>
      exists j: nat :: StandsFrom(states, steps, j, n, states[n].latest[at].granuleId) && Confirms(site, steps[j], at, states[n].latest[at])
  {
    var o := states[n].latest[at];
    ChecksumIsOfStandingCommit(site, states, steps, n, o.granuleId);
    EveryRunIsConsistent(site, states, steps, n);
    forall j: nat | StandsFrom(states, steps, j, n, o.granuleId)
      ensures Readable(site, states[n].inventory, o.granuleId)
      ensures ScanOf(site, states[n].inventory, o.granuleId).grid == steps[j].grid
    {
      assert Next(site, states[j], steps[j], states[j + 1]);
    }
  }

  /** In any run, a cell is backed exactly when the granule it came from has not been
      requeued since the commit k that wrote it, or a later commit of the granule that still
      stands read the very same observation. */
  lemma CellBackedExactlyWhen(site: Site, states: seq<State>, steps: seq<Step>, n: nat, at: GridLatest.At) returns (k: nat)
    requires IsRun(site, states, steps) && n < |states| && at in states[n].latest
    ensures k < n && steps[k].Process? && Confirms(site, steps[k], at, states[n].latest[at])
    ensures steps[k].id == states[n].latest[at].granuleId && steps[k].now == states[n].latest[at].ingestedAt
    ensures Backed(site, states[n], at) <==>
      || (forall g :: k < g < n ==> !Requeues(states[g], steps[g], steps[k].id))
      || exists j: nat :: k < j && StandsFrom(states, steps, j, n, steps[k].id) && Confirms(site, steps[j], at, states[n].latest[at])
  {
    k := WriterOf(site, states, steps, n, at);
    var id := steps[k].id;
    BackedByStandingCommit(site, states, steps, n, at);
    forall j: nat | StandsFrom(states, steps, j, n, id)
      ensures k <= j
    {
      if j < k {
        assert StandsFrom(states, steps, j, k, id);
        ChecksumIsOfStandingCommit(site, states, steps, k, id);
        EveryRunIsConsistent(site, states, steps, k);
        ChecksumStep(site, states[k], steps[k], states[k + 1], id);
      }
    }
    if forall g :: k < g < n ==> !Requeues(states[g], steps[g], id) {
      assert StandsFrom(states, steps, k, n, id);
    }
  }

  // ---------- The hour a requeue can strand ----------

  /** A granule whose new revision lands in another hour leaves its old hour's rows in
      place: no processed granule backs them, and no later commit to the new hour helps. */
  lemma RequeueCanStrandAnHour(site: Site, s: State, batch: seq<Discovered>, id: string, hour: int,
                               t: State, path: string, grid: Grid, content: Bytes, now: int)
    requires Consistent(site, s) && DistinctIds(batch)
    requires ProcessedIn(s.inventory, hour) == {id} && hour !in s.dirty
    requires IsSuperseded(s.inventory, batch, id)
    requires grid.hour != hour && site.extract(content) == Some(grid)
    requires Next(site, AfterDiscovery(site, s, batch), Process(id, path, grid, content, now), t)
    ensures Consistent(site, t)
    ensures ProcessedIn(t.inventory, hour) == {} && hour in t.hourly && hour in t.dirty
    ensures !HourOk(site, t, hour)
  {
    var m := AfterDiscovery(site, s, batch);
    RequeuedAreSuperseded(s.inventory, batch);
    DiscoveryKeepsConsistent(site, s, batch);
    DiscoveryMembers(site, s, batch, hour);
    CommitKeepsConsistent(site, m, t, id, path, grid, content, now);
    var order, rows, restored :| CommitsWith(site, m, t, id, path, grid, Sha256(content), now, order, rows, restored);
    CommitRows(site, m, t, id, path, grid, content, now, order, rows, restored);
    MembersAfter(m.inventory, t.inventory, id, grid.hour, hour);
    assert id in ProcessedIn(s.inventory, hour);
    assert hour in HoursLeft(s.inventory, Requeued(s.inventory, batch));
  }

  // ---------- Revisions ----------

  function LaterRevision(a: Option<int>, b: Option<int>): Option<int>
  {
    if a.None? then b else if b.None? then a else if a.value < b.value then b else a
  }

  function BatchRevision(batch: seq<Discovered>, id: string): Option<int>
  {
    if batch == [] then None
    else if batch[0].id == id then batch[0].revision
    else BatchRevision(batch[1..], id)
  }

  function HistoryRevision(history: seq<seq<Discovered>>, id: string): Option<int>
  {
    if history == [] then None
    else LaterRevision(HistoryRevision(history[..|history| - 1], id), BatchRevision(history[|history| - 1], id))
  }

  ghost function AfterHistory(site: Site, s: State, history: seq<seq<Discovered>>): State
  {
    if history == [] then s
    else AfterDiscovery(site, AfterHistory(site, s, history[..|history| - 1]), history[|history| - 1])
  }

  function StoredRevision(s: State, id: string): Option<int>
  {
    if id in s.inventory then s.inventory[id].revision else None
  }

  lemma {:induction false} BatchRevisionAt(batch: seq<Discovered>, id: string)
    requires DistinctIds(batch)
    ensures forall i :: 0 <= i < |batch| && batch[i].id == id ==> BatchRevision(batch, id) == batch[i].revision
    ensures (forall i :: 0 <= i < |batch| ==> batch[i].id != id) ==> BatchRevision(batch, id) == None
  {
    if batch != [] {
      BatchRevisionAt(batch[1..], id);
      assert forall i :: 1 <= i < |batch| ==> batch[1..][i - 1] == batch[i];
    }
  }

  lemma {:induction false} DiscoveryRevision(site: Site, s: State, batch: seq<Discovered>, id: string)
    requires DistinctIds(batch)
    ensures StoredRevision(AfterDiscovery(site, s, batch), id)
         == LaterRevision(StoredRevision(s, id), BatchRevision(batch, id))
  {
    BatchRevisionAt(batch, id);
    if i :| 0 <= i < |batch| && batch[i].id == id {
      DiscoveryAt(site, s, batch, i);
    } else {
      DiscoveryElsewhere(site, s, batch, id);
    }
  }

  /** The stored revision is the maximum over everything ever discovered for the
      granule, with a missing revision lowest, whatever order the batches came in. */
  lemma {:induction false} RevisionIsRunningMaximum(site: Site, s: State, history: seq<seq<Discovered>>, id: string)
    requires forall i :: 0 <= i < |history| ==> DistinctIds(history[i])
    ensures StoredRevision(AfterHistory(site, s, history), id)
         == LaterRevision(StoredRevision(s, id), HistoryRevision(history, id))
    decreases |history|
  {
    if history != [] {
      var init := history[..|history| - 1];
      RevisionIsRunningMaximum(site, s, init, id);
      DiscoveryRevision(site, AfterHistory(site, s, init), history[|history| - 1], id);
    }
  }

  // The batches whose discovery went through, in order.
  function Discoveries(steps: seq<Step>): seq<seq<Discovered>>
  {
    if steps == [] then []
    else
      var last := steps[|steps| - 1];
      Discoveries(steps[..|steps| - 1]) + if last.Discover? then [last.batch] else []
  }

  lemma {:induction false} RevisionStep(site: Site, s: State, step: Step, t: State, id: string)
    requires Consistent(site, s) && Next(site, s, step, t)
    ensures StoredRevision(t, id) ==
      if step.Discover? then LaterRevision(StoredRevision(s, id), BatchRevision(step.batch, id)) else StoredRevision(s, id)
  {
    match step
    case Discover(batch) => DiscoveryRevision(site, s, batch, id);
    case Process(other, path, grid, content, now) =>
      var order, rows, restored :| CommitsWith(site, s, t, other, path, grid, Sha256(content), now, order, rows, restored);
      CommitKeepsRevision(s.inventory, restored, other, path, Sha256(content), grid.hour, now, id);
    case _ =>
  }

  lemma CommitKeepsRevision(before: Inventory, restored: map<string, string>, other: string, path: string, recorded: Digest,
                            hour: int, now: int, id: string)
    ensures var after := MarkProcessed(MarkRestored(before, restored), other, path, recorded, hour, now);
      (id in after <==> id in before) && (id in before ==> after[id].revision == before[id].revision)
  {
  }

  /** The same at every moment of every run, whatever was processed, failed, pruned or
      requeued in between: only the discoveries that went through count. */
  lemma {:induction false} RevisionFollowsDiscoveries(site: Site, states: seq<State>, steps: seq<Step>, n: nat, id: string)
    requires IsRun(site, states, steps) && n < |states|
    ensures StoredRevision(states[n], id) == HistoryRevision(Discoveries(steps[..n]), id)
    decreases n
  {
    if n > 0 {
      var h := n - 1;
      RevisionFollowsDiscoveries(site, states, steps, h, id);
      EveryRunIsConsistent(site, states, steps, h);
      RevisionStep(site, states[h], steps[h], states[n], id);
      assert steps[..n][..h] == steps[..h] && steps[..n][h] == steps[h];
      if steps[h].Discover? {
        assert (Discoveries(steps[..h]) + [steps[h].batch])[..|Discoveries(steps[..h])|] == Discoveries(steps[..h]);
      } else {
        assert Discoveries(steps[..h]) + [] == Discoveries(steps[..h]);
      }
    }
  }

  /** Nothing in the history exceeds the maximum, and the maximum occurs in it. */
  lemma {:induction false} HistoryRevisionIsMaximum(history: seq<seq<Discovered>>, id: string)
    ensures forall k :: 0 <= k < |history| && BatchRevision(history[k], id).Some? ==>
      HistoryRevision(history, id).Some? && BatchRevision(history[k], id).value <= HistoryRevision(history, id).value
    ensures HistoryRevision(history, id).Some? ==>
      exists k :: 0 <= k < |history| && BatchRevision(history[k], id) == HistoryRevision(history, id)
    decreases |history|
  {
    if history != [] {
      var n := |history| - 1;
      HistoryRevisionIsMaximum(history[..n], id);
      assert forall k :: 0 <= k < n ==> history[..n][k] == history[k];
      if HistoryRevision(history, id).Some? && HistoryRevision(history, id) == HistoryRevision(history[..n], id) {
        var k :| 0 <= k < n && BatchRevision(history[..n][k], id) == HistoryRevision(history[..n], id);
        assert BatchRevision(history[k], id) == HistoryRevision(history, id);
      } else {
        assert HistoryRevision(history, id).Some? ==> BatchRevision(history[n], id) == HistoryRevision(history, id);
      }
    }
  }
}
