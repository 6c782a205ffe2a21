/** The pipeline's mutable warehouse: discovery, pruning, sibling loading, the
    transactional processing step and the pending loop
    (ingestion/tempo/sync.py, storage/duckdb/granules.py). */
module GranuleWarehouse {
  import opened Prelude
  import opened RegionHour
  import opened GranuleInventory
  import GranuleRefinement
  import GridLatest

  datatype DiscoveryMetrics = DiscoveryMetrics(found: nat, inserted: nat, refreshed: nat, requeued: nat)

  datatype DiscoverError = UpdateFailed | UnlinkFailed | MergeFailed

  // Where the database raises during a discovery.
  datatype Fault = NoFault | WhileUpdating | WhileMerging

  datatype PruneError = RetentionTooShort | OutsideRawDirectory

  datatype ProcessError =
    | Unreadable | MissingChecksum | DownloadFailed | ChecksumMismatch | HourMismatch
    | Pooling(error: PoolError) | NothingToStore | DatabaseFailed

  function Cutoff(now: int, retentionDays: int): int
  {
    now - retentionDays * 86_400_000_000
  }

  function PrunableIds(inventory: Inventory, cutoff: int): set<string>
  {
    set id | id in inventory && Prunable(inventory[id], cutoff)
  }

  ghost function RecordedPaths(inventory: Inventory, ids: set<string>): set<string>
    requires forall id :: id in ids ==> id in inventory && inventory[id].localPath.Some?
  {
    set id | id in ids :: inventory[id].localPath.value
  }

  method ListSorted(members: set<string>) returns (ids: seq<string>)
    ensures IsListing(ids, members) && SortedBy(ids, TextLeq)
  {
    ids := [];
    var todo := members;
    while todo != {}
      invariant todo <= members
      invariant forall id :: id in ids <==> id in members - todo
      invariant Distinct(ids) && SortedBy(ids, TextLeq)
      decreases todo
    {
      var id :| id in todo;
      ghost var longer := InsertBy(id, ids, TextLeq);
      TextLeqPreorder();
      InsertKeepsSorted(id, ids, TextLeq);
      InsertKeepsDistinct(id, ids);
      ids, todo := InsertBy(id, ids, TextLeq), todo - {id};
    }
  }

  lemma {:induction false} InsertKeepsDistinct(id: string, ids: seq<string>)
    requires Distinct(ids) && id !in ids
    ensures Distinct(InsertBy(id, ids, TextLeq))
    ensures forall x :: x in InsertBy(id, ids, TextLeq) <==> x == id || x in ids
  {
    forall x
      ensures x in InsertBy(id, ids, TextLeq) <==> x == id || x in ids
    {
      assert x in InsertBy(id, ids, TextLeq) <==> x in multiset(InsertBy(id, ids, TextLeq));
      assert x in ids <==> x in multiset(ids);
    }
    if ids != [] && !TextLeq(id, ids[0]) {
      var rest := InsertBy(id, ids[1..], TextLeq);
      InsertKeepsDistinct(id, ids[1..]);
      assert ids[0] !in rest;
      DistinctCons(ids[0], rest);
    } else {
      DistinctCons(id, ids);
    }
  }

  lemma DistinctCons(x: string, s: seq<string>)
    requires Distinct(s) && x !in s
    ensures Distinct([x] + s)
  {
  }

  // A file already there is used unless it contradicts a recorded checksum.
  predicate Trusted(files: map<string, Bytes>, path: string, checksum: Option<Digest>)
  {
    path in files && (checksum.Some? ==> Sha256(files[path]) == checksum.value)
  }

  // The content a granule is processed from: the trusted file, or else a fresh download.
  function Fetched(files: map<string, Bytes>, id: string, path: string, checksum: Option<Digest>, fetch: map<string, Bytes>): Option<Bytes>
  {
    if Trusted(files, path, checksum) then Some(files[path]) else if id in fetch then Some(fetch[id]) else None
  }

  function PathOf(site: Site, row: Row, id: string): string
  {
    if row.localPath.Some? then row.localPath.value else site.rawPath(id)
  }

  // Whether a sibling's scan can be had: the file on its path, or a download if there is
  // none, is the content its checksum names, and that content is a grid of the hour.
  ghost predicate CanLoad(site: Site, row: Row, id: string, hour: int, files: map<string, Bytes>, fetch: map<string, Bytes>)
  {
    var path := PathOf(site, row, id);
    var found := if path in files then Some(files[path]) else if id in fetch then Some(fetch[id]) else None;
    && row.checksum.Some? && found.Some? && Sha256(found.value) == row.checksum.value
    && site.extract(found.value).Some? && site.extract(found.value).value.hour == hour
  }

  ghost predicate Holds(site: Site, inventory: Inventory, id: string, files: map<string, Bytes>, path: string)
    requires id in inventory && path in files
  {
    PathOf(site, inventory[id], id) == path && inventory[id].checksum == Some(Sha256(files[path]))
  }

  // Files with nothing lost and nothing added but the recorded contents of siblings.
  ghost predicate Restores(site: Site, inventory: Inventory, siblings: set<string>, files: map<string, Bytes>, more: map<string, Bytes>)
    requires siblings <= inventory.Keys
  {
    && (forall p :: p in files ==> p in more && more[p] == files[p])
    && (forall p :: p in more && p !in files ==> exists other :: other in siblings && Holds(site, inventory, other, more, p))
  }

  // Every sibling can be had, whichever other siblings have been restored before it.
  ghost predicate AllLoadable(site: Site, inventory: Inventory, id: string, hour: int, files: map<string, Bytes>, fetch: map<string, Bytes>)
  {
    forall other, more: map<string, Bytes> ::
      other in Siblings(inventory, id, hour) && Restores(site, inventory, Siblings(inventory, id, hour), files, more) ==>
        CanLoad(site, inventory[other], other, hour, more, fetch)
  }

  // The granule's hour can be pooled: every sibling can be had and the scans go together.
  ghost predicate Poolable(site: Site, inventory: Inventory, id: string, grid: Grid, files: map<string, Bytes>, fetch: map<string, Bytes>)
    requires site.Sound()
  {
    && AllLoadable(site, inventory, id, grid.hour, files, fetch)
    && site.geography.weights.regionIds != []
    && forall order: seq<string> ::
         IsListing(order, Siblings(inventory, id, grid.hour)) && (forall other :: other in order ==> Readable(site, inventory, other)) ==>
         PoolHour([Scan(id, grid)] + ScansOf(site, inventory, order), site.geography).Ok?
  }

  // Everything one pending granule needs in order to be processed.
  ghost predicate Processable(site: Site, inventory: Inventory, id: string, files: map<string, Bytes>, fetch: map<string, Bytes>)
    requires site.Sound() && id in inventory
  {
    var path, checksum := site.rawPath(id), inventory[id].checksum;
    var content := Fetched(files, id, path, checksum, fetch);
    && content.Some? && (checksum.Some? ==> Sha256(content.value) == checksum.value)
    && site.extract(content.value).Some?
    && Poolable(site, inventory, id, site.extract(content.value).value, files[path := content.value], fetch)
  }

  class Warehouse {
    const site: Site
    var inventory: Inventory
    var hourly: map<int, seq<RegionRow>>
    var files: map<string, Bytes>
    var latest: GridLatest.Batch
    ghost var dirty: set<int>

    ghost function Snapshot(): State
      reads this
    {
      State(inventory, hourly, files, dirty, latest)
    }

    ghost predicate Valid()
      reads this
    {
      Consistent(site, Snapshot())
    }

    constructor (site: Site)
      requires site.Sound()
      ensures Valid() && this.site == site
      ensures Snapshot() == State(map[], map[], map[], {}, map[])
    {
      this.site := site;
      inventory, hourly, files, dirty, latest := map[], map[], map[], {}, map[];
      new;
      assert forall hour :: ProcessedIn(inventory, hour) == {};
    }

    // MERGE of a discovery batch.
    method Merge(batch: seq<Discovered>) returns (inserted: nat)
      modifies this`inventory
      ensures inventory == MergeAll(old(inventory), batch)
      ensures inserted == |inventory| - |old(inventory)| && inserted <= |batch|
    {
      inserted := 0;
      for i := 0 to |batch|
        invariant inventory == MergeAll(old(inventory), batch[..i])
        invariant inserted == |inventory| - |old(inventory)| && inserted <= i
      {
        assert batch[..i + 1][..i] == batch[..i];
        var merged := MergeOne(inventory, batch[i]);
        assert merged.Keys == inventory.Keys + {batch[i].id};
        if batch[i].id !in inventory {
          inserted := inserted + 1;
        } else {
          assert merged.Keys == inventory.Keys;
        }
        inventory := merged;
      }
      assert batch[..|batch|] == batch;
    }

    // Deletes the stale files one by one; a path that cannot be deleted stops it.
    method UnlinkAll(stale: set<string>, stuck: set<string>) returns (ok: bool, ghost gone: set<string>)
      modifies this`files
      ensures gone <= stale && files == old(files) - gone
      ensures ok <==> stale !! stuck
      ensures ok ==> gone == stale
    {
      var todo := stale;
      gone := {};
      while todo != {}
        invariant forall p :: p in stale <==> p in todo || p in gone
        invariant forall p :: p in gone ==> p !in todo && p !in stuck
        invariant files == old(files) - gone
        decreases todo
      {
        var path :| path in todo;
        if path in stuck {
          ok := false;
          return;
        }
        ghost var before := files;
        files := files - {path};
        RemoveTwice(old(files), gone, path);
        todo, gone := todo - {path}, gone + {path};
      }
      assert gone == stale;
      ok := true;
    }

    /** Resets the overtaken rows, deletes their files and merges the batch. A failing UPDATE
        leaves everything; a file that cannot be deleted or a failing MERGE ends the call
        between the reset and the merge. */
    method Discover(batch: seq<Discovered>, stuck: set<string>, fault: Fault)
      returns (r: Result<DiscoveryMetrics, DiscoverError>, ghost gone: set<string>)
      requires DistinctIds(batch)
      modifies this`inventory, this`files, this`dirty
      ensures r == Err(UpdateFailed) <==> fault == WhileUpdating && exists id :: IsSuperseded(old(inventory), batch, id)
      ensures r == Err(UnlinkFailed) <==>
        r != Err(UpdateFailed) && exists path :: path in stuck && IsStale(site, old(inventory), batch, path)
      ensures r == Err(MergeFailed) <==>
        batch != [] && fault == WhileMerging && !exists path :: path in stuck && IsStale(site, old(inventory), batch, path)
      ensures r.Ok? ==> DiscoveryOutcome(site, old(Snapshot()), batch, Snapshot())
      ensures r.Ok? ==> Snapshot() == AfterDiscovery(site, old(Snapshot()), batch)
      ensures r == Err(UpdateFailed) ==> Snapshot() == old(Snapshot())
      ensures r.Err? && r.error != UpdateFailed ==>
        && (forall path :: path in gone ==> IsStale(site, old(inventory), batch, path))
        && InterruptedOutcome(old(Snapshot()), batch, gone, Snapshot())
      ensures r.Err? && r.error != UpdateFailed ==> Snapshot() == AfterRequeue(old(Snapshot()), batch, gone)
      ensures r == Err(MergeFailed) ==> forall path :: IsStale(site, old(inventory), batch, path) ==> path in gone
      ensures old(Valid()) ==> Valid()
      ensures r.Ok? ==>
        && r.value.found == |batch| && r.value.inserted + r.value.refreshed == r.value.found
        && r.value.requeued == |set id | id in old(inventory) && IsSuperseded(old(inventory), batch, id)|
        && r.value.inserted == |inventory| - |old(inventory)|
    {
      ghost var start := Snapshot();
      var requeue, stale := FindRequeued(batch);
      DiscoveryDoes(site, start, batch);
      gone := {};
      if batch == [] {
        GranuleRefinement.EmptyDiscovery(site, start);
        return Ok(DiscoveryMetrics(0, 0, 0, 0)), gone;
      }
      if requeue != {} && fault == WhileUpdating {
        return Err(UpdateFailed), gone;
      }
      r, gone := ResetUnlinkMerge(batch, requeue, stuck, fault);
      InterruptedDoes(start, batch, gone);
    }

    // From the reset on.
    method ResetUnlinkMerge(batch: seq<Discovered>, requeue: set<string>, stuck: set<string>, fault: Fault)
      returns (r: Result<DiscoveryMetrics, DiscoverError>, ghost gone: set<string>)
      requires DistinctIds(batch) && requeue == Requeued(inventory, batch)
      modifies this`inventory, this`files, this`dirty
      ensures r == Err(UnlinkFailed) <==> !(StalePaths(site, old(inventory), requeue) !! stuck)
      ensures r == Err(MergeFailed) <==> fault == WhileMerging && StalePaths(site, old(inventory), requeue) !! stuck
      ensures r != Err(UpdateFailed) && gone <= StalePaths(site, old(inventory), requeue)
      ensures r.Ok? ==> Snapshot() == AfterDiscovery(site, old(Snapshot()), batch)
      ensures r.Err? ==> Snapshot() == AfterRequeue(old(Snapshot()), batch, gone)
      ensures r == Err(MergeFailed) ==> gone == StalePaths(site, old(inventory), requeue)
      ensures old(Valid()) ==> Valid()
      ensures r.Ok? ==>
        && r.value.found == |batch| && r.value.inserted + r.value.refreshed == r.value.found
        && r.value.requeued == |requeue| && r.value.inserted == |inventory| - |old(inventory)|
    {
      ghost var start := Snapshot();
      var ok, removed := ResetAndUnlink(batch, requeue, stuck);
      gone := removed;
      DiscoveryKeeps(site, start, batch, gone);
      if !ok {
        return Err(UnlinkFailed), gone;
      }
      if fault == WhileMerging {
        return Err(MergeFailed), gone;
      }
      var inserted := Merge(batch);
      r := Ok(DiscoveryMetrics(|batch|, inserted, |batch| - inserted, |requeue|));
    }

    // The SELECT of the rows to requeue, and the files that go with them.
    method FindRequeued(batch: seq<Discovered>) returns (requeue: set<string>, ghost stale: set<string>)
      ensures requeue == Requeued(inventory, batch) && stale == StalePaths(site, inventory, requeue)
      ensures requeue == set id | id in inventory && IsSuperseded(inventory, batch, id)
      ensures forall id :: id in requeue <==> IsSuperseded(inventory, batch, id)
      ensures forall path :: path in stale <==> IsStale(site, inventory, batch, path)
      ensures batch == [] ==> requeue == {} && stale == {}
    {
      requeue := Requeued(inventory, batch);
      stale := StalePaths(site, inventory, requeue);
      RequeuedAreSuperseded(inventory, batch);
      StalePathsAreStale(site, inventory, batch);
    }

    // The UPDATE and the deletions that follow it.
    method ResetAndUnlink(batch: seq<Discovered>, requeue: set<string>, stuck: set<string>) returns (ok: bool, ghost gone: set<string>)
      requires requeue == Requeued(inventory, batch)
      modifies this`inventory, this`files, this`dirty
      ensures ok <==> StalePaths(site, old(inventory), requeue) !! stuck
      ensures gone <= StalePaths(site, old(inventory), requeue) && (ok ==> gone == StalePaths(site, old(inventory), requeue))
      ensures Snapshot() == AfterRequeue(old(Snapshot()), batch, gone)
      ensures |inventory| == |old(inventory)|
    {
      var stale := StalePaths(site, inventory, requeue);
      ResetKeepsSize(inventory, requeue);
      dirty := dirty + HoursLeft(inventory, requeue);
      inventory := ResetAll(inventory, requeue);
      ok, gone := UnlinkAll(stale, stuck);
    }

    static lemma ResetKeepsSize(inventory: Inventory, ids: set<string>)
      ensures |ResetAll(inventory, ids)| == |inventory|
    {
      assert ResetAll(inventory, ids).Keys == inventory.Keys;
    }

    static lemma DiscoveryKeeps(site: Site, s: State, batch: seq<Discovered>, gone: set<string>)
      requires DistinctIds(batch)
      ensures Consistent(site, s) ==>
        Consistent(site, AfterDiscovery(site, s, batch)) && Consistent(site, AfterRequeue(s, batch, gone))
    {
      if Consistent(site, s) {
        GranuleRefinement.DiscoveryKeepsConsistent(site, s, batch);
        GranuleRefinement.RequeueKeepsConsistent(site, s, batch, gone);
      }
    }

    /** A requeued granule is fetched anew after a discovery if its raw path lies under the
        root. After an interrupted discovery, repeated or not, it is fetched anew exactly when
        its file was not there or had been deleted before the interruption: a file left
        behind is taken for the new revision, since the row no longer records a checksum. */
    static lemma LeftoverFileIsTrusted(site: Site, s: State, batch: seq<Discovered>, gone: set<string>, id: string)
      requires DistinctIds(batch) && IsSuperseded(s.inventory, batch, id)
      ensures var path := site.rawPath(id);
        var clean := AfterDiscovery(site, s, batch);
        var repeated := AfterDiscovery(site, AfterRequeue(s, batch, gone), batch);
        && id in clean.inventory && id in repeated.inventory
        && (site.insideRaw(path) ==> !Trusted(clean.files, path, clean.inventory[id].checksum))
        && (Trusted(repeated.files, path, repeated.inventory[id].checksum) <==> path in s.files && path !in gone)
    {
      RequeuedAreSuperseded(s.inventory, batch);
      GranuleRefinement.RepeatedDiscoveryKeepsStaleFiles(site, s, batch, gone);
      DiscoveryKeepsRows(site, s, batch);
      DiscoveryRow(site, s, batch, id);
    }

    /** A granule that is not processed, be it pending, failed or unknown, and of which a newer
        revision is discovered, is processed from the file already on its raw path exactly when
        there is one and no requeue of the same batch deletes it: the row has no checksum to
        tell the file from the new revision. */
    static lemma WaitingFileIsTrusted(site: Site, s: State, batch: seq<Discovered>, i: nat)
      requires Consistent(site, s) && DistinctIds(batch) && i < |batch|
      requires batch[i].id in s.inventory ==> IsPending(s.inventory[batch[i].id])
      ensures var id, after := batch[i].id, AfterDiscovery(site, s, batch);
        && id in after.inventory && IsPending(after.inventory[id])
        && (Trusted(after.files, site.rawPath(id), after.inventory[id].checksum) <==>
              site.rawPath(id) in s.files && !IsStale(site, s.inventory, batch, site.rawPath(id)))
    {
      StalePathsAreStale(site, s.inventory, batch);
      var id := batch[i].id;
      DiscoveryAt(site, s, batch, i);
      if id in s.inventory {
        assert RowOk(site, s.inventory[id]);
        GranuleRefinement.PendingHasNoChecksum(site, s, id);
      }
    }

    // One iteration of the pruning loop.
    method PruneOne(id: string) returns (existed: bool)
      requires id in inventory && inventory[id].localPath.Some?
      modifies this`inventory, this`files
      ensures inventory == ForgetPaths(old(inventory), {id})
      ensures files == old(files) - {old(inventory)[id].localPath.value}
      ensures |files| == |old(files)| - if existed then 1 else 0
    {
      var path := inventory[id].localPath.value;
      existed := path in files;
      files := files - {path};
      if existed {
        assert old(files).Keys == files.Keys + {path};
      } else {
        assert old(files) == files;
      }
      inventory := ForgetPaths(inventory, {id});
    }

    method PruneAll(ids: set<string>) returns (ok: bool, deleted: nat, ghost done: set<string>)
      requires forall id :: id in ids ==> id in inventory && inventory[id].localPath.Some?
      modifies this`inventory, this`files
      ensures done <= ids && (ok ==> done == ids)
      ensures forall id :: id in done ==> site.insideRaw(old(inventory)[id].localPath.value)
      ensures !ok ==> exists id :: id in ids && !site.insideRaw(old(inventory)[id].localPath.value)
      ensures inventory == ForgetPaths(old(inventory), done)
      ensures files == old(files) - RecordedPaths(old(inventory), done)
      ensures deleted == |old(files)| - |files|
    {
      var todo := ids;
      ghost var before := inventory;
      done, deleted := {}, 0;
      while todo != {}
        invariant forall x :: x in ids <==> x in todo || x in done
        invariant forall x :: x in todo ==> x !in done
        invariant forall x :: x in done ==> site.insideRaw(before[x].localPath.value)
        invariant inventory == ForgetPaths(before, done)
        invariant files == old(files) - RecordedPaths(before, done)
        invariant deleted == |old(files)| - |files|
        decreases todo
      {
        var id :| id in todo;
        assert inventory[id] == before[id];
        if !site.insideRaw(inventory[id].localPath.value) {
          ok := false;
          return;
        }
        var existed := PruneOne(id);
        deleted := deleted + if existed then 1 else 0;
        PruneGrows(before, done, id);
        RemoveTwice(old(files), RecordedPaths(before, done), before[id].localPath.value);
        todo, done := todo - {id}, done + {id};
      }
      assert done == ids;
      ok := true;
    }

    /** Deletes files older than the retention and forgets their paths. A path outside
        the raw directory stops the pass; what was pruned before it stays pruned. */
    method Prune(now: int, retentionDays: int) returns (r: Result<nat, PruneError>, ghost done: set<string>)
      modifies this`inventory, this`files
      ensures old(Valid()) ==> Valid()
      ensures r == Err(RetentionTooShort) <==> retentionDays < 1
      ensures retentionDays < 1 ==> Snapshot() == old(Snapshot()) && done == {}
      ensures forall id :: id in done ==>
        id in old(inventory) && IsExpired(old(inventory)[id], now, retentionDays) && site.insideRaw(old(inventory)[id].localPath.value)
      ensures inventory.Keys == old(inventory).Keys
      ensures forall id :: id in inventory ==>
        inventory[id] == if id in done then old(inventory)[id].(localPath := None) else old(inventory)[id]
      ensures forall path :: path in files <==>
        path in old(files) && !exists id :: id in done && old(inventory)[id].localPath == Some(path)
      ensures forall path :: path in files ==> files[path] == old(files)[path]
      ensures r.Ok? ==> forall id :: id in old(inventory) && IsExpired(old(inventory)[id], now, retentionDays) ==> id in done
      ensures r.Ok? ==> r.value == |old(files)| - |files|
      ensures r == Err(OutsideRawDirectory) <==>
        retentionDays >= 1 && exists id :: id in old(inventory) && IsExpired(old(inventory)[id], now, retentionDays)
                                           && !site.insideRaw(old(inventory)[id].localPath.value)
    {
      if retentionDays < 1 {
        PruneNothing(inventory, files);
        return Err(RetentionTooShort), {};
      }
      ghost var start := Snapshot();
      var ids := PrunableIds(inventory, Cutoff(now, retentionDays));
      var ok, deleted, pruned := PruneAll(ids);
      done := pruned;
      PruneKeeps(site, start, done, files);
      r := if ok then Ok(deleted) else Err(OutsideRawDirectory);
    }

    static lemma PruneNothing(inventory: Inventory, files: map<string, Bytes>)
      ensures ForgetPaths(inventory, {}) == inventory
      ensures files - RecordedPaths(inventory, {}) == files
    {
      assert RecordedPaths(inventory, {}) == {};
    }

    static lemma PruneKeeps(site: Site, s: State, done: set<string>, files: map<string, Bytes>)
      ensures Consistent(site, s) ==> Consistent(site, s.(inventory := ForgetPaths(s.inventory, done), files := files))
    {
      if Consistent(site, s) {
        var t := s.(inventory := ForgetPaths(s.inventory, done));
        GranuleRefinement.PruneKeepsConsistent(site, s, done);
        GranuleRefinement.FilesDoNotMatter(site, t, t.(files := files));
      }
    }

    static lemma RemoveTwice(m: map<string, Bytes>, gone: set<string>, path: string)
      ensures (m - gone) - {path} == m - (gone + {path})
    {
    }

    static lemma PruneGrows(before: Inventory, done: set<string>, id: string)
      requires forall other :: other in done + {id} ==> other in before && before[other].localPath.Some?
      ensures RecordedPaths(before, done + {id}) == RecordedPaths(before, done) + {before[id].localPath.value}
      ensures ForgetPaths(ForgetPaths(before, done), {id}) == ForgetPaths(before, done + {id})
    {
    }

    // ---------- Processing ----------

    // Finds a sibling's file, restoring it when it is gone, and reads the grid it holds. It
    // fails exactly when the content found or fetched is not the recorded one of that hour.
    method LoadSibling(id: string, hour: int, fetch: map<string, Bytes>)
      returns (r: Result<Grid, ProcessError>, restoredAt: Option<string>)
      requires id in inventory
      modifies this`files
      ensures old(files).Keys <= files.Keys && forall p :: p in old(files) ==> files[p] == old(files)[p]
      ensures r.Ok? ==>
        && Readable(site, inventory, id)
        && site.extract(inventory[id].checksum.value.content) == Some(r.value)
        && r.value.hour == hour
      ensures r.Ok? <==> CanLoad(site, inventory[id], id, hour, old(files), fetch)
      ensures r.Ok? ==>
        var path := PathOf(site, inventory[id], id);
        path in files && Holds(site, inventory, id, files, path) && files == old(files)[path := files[path]]
      ensures r.Err? ==> files == old(files)
    {
      var row := inventory[id];
      var path := PathOf(site, row, id);
      var restoredNow := path !in files;
      restoredAt := None;
      ghost var before := files;
      if restoredNow {
        if row.checksum.None? {
          return Err(MissingChecksum), None;
        }
        if id !in fetch {
          return Err(DownloadFailed), None;
        }
        files := files[path := fetch[id]];
      }
      var grid := site.extract(files[path]);
      var problem :=
        if row.checksum.None? || Sha256(files[path]) != row.checksum.value then Some(ChecksumMismatch)
        else if grid.None? then Some(Unreadable)
        else if grid.value.hour != hour then Some(HourMismatch)
        else None;
      if problem.Some? {
        if restoredNow {
          files := files - {path};
          assert files == before;
        }
        return Err(problem.value), None;
      }
      r, restoredAt := Ok(grid.value), if restoredNow then Some(path) else None;
    }

    static lemma RestoresOneMore(site: Site, inventory: Inventory, siblings: set<string>,
                                 files: map<string, Bytes>, before: map<string, Bytes>, after: map<string, Bytes>, id: string)
      requires siblings <= inventory.Keys && id in siblings && Restores(site, inventory, siblings, files, before)
      requires var path := PathOf(site, inventory[id], id);
        && path in after && Holds(site, inventory, id, after, path) && after == before[path := after[path]]
        && (path in before ==> before[path] == after[path])
      ensures Restores(site, inventory, siblings, files, after)
    {
      forall p | p in after && p !in files
        ensures exists other :: other in siblings && Holds(site, inventory, other, after, p)
      {
        if p in before {
          var other :| other in siblings && Holds(site, inventory, other, before, p);
          assert Holds(site, inventory, other, after, p);
        } else {
          assert Holds(site, inventory, id, after, p);
        }
      }
    }

    static lemma ScansSnoc(site: Site, inventory: Inventory, siblings: seq<string>, i: nat, grid: Grid)
      requires i < |siblings| && Readable(site, inventory, siblings[i])
      requires forall j :: 0 <= j < i ==> Readable(site, inventory, siblings[j])
      requires site.extract(inventory[siblings[i]].checksum.value.content) == Some(grid)
      ensures ScansOf(site, inventory, siblings[..i + 1]) == ScansOf(site, inventory, siblings[..i]) + [Scan(siblings[i], grid)]
    {
    }

    static lemma NotLoadable(site: Site, inventory: Inventory, id: string, hour: int, files: map<string, Bytes>,
                             fetch: map<string, Bytes>, other: string, at: map<string, Bytes>)
      requires other in Siblings(inventory, id, hour) && Restores(site, inventory, Siblings(inventory, id, hour), files, at)
      requires !CanLoad(site, inventory[other], other, hour, at, fetch)
      ensures !AllLoadable(site, inventory, id, hour, files, fetch)
    {
    }

    // One sibling of the granule, the files restored so far being accounted for.
    method LoadNext(id: string, hour: int, sibling: string, fetch: map<string, Bytes>, ghost start: map<string, Bytes>)
      returns (r: Result<Grid, ProcessError>, restoredAt: Option<string>)
      requires sibling in Siblings(inventory, id, hour)
      requires Restores(site, inventory, Siblings(inventory, id, hour), start, files)
      modifies this`files
      ensures r.Ok? ==>
        && Readable(site, inventory, sibling)
        && site.extract(inventory[sibling].checksum.value.content) == Some(r.value)
      ensures r.Err? ==> !AllLoadable(site, inventory, id, hour, start, fetch)
      ensures Restores(site, inventory, Siblings(inventory, id, hour), start, files)
    {
      ghost var before := files;
      r, restoredAt := LoadSibling(sibling, hour, fetch);
      if r.Ok? {
        RestoresOneMore(site, inventory, Siblings(inventory, id, hour), start, before, files, sibling);
      } else {
        NotLoadable(site, inventory, id, hour, start, fetch, sibling, before);
      }
    }

    static lemma RestoresKeeps(site: Site, inventory: Inventory, siblings: set<string>, files: map<string, Bytes>, more: map<string, Bytes>)
      requires siblings <= inventory.Keys && Restores(site, inventory, siblings, files, more)
      ensures files.Keys <= more.Keys && forall p :: p in files ==> more[p] == files[p]
    {
    }

    method LoadSiblings(id: string, grid: Grid, fetch: map<string, Bytes>)
      returns (r: Result<seq<Scan>, ProcessError>, ghost order: seq<string>, restored: map<string, string>)
      modifies this`files
      ensures Restores(site, inventory, Siblings(inventory, id, grid.hour), old(files), files)
      ensures IsListing(order, Siblings(inventory, id, grid.hour))
      ensures restored.Keys <= Siblings(inventory, id, grid.hour)
      ensures r.Ok? ==>
        && (forall other :: other in order ==> Readable(site, inventory, other))
        && r.value == [Scan(id, grid)] + ScansOf(site, inventory, order)
      ensures AreSiblings(order, inventory, id, grid.hour)
      ensures r.Err? ==> !AllLoadable(site, inventory, id, grid.hour, old(files), fetch)
    {
      var siblings := ListSorted(Siblings(inventory, id, grid.hour));
      order := siblings;
      var scans := [Scan(id, grid)];
      restored := map[];
      for i := 0 to |siblings|
        invariant Restores(site, inventory, Siblings(inventory, id, grid.hour), old(files), files)
        invariant restored.Keys <= Siblings(inventory, id, grid.hour)
        invariant forall j :: 0 <= j < i ==> Readable(site, inventory, siblings[j])
        invariant scans == [Scan(id, grid)] + ScansOf(site, inventory, siblings[..i])
      {
        assert siblings[i] in siblings;
        var sibling, restoredAt := LoadNext(id, grid.hour, siblings[i], fetch, old(files));
        if sibling.Err? {
          return Err(sibling.error), order, restored;
        }
        if restoredAt.Some? {
          restored := restored[siblings[i] := restoredAt.value];
        }
        scans := scans + [Scan(siblings[i], sibling.value)];
        ScansSnoc(site, inventory, siblings, i, sibling.value);
      }
      assert siblings[..|siblings|] == siblings;
      r := Ok(scans);
    }

    /** INSERT ... ON CONFLICT DO UPDATE WHERE, one row of the batch at a time. */
    method UpsertGridLatest(batch: GridLatest.Batch) returns (rows: nat)
      modifies this`latest
      ensures latest == GridLatest.Merged(old(latest), batch)
      ensures GridLatest.IsUpserted(old(latest), batch, latest)
      ensures rows == |batch|
    {
      var todo := batch.Keys;
      ghost var first, done := latest, map[];
      while todo != {}
        invariant forall at :: at in batch <==> at in todo || at in done
        invariant forall at :: at in done ==> at !in todo && at in batch && done[at] == batch[at]
        invariant latest == GridLatest.Merged(first, done)
        decreases todo
      {
        var at :| at in todo;
        GridLatest.MergeOneMore(first, done, at, batch[at]);
        if at !in latest || GridLatest.Beats(batch[at], latest[at]) {
          latest := latest[at := batch[at]];
        }
        todo, done := todo - {at}, done[at := batch[at]];
      }
      assert done == batch;
      GridLatest.MergedIsUpserted(first, batch);
      rows := |batch|;
    }

    /** Pools the granule with its processed siblings and commits the hour, the latest
        observations, the restored paths and the granule's row in one transaction; any failure
        rolls the tables back. */
    method ProcessDownloaded(id: string, path: string, given: Option<Digest>, fetch: map<string, Bytes>,
                             now: int, databaseFails: bool)
      returns (r: Result<nat, ProcessError>)
      requires site.Sound()
      modifies this
      ensures r.Err? ==> Snapshot() == old(Snapshot()).(files := files)
      ensures r.Ok? ==>
        && path in old(files) && site.extract(old(files)[path]).Some?
        && var grid := site.extract(old(files)[path]).value;
           && Commits(site, old(Snapshot()), Snapshot(), id, path, grid,
                      if given.Some? then given.value else Sha256(old(files)[path]), now)
           && CommitOutcome(site, old(Snapshot()), Snapshot(), id, path, grid,
                            if given.Some? then given.value else Sha256(old(files)[path]), now)
           && grid.hour in hourly && r.value == |hourly[grid.hour]| && grid.hour !in dirty
      ensures (!databaseFails && path in old(files) && site.extract(old(files)[path]).Some?
               && Poolable(site, old(inventory), id, site.extract(old(files)[path]).value, old(files), fetch)) ==> r.Ok?
    {
      if path !in files || site.extract(files[path]).None? {
        return Err(Unreadable);
      }
      var grid := site.extract(files[path]).value;
      var recorded := if given.Some? then given.value else Sha256(files[path]);
      var loaded, order, restored := LoadSiblings(id, grid, fetch);
      RestoresKeeps(site, inventory, Siblings(inventory, id, grid.hour), old(files), files);
      if loaded.Err? {
        return Err(loaded.error);
      }
      var rows := AggregateRegionHour(loaded.value, site.geography);
      if rows.Err? {
        return Err(Pooling(rows.error));
      }
      ghost var before := Snapshot();
      r := CommitHour(id, path, grid, recorded, rows.value, restored, now, databaseFails);
      if r.Ok? {
        assert CommitsWith(site, before, Snapshot(), id, path, grid, recorded, now, order, rows.value, restored);
        CommitIgnoresFiles(site, old(Snapshot()), before, Snapshot(), id, path, grid, recorded, now);
        CommitDoes(site, old(Snapshot()), Snapshot(), id, path, grid, recorded, now);
      }
    }

    // BEGIN to COMMIT or ROLLBACK.
    method CommitHour(id: string, path: string, grid: Grid, recorded: Digest, rows: seq<RegionRow>, restored: map<string, string>,
                      now: int, databaseFails: bool) returns (r: Result<nat, ProcessError>)
      requires site.Sound()
      modifies this`inventory, this`hourly, this`latest, this`dirty
      ensures r.Ok? <==> rows != [] && !databaseFails
      ensures r.Err? ==> Snapshot() == old(Snapshot())
      ensures r.Ok? ==>
        && r.value == |rows|
        && inventory == MarkProcessed(MarkRestored(old(inventory), restored), id, path, recorded, grid.hour, now)
        && hourly == old(hourly)[grid.hour := rows]
        && latest == GridLatest.Merged(old(latest), GridLatest.LatestBatch(site.geography, id, grid, now))
        && dirty == old(dirty) + HourLeftBehind(old(inventory), id, grid.hour) - {grid.hour}
    {
      if rows == [] {
        return Err(NothingToStore);
      }
      var savedInventory, savedHourly, savedLatest := inventory, hourly, latest;
      hourly := hourly[grid.hour := rows];
      var _ := UpsertGridLatest(GridLatest.LatestBatch(site.geography, id, grid, now));
      inventory := MarkRestored(inventory, restored);
      inventory := MarkProcessed(inventory, id, path, recorded, grid.hour, now);
      if databaseFails {
        inventory, hourly, latest := savedInventory, savedHourly, savedLatest;
        return Err(DatabaseFailed);
      }
      dirty := dirty + HourLeftBehind(savedInventory, id, grid.hour) - {grid.hour};
      r := Ok(|rows|);
    }

    // Downloads the granule's file unless a trusted one is there, and hashes it.
    method FetchGranule(id: string, destination: string, pendingChecksum: Option<Digest>, fetch: map<string, Bytes>)
      returns (r: Result<Digest, ProcessError>, downloaded: bool)
      modifies this`files
      ensures match Fetched(old(files), id, destination, pendingChecksum, fetch) {
          case None => r == Err(DownloadFailed) && !downloaded && files == old(files) - {destination}
          case Some(content) =>
            && files == old(files)[destination := content]
            && downloaded == !Trusted(old(files), destination, pendingChecksum)
            && r == if pendingChecksum.Some? && Sha256(content) != pendingChecksum.value then Err(ChecksumMismatch) else Ok(Sha256(content))
        }
    {
      downloaded := false;
      if destination in files && pendingChecksum.Some? && Sha256(files[destination]) != pendingChecksum.value {
        files := files - {destination};
      }
      if destination !in files {
        if id !in fetch {
          return Err(DownloadFailed), downloaded;
        }
        files := files[destination := fetch[id]];
        downloaded := true;
      }
      assert files == old(files)[destination := files[destination]];
      var checksum := Sha256(files[destination]);
      if pendingChecksum.Some? && checksum != pendingChecksum.value {
        return Err(ChecksumMismatch), downloaded;
      }
      r := Ok(checksum);
    }

    // The guarded part of the pending loop.
    method ProcessOne(id: string, fetch: map<string, Bytes>, now: int, databaseFails: bool)
      returns (r: Result<nat, ProcessError>, downloaded: bool, ghost step: Step)
      requires Valid() && id in inventory && IsPending(inventory[id])
      modifies this
      ensures Valid()
      ensures r.Err? ==> Snapshot() == old(Snapshot()).(files := files)
      ensures r.Ok? ==> StepFor(site, step, id, now, false) && Next(site, old(Snapshot()), step, Snapshot())
      ensures inventory.Keys == old(inventory).Keys
      ensures forall other :: other in inventory && other != id ==>
        inventory[other] == old(inventory)[other].(localPath := inventory[other].localPath)
      ensures r.Ok? ==>
        && inventory[id].processing == Done && inventory[id].hour.Some?
        && inventory[id].hour.value !in dirty
      ensures !databaseFails && Processable(site, old(inventory), id, old(files), fetch) ==> r.Ok?
    {
      var destination := site.rawPath(id);
      var checksum, fetched := FetchGranule(id, destination, inventory[id].checksum, fetch);
      downloaded, step := fetched, Fail(id);
      GranuleRefinement.FilesDoNotMatter(site, old(Snapshot()), Snapshot());
      if checksum.Err? {
        return Err(checksum.error), downloaded, step;
      }
      ghost var before := Snapshot();
      r := ProcessDownloaded(id, destination, Some(checksum.value), fetch, now, databaseFails);
      if r.Ok? {
        ghost var grid := site.extract(before.files[destination]).value;
        step := Process(id, destination, grid, before.files[destination], now);
        CommitIgnoresFiles(site, old(Snapshot()), before, Snapshot(), id, destination, grid, Sha256(before.files[destination]), now);
        AfterCommit(site, before, Snapshot(), id, destination, grid, before.files[destination], now);
      } else {
        GranuleRefinement.FilesDoNotMatter(site, before, Snapshot());
      }
    }

    // One granule of the pending loop, with its failure handling; a file that cannot be deleted
    // stays, and the failure is recorded all the same.
    method Attempt(id: string, fetch: map<string, Bytes>, now: int, databaseFails: bool, stuck: set<string>)
      returns (r: Result<nat, ProcessError>, downloaded: bool, ghost step: Step)
      requires Valid() && id in inventory && IsPending(inventory[id])
      modifies this
      ensures Valid()
      ensures StepFor(site, step, id, now, r.Err?) && Next(site, old(Snapshot()), step, Snapshot())
      ensures inventory.Keys == old(inventory).Keys
      ensures inventory[id].processing == if r.Ok? then Done else Failed
      ensures r.Ok? ==> inventory[id].hour.Some? && inventory[id].hour.value !in dirty
      ensures !databaseFails && Processable(site, old(inventory), id, old(files), fetch) ==> r.Ok?
      ensures r.Err? ==> site.rawPath(id) !in files || site.rawPath(id) in stuck
      ensures forall other :: other in inventory && other != id ==>
        inventory[other] == old(inventory)[other].(localPath := inventory[other].localPath)
    {
      r, downloaded, step := ProcessOne(id, fetch, now, databaseFails);
      if r.Err? {
        step := Fail(id);
        GranuleRefinement.FailKeepsConsistent(site, Snapshot(), id);
        ghost var failed := Snapshot().(inventory := MarkFailed(inventory, id));
        if site.rawPath(id) !in stuck {
          files := files - {site.rawPath(id)};
        }
        inventory := MarkFailed(inventory, id);
        GranuleRefinement.FilesDoNotMatter(site, failed, Snapshot());
      }
    }

    // The machine step one attempt takes.
    static ghost predicate StepFor(site: Site, step: Step, id: string, now: int, failed: bool)
    {
      if failed then step == Fail(id)
      else step.Process? && step.id == id && step.path == site.rawPath(id) && step.now == now
    }

    static lemma CommitIgnoresFiles(site: Site, s: State, s': State, t: State, id: string, path: string, grid: Grid,
                                    recorded: Digest, now: int)
      requires site.Sound() && s' == s.(files := s'.files)
      requires Commits(site, s', t, id, path, grid, recorded, now)
      ensures Commits(site, s, t, id, path, grid, recorded, now)
    {
      var order, rows, restored :| CommitsWith(site, s', t, id, path, grid, recorded, now, order, rows, restored);
      assert CommitsWith(site, s, t, id, path, grid, recorded, now, order, rows, restored);
    }

    static lemma AfterCommit(site: Site, s: State, t: State, id: string, path: string, grid: Grid, content: Bytes, now: int)
      requires Consistent(site, s) && id in s.inventory
      requires site.extract(content) == Some(grid)
      requires Commits(site, s, t, id, path, grid, Sha256(content), now)
      ensures Consistent(site, t) && grid.hour !in t.dirty
      ensures t.inventory.Keys == s.inventory.Keys
      ensures t.inventory[id].processing == Done && t.inventory[id].hour == Some(grid.hour)
      ensures forall other :: other in t.inventory && other != id ==>
        t.inventory[other] == s.inventory[other].(localPath := t.inventory[other].localPath)
    {
      GranuleRefinement.CommitKeepsConsistent(site, s, t, id, path, grid, content, now);
      var order, rows, restored :| CommitsWith(site, s, t, id, path, grid, Sha256(content), now, order, rows, restored);
      GranuleRefinement.CommitRows(site, s, t, id, path, grid, content, now, order, rows, restored);
    }

    // The first i pending granules are settled and the other rows are as they were.
    static ghost predicate Settled(first: Inventory, inventory: Inventory, pending: seq<string>, i: nat, failures: seq<string>)
    {
      && i <= |pending|
      && inventory.Keys == first.Keys
      && (forall id :: id in failures ==> id in pending[..i])
      && (forall id :: id in pending[..i] ==>
            id in inventory && inventory[id].processing == if id in failures then Failed else Done)
      && forall id :: id in inventory && id !in pending[..i] ==>
           inventory[id] == first[id].(localPath := inventory[id].localPath)
    }

    static lemma SettleOne(first: Inventory, before: Inventory, after: Inventory, pending: seq<string>, i: nat,
                           failures: seq<string>, failed: bool)
      requires Distinct(pending) && i < |pending| && pending[i] in after
      requires Settled(first, before, pending, i, failures)
      requires after.Keys == before.Keys
      requires after[pending[i]].processing == if failed then Failed else Done
      requires forall other :: other in after && other != pending[i] ==>
        after[other] == before[other].(localPath := after[other].localPath)
      ensures Settled(first, after, pending, i + 1, if failed then failures + [pending[i]] else failures)
    {
      var failures' := if failed then failures + [pending[i]] else failures;
      assert pending[..i + 1] == pending[..i] + [pending[i]];
      assert pending[i] !in pending[..i] && pending[i] !in failures;
      forall id | id in pending[..i + 1]
        ensures id in after && after[id].processing == if id in failures' then Failed else Done
      {
        if id != pending[i] {
          assert id in pending[..i] && id in before;
          assert after[id] == before[id].(localPath := after[id].localPath);
        }
      }
      forall id | id in after && id !in pending[..i + 1]
        ensures after[id] == first[id].(localPath := after[id].localPath)
      {
        assert id !in pending[..i] && id != pending[i];
      }
    }

    // states[k] is the warehouse as the k-th granule finds it; of the first i, none fails that
    // could be processed there.
    static ghost predicate FailsOnlyWhenBlocked(site: Site, states: seq<State>, pending: seq<string>, i: nat, failures: seq<string>,
                                                fetch: map<string, Bytes>, databaseFailsFor: set<string>)
      requires site.Sound()
    {
      && i <= |pending| && |states| == i + 1
      && forall k :: 0 <= k < i && pending[k] in failures && pending[k] !in databaseFailsFor ==>
           pending[k] in states[k].inventory && !Processable(site, states[k].inventory, pending[k], states[k].files, fetch)
    }

    // The loop as a run of the machine: from states[k] one step, a commit of the k-th granule
    // or its recorded failure, leads to states[k + 1].
    static ghost predicate Ran(site: Site, states: seq<State>, steps: seq<Step>, pending: seq<string>, i: nat,
                               failures: seq<string>, now: int)
      requires site.Sound()
    {
      && i <= |pending| && |states| == i + 1 && |steps| == i
      && forall k :: 0 <= k < i ==> StepTaken(site, states, steps, pending, k, failures, now)
    }

    static ghost predicate StepTaken(site: Site, states: seq<State>, steps: seq<Step>, pending: seq<string>, k: nat,
                                     failures: seq<string>, now: int)
      requires site.Sound() && k < |steps| && k < |pending| && |states| == |steps| + 1
    {
      StepFor(site, steps[k], pending[k], now, pending[k] in failures) && Next(site, states[k], steps[k], states[k + 1])
    }

    static lemma RanOneMore(site: Site, states: seq<State>, steps: seq<Step>, pending: seq<string>, i: nat,
                            failures: seq<string>, now: int, step: Step, after: State, failed: bool)
      requires site.Sound() && Distinct(pending) && i < |pending|
      requires Ran(site, states, steps, pending, i, failures, now)
      requires forall id :: id in failures ==> id in pending[..i]
      requires StepFor(site, step, pending[i], now, failed) && Next(site, states[i], step, after)
      ensures Ran(site, states + [after], steps + [step], pending, i + 1,
                  if failed then failures + [pending[i]] else failures, now)
    {
      var failures' := if failed then failures + [pending[i]] else failures;
      assert pending[i] !in failures by {
        assert pending[i] !in pending[..i];
      }
      forall k | 0 <= k < i
        ensures StepTaken(site, states + [after], steps + [step], pending, k, failures', now)
      {
        assert StepTaken(site, states, steps, pending, k, failures, now);
        assert pending[k] != pending[i];
        assert pending[k] in failures' <==> pending[k] in failures;
      }
      assert (states + [after])[i] == states[i] && (states + [after])[i + 1] == after;
      assert (steps + [step])[i] == step;
    }

    /** Works through the pending granules in order, each attempt one step of the machine.
        Every granule ends processed or failed, none fails that could be processed when its
        turn came, and the tables stay consistent. */
    method ProcessPending(pending: seq<string>, fetch: map<string, Bytes>, now: int, databaseFailsFor: set<string>,
                          stuck: set<string>)
      returns (downloaded: nat, processed: nat, aggregatesWritten: nat, failures: seq<string>, ghost states: seq<State>,
               ghost steps: seq<Step>)
      requires Valid() && Distinct(pending)
      requires forall id :: id in pending ==> id in inventory && IsPending(inventory[id])
      modifies this
      ensures Valid()
      ensures processed + |failures| == |pending| && downloaded <= |pending|
      ensures Settled(old(inventory), inventory, pending, |pending|, failures)
      ensures FailsOnlyWhenBlocked(site, states, pending, |pending|, failures, fetch, databaseFailsFor)
      ensures Ran(site, states, steps, pending, |pending|, failures, now)
      ensures states[0] == old(Snapshot()) && states[|pending|] == Snapshot()
    {
      states, steps := [Snapshot()], [];
      downloaded, processed, aggregatesWritten, failures := 0, 0, 0, [];
      ghost var start := Snapshot();
      for i := 0 to |pending|
        invariant Valid()
        invariant processed + |failures| == i && downloaded <= i
        invariant Progress(site, start, Snapshot(), states, steps, pending, i, failures, fetch, now, databaseFailsFor)
      {
        var written, fetched, step := TakeTurn(pending, i, failures, fetch, now, databaseFailsFor, stuck, start, states, steps);
        if fetched {
          downloaded := downloaded + 1;
        }
        if written.Ok? {
          aggregatesWritten, processed := aggregatesWritten + written.value, processed + 1;
        } else {
          failures := failures + [pending[i]];
        }
        states, steps := states + [Snapshot()], steps + [step];
      }
    }

    // One turn of the loop.
    method TakeTurn(pending: seq<string>, i: nat, ghost failures: seq<string>, fetch: map<string, Bytes>, now: int,
                    databaseFailsFor: set<string>, stuck: set<string>, ghost start: State, ghost states: seq<State>, ghost steps: seq<Step>)
      returns (written: Result<nat, ProcessError>, fetched: bool, ghost step: Step)
      requires Valid() && Distinct(pending) && i < |pending|
      requires forall id :: id in pending ==> id in start.inventory && IsPending(start.inventory[id])
      requires Progress(site, start, Snapshot(), states, steps, pending, i, failures, fetch, now, databaseFailsFor)
      modifies this
      ensures Valid()
      ensures Progress(site, start, Snapshot(), states + [Snapshot()], steps + [step], pending, i + 1,
                       if written.Err? then failures + [pending[i]] else failures, fetch, now, databaseFailsFor)
    {
      ghost var before := Snapshot();
      StillPending(start.inventory, inventory, pending, i, failures);
      written, fetched, step := Attempt(pending[i], fetch, now, pending[i] in databaseFailsFor, stuck);
      ProgressOneMore(site, start, before, Snapshot(), states, steps, pending, i, failures, fetch, now, databaseFailsFor, step,
                      written.Err?);
    }

    static lemma BlockedOneMore(site: Site, states: seq<State>, pending: seq<string>, i: nat, failures: seq<string>,
                                fetch: map<string, Bytes>, databaseFailsFor: set<string>, after: State, failed: bool)
      requires site.Sound() && Distinct(pending) && i < |pending|
      requires FailsOnlyWhenBlocked(site, states, pending, i, failures, fetch, databaseFailsFor)
      requires pending[i] in states[i].inventory
      requires failed && pending[i] !in databaseFailsFor ==>
        !Processable(site, states[i].inventory, pending[i], states[i].files, fetch)
      requires forall id :: id in failures ==> id in pending[..i]
      ensures FailsOnlyWhenBlocked(site, states + [after], pending, i + 1, if failed then failures + [pending[i]] else failures,
                                   fetch, databaseFailsFor)
    {
      assert pending[i] !in failures by {
        assert pending[i] !in pending[..i];
      }
    }

    // The three together, at the state the loop has reached.
    static ghost predicate Progress(site: Site, start: State, s: State, states: seq<State>, steps: seq<Step>,
                                    pending: seq<string>, i: nat, failures: seq<string>, fetch: map<string, Bytes>, now: int,
                                    databaseFailsFor: set<string>)
      requires site.Sound()
    {
      && Settled(start.inventory, s.inventory, pending, i, failures)
      && FailsOnlyWhenBlocked(site, states, pending, i, failures, fetch, databaseFailsFor)
      && Ran(site, states, steps, pending, i, failures, now)
      && states[0] == start && states[i] == s
    }

    static lemma ProgressOneMore(site: Site, start: State, s: State, t: State, states: seq<State>, steps: seq<Step>,
                                 pending: seq<string>, i: nat, failures: seq<string>, fetch: map<string, Bytes>, now: int,
                                 databaseFailsFor: set<string>, step: Step, failed: bool)
      requires site.Sound() && Distinct(pending) && i < |pending|
      requires Progress(site, start, s, states, steps, pending, i, failures, fetch, now, databaseFailsFor)
      requires StepFor(site, step, pending[i], now, failed) && Next(site, s, step, t)
      requires pending[i] in s.inventory && t.inventory.Keys == s.inventory.Keys
      requires t.inventory[pending[i]].processing == if failed then Failed else Done
      requires forall other :: other in t.inventory && other != pending[i] ==>
        t.inventory[other] == s.inventory[other].(localPath := t.inventory[other].localPath)
      requires failed && pending[i] !in databaseFailsFor ==> !Processable(site, s.inventory, pending[i], s.files, fetch)
      ensures Progress(site, start, t, states + [t], steps + [step], pending, i + 1,
                       if failed then failures + [pending[i]] else failures, fetch, now, databaseFailsFor)
    {
      SettleOne(start.inventory, s.inventory, t.inventory, pending, i, failures, failed);
      RanOneMore(site, states, steps, pending, i, failures, now, step, t, failed);
      BlockedOneMore(site, states, pending, i, failures, fetch, databaseFailsFor, t, failed);
    }

    static lemma StillPending(first: Inventory, inventory: Inventory, pending: seq<string>, i: nat, failures: seq<string>)
      requires Distinct(pending) && i < |pending|
      requires Settled(first, inventory, pending, i, failures)
      requires forall id :: id in pending ==> id in first && IsPending(first[id])
      ensures pending[i] in inventory && IsPending(inventory[pending[i]])
    {
      assert pending[i] in pending;
      assert pending[i] !in pending[..i];
    }
  }
}
