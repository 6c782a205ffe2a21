/** The granule inventory, the files it names and the hour aggregates it backs, as
    values and step relations (ingestion/tempo/sync.py, storage/duckdb/granules.py). */
module GranuleInventory {
  import opened Prelude
  import opened RegionHour
  import GridLatest

  type Bytes = string

  // SHA-256, taken to be injective.
  datatype Digest = Sha256(content: Bytes)

  // Done stands for downloaded, validated and processed in the respective column.
  datatype Status = Pending | Failed | Done

  datatype Row = Row(
    download: Status, validation: Status, processing: Status,
    localPath: Option<string>, checksum: Option<Digest>, hour: Option<int>,
    processedAt: Option<int>,
    revision: Option<int>, url: Option<string>)

  type Inventory = map<string, Row>

  /** dirty is bookkeeping of the model: hours whose aggregate was computed before one
      of their granules left the hour. The warehouse stores nothing of the kind. */
  datatype State = State(
    inventory: Inventory, hourly: map<int, seq<RegionRow>>, files: map<string, Bytes>, dirty: set<int>,
    latest: GridLatest.Batch)

  /** What stays fixed while the pipeline runs: the registered geography, how a file is
      read, where a granule's file belongs, and which paths lie under the raw root. */
  datatype Site = Site(
    geography: Geography,
    extract: Bytes -> Option<Grid>,
    rawPath: string -> string,
    insideRaw: string -> bool)
  {
    ghost predicate Sound()
    {
      geography.weights.Sliceable() && NonNegativeAreas(geography.weights.cells)
    }
  }

  // ---------- The invariant ----------

  ghost predicate RowOk(site: Site, row: Row)
  {
    && row.download == row.validation == row.processing
    && (row.processing == Done <==> row.checksum.Some?)
    && (row.processing == Done <==> row.hour.Some?)
    && (row.processing == Done <==> row.processedAt.Some?)
    && (row.localPath.Some? ==> row.processing == Done)
    && (row.processing == Done ==>
          var grid := site.extract(row.checksum.value.content);
          grid.Some? && grid.value.hour == row.hour.value)
  }

  ghost predicate RowsOk(site: Site, inventory: Inventory)
  {
    forall id :: id in inventory ==> RowOk(site, inventory[id])
  }

  function ProcessedIn(inventory: Inventory, hour: int): set<string>
  {
    set id | id in inventory && inventory[id].processing == Done && inventory[id].hour == Some(hour)
  }

  // The row names a file content from which a grid can be read.
  ghost predicate Readable(site: Site, inventory: Inventory, id: string)
  {
    id in inventory && inventory[id].checksum.Some? && site.extract(inventory[id].checksum.value.content).Some?
  }

  /** The scan a processed row stands for: the content its checksum names. */
  ghost function ScanOf(site: Site, inventory: Inventory, id: string): Scan
    requires Readable(site, inventory, id)
  {
    Scan(id, site.extract(inventory[id].checksum.value.content).value)
  }

  ghost function ScansOf(site: Site, inventory: Inventory, ids: seq<string>): (scans: seq<Scan>)
    requires forall id :: id in ids ==> Readable(site, inventory, id)
    ensures |scans| == |ids|
    ensures forall i :: 0 <= i < |ids| ==> scans[i] == ScanOf(site, inventory, ids[i])
  {
    seq(|ids|, i requires 0 <= i < |ids| => ScanOf(site, inventory, ids[i]))
  }

  /** The stored hour is what pooling every processed granule of the hour from scratch
      gives, whatever order they are listed in; with none, nothing is stored. */
  ghost predicate HourOk(site: Site, s: State, hour: int)
    requires site.Sound() && RowsOk(site, s.inventory)
  {
    var members := ProcessedIn(s.inventory, hour);
    if members == {} then hour !in s.hourly
    else
      && hour in s.hourly
      && forall ids :: IsListing(ids, members) ==>
           PoolHour(ScansOf(site, s.inventory, ids), site.geography) == Ok(s.hourly[hour])
  }

  ghost predicate Consistent(site: Site, s: State)
  {
    && site.Sound()
    && RowsOk(site, s.inventory)
    && forall hour :: hour !in s.dirty ==> HourOk(site, s, hour)
  }

  // ---------- Discovery ----------

  datatype Discovered = Discovered(id: string, revision: Option<int>, url: Option<string>)

  ghost predicate DistinctIds(batch: seq<Discovered>)
  {
    forall i, j :: 0 <= i < j < |batch| ==> batch[i].id != batch[j].id
  }

  predicate Newer(source: Option<int>, target: Option<int>)
  {
    source.Some? && (target.None? || source.value > target.value)
  }

  predicate Older(source: Option<int>, target: Option<int>)
  {
    target.Some? && (source.None? || source.value < target.value)
  }

  function Coalesce<T>(a: Option<T>, b: Option<T>): Option<T>
  {
    if a.Some? then a else b
  }

  function MergeRevision(source: Option<int>, target: Option<int>): Option<int>
  {
    if Older(source, target) then target
    else if Newer(source, target) then source
    else Coalesce(source, target)
  }

  predicate Overtaken(row: Row, d: Discovered)
  {
    row.processing == Done && Newer(d.revision, row.revision)
  }

  function Reset(row: Row): Row
  {
    Row(Pending, Pending, Pending, None, None, None, None, row.revision, row.url)
  }

  function Refresh(row: Row, d: Discovered): Row
  {
    row.(revision := MergeRevision(d.revision, row.revision),
         url := if Older(d.revision, row.revision) then row.url else Coalesce(d.url, row.url))
  }

  function FreshRow(d: Discovered): Row
  {
    Row(Pending, Pending, Pending, None, None, None, None, d.revision, d.url)
  }

  // The UPDATE over the rows selected for requeueing.
  function ResetAll(inventory: Inventory, ids: set<string>): Inventory
  {
    map id | id in inventory :: if id in ids then Reset(inventory[id]) else inventory[id]
  }

  function MergeOne(inventory: Inventory, d: Discovered): Inventory
  {
    inventory[d.id := if d.id in inventory then Refresh(inventory[d.id], d) else FreshRow(d)]
  }

  function MergeAll(inventory: Inventory, batch: seq<Discovered>): Inventory
  {
    if batch == [] then inventory
    else MergeOne(MergeAll(inventory, batch[..|batch| - 1]), batch[|batch| - 1])
  }

  function Requeued(inventory: Inventory, batch: seq<Discovered>): (ids: set<string>)
    ensures ids <= inventory.Keys
  {
    set d | d in batch && d.id in inventory && Overtaken(inventory[d.id], d) :: d.id
  }

  // Files dropped with a requeued row: its default path and the path it recorded.
  function StalePaths(site: Site, inventory: Inventory, ids: set<string>): set<string>
    requires ids <= inventory.Keys
  {
    (set id | id in ids && site.insideRaw(site.rawPath(id)) :: site.rawPath(id))
    + (set id | id in ids && inventory[id].localPath.Some? && site.insideRaw(inventory[id].localPath.value)
        :: inventory[id].localPath.value)
  }

  ghost function HoursLeft(inventory: Inventory, ids: set<string>): set<int>
    requires ids <= inventory.Keys
  {
    set id | id in ids && inventory[id].hour.Some? :: inventory[id].hour.value
  }

  ghost function AfterDiscovery(site: Site, s: State, batch: seq<Discovered>): State
  {
    var ids := Requeued(s.inventory, batch);
    State(
      MergeAll(ResetAll(s.inventory, ids), batch),
      s.hourly,
      s.files - StalePaths(site, s.inventory, ids),
      s.dirty + HoursLeft(s.inventory, ids),
      s.latest)
  }

  // A discovery that stops before its MERGE: the rows are reset, some stale files are gone.
  ghost function AfterRequeue(s: State, batch: seq<Discovered>, gone: set<string>): State
  {
    var ids := Requeued(s.inventory, batch);
    State(ResetAll(s.inventory, ids), s.hourly, s.files - gone, s.dirty + HoursLeft(s.inventory, ids), s.latest)
  }

  lemma {:induction false} MergeAllAt(inventory: Inventory, batch: seq<Discovered>, id: string)
    requires DistinctIds(batch)
    ensures forall i :: 0 <= i < |batch| && batch[i].id == id ==>
      && id in MergeAll(inventory, batch)
      && MergeAll(inventory, batch)[id] ==
         if id in inventory then Refresh(inventory[id], batch[i]) else FreshRow(batch[i])
    ensures (forall i :: 0 <= i < |batch| ==> batch[i].id != id) ==>
      && (id in MergeAll(inventory, batch) <==> id in inventory)
      && (id in inventory ==> MergeAll(inventory, batch)[id] == inventory[id])
  {
    if batch != [] {
      var init := batch[..|batch| - 1];
      MergeAllAt(inventory, init, id);
      assert forall i :: 0 <= i < |init| ==> init[i] == batch[i];
    }
  }

  lemma RequeuedExactly(inventory: Inventory, batch: seq<Discovered>, id: string)
    ensures id in Requeued(inventory, batch) <==>
      exists i :: 0 <= i < |batch| && batch[i].id == id && id in inventory && Overtaken(inventory[id], batch[i])
  {
    if i :| 0 <= i < |batch| && batch[i].id == id && id in inventory && Overtaken(inventory[id], batch[i]) {
      assert batch[i] in batch;
    }
    if id in Requeued(inventory, batch) {
      var e :| e in batch && e.id in inventory && Overtaken(inventory[e.id], e) && e.id == id;
      var j :| 0 <= j < |batch| && batch[j] == e;
    }
  }

  /** What one discovery does to one granule, in a single formula. */
  lemma DiscoveryAt(site: Site, s: State, batch: seq<Discovered>, i: nat)
    requires DistinctIds(batch) && i < |batch|
    ensures var d := batch[i];
      var after := AfterDiscovery(site, s, batch).inventory;
      && d.id in after
      && (d.id !in s.inventory ==> after[d.id] == FreshRow(d))
      && (d.id in s.inventory ==>
            var row := s.inventory[d.id];
            after[d.id] == Refresh(if Overtaken(row, d) then Reset(row) else row, d))
  {
    MergeAllAt(ResetAll(s.inventory, Requeued(s.inventory, batch)), batch, batch[i].id);
    RequeuedExactly(s.inventory, batch, batch[i].id);
  }

  lemma DiscoveryElsewhere(site: Site, s: State, batch: seq<Discovered>, id: string)
    requires DistinctIds(batch)
    requires forall i :: 0 <= i < |batch| ==> batch[i].id != id
    ensures var after := AfterDiscovery(site, s, batch).inventory;
      (id in after <==> id in s.inventory) && (id in after ==> after[id] == s.inventory[id])
  {
    MergeAllAt(ResetAll(s.inventory, Requeued(s.inventory, batch)), batch, id);
    RequeuedExactly(s.inventory, batch, id);
  }

  /** Every row after a discovery kept its processing columns, was reset, or is new. */
  lemma DiscoveryRow(site: Site, s: State, batch: seq<Discovered>, id: string)
    requires DistinctIds(batch)
    requires id in AfterDiscovery(site, s, batch).inventory
    ensures var row := AfterDiscovery(site, s, batch).inventory[id];
      if id in s.inventory && id !in Requeued(s.inventory, batch)
      then row == s.inventory[id].(revision := row.revision, url := row.url)
      else row == Row(Pending, Pending, Pending, None, None, None, None, row.revision, row.url)
  {
    RequeuedExactly(s.inventory, batch, id);
    if i :| 0 <= i < |batch| && batch[i].id == id {
      DiscoveryAt(site, s, batch, i);
    } else {
      DiscoveryElsewhere(site, s, batch, id);
    }
  }

  lemma DiscoveryKeepsRows(site: Site, s: State, batch: seq<Discovered>)
    requires DistinctIds(batch)
    ensures s.inventory.Keys <= AfterDiscovery(site, s, batch).inventory.Keys
  {
    forall id | id in s.inventory
      ensures id in AfterDiscovery(site, s, batch).inventory
    {
      if i :| 0 <= i < |batch| && batch[i].id == id {
        DiscoveryAt(site, s, batch, i);
      } else {
        DiscoveryElsewhere(site, s, batch, id);
      }
    }
  }

  // ---------- What a discovery does, in terms of revisions ----------

  /** A processed row whose granule is seen at a revision when it has none or a smaller one. */
  ghost predicate SupersededBy(row: Row, d: Discovered)
  {
    && row.processing == Done
    && d.revision.Some?
    && (row.revision.Some? ==> row.revision.value < d.revision.value)
  }

  ghost predicate IsSuperseded(inventory: Inventory, batch: seq<Discovered>, id: string)
  {
    id in inventory && exists i :: 0 <= i < |batch| && batch[i].id == id && SupersededBy(inventory[id], batch[i])
  }

  /** A file under the raw root on the default or the recorded path of such a granule. */
  ghost predicate IsStale(site: Site, inventory: Inventory, batch: seq<Discovered>, path: string)
  {
    && site.insideRaw(path)
    && exists id :: IsSuperseded(inventory, batch, id) && (path == site.rawPath(id) || inventory[id].localPath == Some(path))
  }

  ghost predicate IsBlank(row: Row)
  {
    && row.download == row.validation == row.processing == Pending
    && row.localPath.None? && row.checksum.None? && row.hour.None? && row.processedAt.None?
  }

  ghost predicate SameProgress(a: Row, b: Row)
  {
    && a.download == b.download && a.validation == b.validation && a.processing == b.processing
    && a.localPath == b.localPath && a.checksum == b.checksum && a.hour == b.hour && a.processedAt == b.processedAt
  }

  /** The row of a granule that was seen: its progress is lost exactly when it is superseded,
      its revision never falls, and an older or missing revision does not bring its address. */
  ghost predicate RowSeen(was: Row, d: Discovered, row: Row)
  {
    var older := was.revision.Some? && (d.revision.Some? ==> d.revision.value < was.revision.value);
    && (if SupersededBy(was, d) then IsBlank(row) else SameProgress(row, was))
    && (older ==> row.revision == was.revision && row.url == was.url)
    && (!older ==> row.revision == d.revision && row.url == if d.url.Some? then d.url else was.url)
  }

  ghost predicate EntrySeen(before: Inventory, d: Discovered, after: Inventory)
  {
    && d.id in after
    && (d.id in before ==> RowSeen(before[d.id], d, after[d.id]))
    && (d.id !in before ==> IsBlank(after[d.id]) && after[d.id].revision == d.revision && after[d.id].url == d.url)
  }

  ghost predicate IsSeen(batch: seq<Discovered>, id: string)
  {
    exists i :: 0 <= i < |batch| && batch[i].id == id
  }

  ghost predicate DirtyAfter(before: State, batch: seq<Discovered>, after: State)
  {
    forall hour :: hour in after.dirty <==>
      hour in before.dirty || exists id :: IsSuperseded(before.inventory, batch, id) && before.inventory[id].hour == Some(hour)
  }

  ghost predicate RowsDiscovered(before: Inventory, batch: seq<Discovered>, after: Inventory)
  {
    && (forall i :: 0 <= i < |batch| ==> EntrySeen(before, batch[i], after))
    && (forall id :: id in before && !IsSeen(batch, id) ==> id in after && after[id] == before[id])
    && (forall id :: id in after ==> id in before || IsSeen(batch, id))
  }

  /** A discovery that goes through. */
  ghost predicate DiscoveryOutcome(site: Site, s: State, batch: seq<Discovered>, t: State)
  {
    && RowsDiscovered(s.inventory, batch, t.inventory)
    && t.hourly == s.hourly && t.latest == s.latest
    && (forall path :: path in t.files <==> path in s.files && !IsStale(site, s.inventory, batch, path))
    && (forall path :: path in t.files ==> t.files[path] == s.files[path])
    && DirtyAfter(s, batch, t)
  }

  /** A discovery that stops between its reset and its MERGE. */
  ghost predicate InterruptedOutcome(s: State, batch: seq<Discovered>, gone: set<string>, t: State)
  {
    && t.inventory.Keys == s.inventory.Keys
    && (forall id :: id in t.inventory ==>
          var row := t.inventory[id];
          row == if IsSuperseded(s.inventory, batch, id)
                 then Row(Pending, Pending, Pending, None, None, None, None, s.inventory[id].revision, s.inventory[id].url)
                 else s.inventory[id])
    && t.hourly == s.hourly && t.latest == s.latest && t.files == s.files - gone
    && DirtyAfter(s, batch, t)
  }

  lemma RequeuedAreSuperseded(inventory: Inventory, batch: seq<Discovered>)
    ensures forall id :: id in Requeued(inventory, batch) <==> IsSuperseded(inventory, batch, id)
  {
    forall id ensures id in Requeued(inventory, batch) <==> IsSuperseded(inventory, batch, id) {
      RequeuedExactly(inventory, batch, id);
      if id in inventory {
        forall d: Discovered ensures Overtaken(inventory[id], d) <==> SupersededBy(inventory[id], d) {
        }
      }
    }
  }

  lemma StalePathsAreStale(site: Site, inventory: Inventory, batch: seq<Discovered>)
    ensures forall path :: path in StalePaths(site, inventory, Requeued(inventory, batch)) <==> IsStale(site, inventory, batch, path)
  {
    RequeuedAreSuperseded(inventory, batch);
  }

  lemma DirtyHours(s: State, batch: seq<Discovered>, t: State)
    requires t.dirty == s.dirty + HoursLeft(s.inventory, Requeued(s.inventory, batch))
    ensures DirtyAfter(s, batch, t)
  {
    RequeuedAreSuperseded(s.inventory, batch);
  }

  lemma DiscoveredRows(site: Site, s: State, batch: seq<Discovered>)
    requires DistinctIds(batch)
    ensures RowsDiscovered(s.inventory, batch, AfterDiscovery(site, s, batch).inventory)
  {
    var after := AfterDiscovery(site, s, batch).inventory;
    forall i | 0 <= i < |batch| ensures EntrySeen(s.inventory, batch[i], after) {
      DiscoveryAt(site, s, batch, i);
    }
    forall id | !IsSeen(batch, id)
      ensures (id in after <==> id in s.inventory) && (id in after ==> after[id] == s.inventory[id])
    {
      DiscoveryElsewhere(site, s, batch, id);
    }
  }

  lemma DiscoveryDoes(site: Site, s: State, batch: seq<Discovered>)
    requires DistinctIds(batch)
    ensures DiscoveryOutcome(site, s, batch, AfterDiscovery(site, s, batch))
  {
    DiscoveredRows(site, s, batch);
    StalePathsAreStale(site, s.inventory, batch);
    DirtyHours(s, batch, AfterDiscovery(site, s, batch));
  }

  lemma InterruptedDoes(s: State, batch: seq<Discovered>, gone: set<string>)
    ensures InterruptedOutcome(s, batch, gone, AfterRequeue(s, batch, gone))
  {
    RequeuedAreSuperseded(s.inventory, batch);
    DirtyHours(s, batch, AfterRequeue(s, batch, gone));
  }

  /** A processed row stops being processed exactly when it is superseded; with no such row
      every file stays, and so do all progress, checksums and hours. */
  lemma ProcessedUnlessSuperseded(site: Site, s: State, batch: seq<Discovered>, t: State)
    requires DistinctIds(batch) && DiscoveryOutcome(site, s, batch, t)
    ensures forall id :: id in s.inventory ==> id in t.inventory
    ensures forall id :: id in s.inventory && s.inventory[id].processing == Done ==>
      (t.inventory[id].processing != Done <==> IsSuperseded(s.inventory, batch, id))
    ensures (forall id :: !IsSuperseded(s.inventory, batch, id)) ==>
      && t.files == s.files && t.dirty == s.dirty
      && forall id :: id in s.inventory ==> SameProgress(t.inventory[id], s.inventory[id])
  {
    forall id | id in s.inventory
      ensures id in t.inventory
      ensures if IsSuperseded(s.inventory, batch, id) then IsBlank(t.inventory[id])
              else SameProgress(t.inventory[id], s.inventory[id])
    {
      if i :| 0 <= i < |batch| && batch[i].id == id {
        assert EntrySeen(s.inventory, batch[i], t.inventory);
        assert forall j :: 0 <= j < |batch| && batch[j].id == id ==> j == i;
      } else {
        assert !IsSeen(batch, id);
      }
    }
    if forall id :: !IsSuperseded(s.inventory, batch, id) {
      assert forall path :: !IsStale(site, s.inventory, batch, path);
      assert t.files == s.files;
      assert forall hour :: hour in t.dirty <==> hour in s.dirty;
    }
  }

  // ---------- Committing a processed granule ----------

  function MarkRestored(inventory: Inventory, restored: map<string, string>): Inventory
  {
    map id | id in inventory ::
      if id in restored then inventory[id].(localPath := Some(restored[id])) else inventory[id]
  }

  // The final UPDATE: nothing happens when the granule has no row.
  function MarkProcessed(inventory: Inventory, id: string, path: string, recorded: Digest, hour: int, now: int): Inventory
  {
    if id !in inventory then inventory
    else
      var row := inventory[id];
      inventory[id := Row(Done, Done, Done, Some(path), Some(recorded), Some(hour), Some(now), row.revision, row.url)]
  }

  // Re-processing a granule that had landed in another hour leaves that hour behind.
  ghost function HourLeftBehind(inventory: Inventory, id: string, hour: int): set<int>
  {
    if id in inventory && inventory[id].hour.Some? && inventory[id].hour.value != hour
    then {inventory[id].hour.value} else {}
  }

  function Siblings(inventory: Inventory, id: string, hour: int): set<string>
  {
    ProcessedIn(inventory, hour) - {id}
  }

  /** A committed processing step: the granule's own scan is pooled with the scans its
      processed siblings stand for, and the hour, the granule and the restored paths
      change together. */
  ghost predicate Commits(site: Site, s: State, t: State, id: string, path: string, grid: Grid, recorded: Digest, now: int)
    requires site.Sound()
  {
    exists order: seq<string>, rows: seq<RegionRow>, restored: map<string, string> ::
      CommitsWith(site, s, t, id, path, grid, recorded, now, order, rows, restored)
  }

  ghost predicate CommitsWith(site: Site, s: State, t: State, id: string, path: string, grid: Grid,
                              recorded: Digest, now: int,
                              order: seq<string>, rows: seq<RegionRow>, restored: map<string, string>)
    requires site.Sound()
  {
    && IsListing(order, Siblings(s.inventory, id, grid.hour))
    && (forall other :: other in order ==> Readable(site, s.inventory, other))
    && rows != []
    && PoolHour([Scan(id, grid)] + ScansOf(site, s.inventory, order), site.geography) == Ok(rows)
    && restored.Keys <= Siblings(s.inventory, id, grid.hour)
    && t.inventory == MarkProcessed(MarkRestored(s.inventory, restored), id, path, recorded, grid.hour, now)
    && t.hourly == s.hourly[grid.hour := rows]
    && t.dirty == s.dirty + HourLeftBehind(s.inventory, id, grid.hour) - {grid.hour}
    && t.latest == GridLatest.Merged(s.latest, GridLatest.LatestBatch(site.geography, id, grid, now))
  }

  // ---------- What a commit does, column by column ----------

  // The other processed granules of the hour, each once.
  ghost predicate AreSiblings(order: seq<string>, inventory: Inventory, id: string, hour: int)
  {
    && Distinct(order)
    && forall other :: other in order <==>
         && other != id && other in inventory
         && inventory[other].processing == Done && inventory[other].hour == Some(hour)
  }

  ghost predicate IsProcessed(row: Row, was: Row, path: string, recorded: Digest, hour: int, now: int)
  {
    && row.download == row.validation == row.processing == Done
    && row.localPath == Some(path) && row.checksum == Some(recorded) && row.hour == Some(hour) && row.processedAt == Some(now)
    && row.revision == was.revision && row.url == was.url
  }

  /** The granule's row tells of the commit; of the other rows only processed ones of the hour
      change, and of those only the path. */
  ghost predicate RowsCommitted(before: Inventory, after: Inventory, id: string, path: string, recorded: Digest, hour: int, now: int)
  {
    && after.Keys == before.Keys
    && (id in before ==> IsProcessed(after[id], before[id], path, recorded, hour, now))
    && forall other :: other in before && other != id ==>
         if before[other].processing == Done && before[other].hour == Some(hour)
         then after[other] == before[other].(localPath := after[other].localPath)
         else after[other] == before[other]
  }

  /** The hour is pooled from the granule and its siblings and stored alone; the cells the
      granule shows are merged into the latest ones; and the hour it leaves, if any, is stale. */
  ghost predicate CommitOutcome(site: Site, s: State, t: State, id: string, path: string, grid: Grid, recorded: Digest, now: int)
    requires site.Sound()
  {
    && RowsCommitted(s.inventory, t.inventory, id, path, recorded, grid.hour, now)
    && grid.hour in t.hourly
    && (forall hour :: hour != grid.hour ==> (hour in t.hourly <==> hour in s.hourly))
    && (forall hour :: hour != grid.hour && hour in s.hourly ==> t.hourly[hour] == s.hourly[hour])
    && GridLatest.IsUpserted(s.latest, GridLatest.LatestBatch(site.geography, id, grid, now), t.latest)
    && (forall hour :: hour in t.dirty <==>
          hour != grid.hour && (hour in s.dirty || (id in s.inventory && s.inventory[id].hour == Some(hour))))
    && exists order: seq<string> ::
         && AreSiblings(order, s.inventory, id, grid.hour)
         && (forall other :: other in order ==> Readable(site, s.inventory, other))
         && HourReports(Ok(t.hourly[grid.hour]), [Scan(id, grid)] + ScansOf(site, s.inventory, order), site.geography)
  }

  lemma CommittedRows(before: Inventory, restored: map<string, string>, id: string, path: string, recorded: Digest, hour: int, now: int)
    requires restored.Keys <= Siblings(before, id, hour)
    ensures RowsCommitted(before, MarkProcessed(MarkRestored(before, restored), id, path, recorded, hour, now), id, path, recorded,
                          hour, now)
  {
    var after := MarkProcessed(MarkRestored(before, restored), id, path, recorded, hour, now);
    assert after.Keys == before.Keys;
    assert forall other :: other in restored ==> other in Siblings(before, id, hour);
  }

  lemma CommitDoes(site: Site, s: State, t: State, id: string, path: string, grid: Grid, recorded: Digest, now: int)
    requires site.Sound() && Commits(site, s, t, id, path, grid, recorded, now)
    ensures CommitOutcome(site, s, t, id, path, grid, recorded, now)
  {
    var order, rows, restored :| CommitsWith(site, s, t, id, path, grid, recorded, now, order, rows, restored);
    CommittedRows(s.inventory, restored, id, path, recorded, grid.hour, now);
    GridLatest.MergedIsUpserted(s.latest, GridLatest.LatestBatch(site.geography, id, grid, now));
    PoolHourReports([Scan(id, grid)] + ScansOf(site, s.inventory, order), site.geography);
    assert AreSiblings(order, s.inventory, id, grid.hour);
    assert t.hourly[grid.hour] == rows;
  }

  // ---------- Failing, pruning and outside changes ----------

  function MarkFailed(inventory: Inventory, id: string): Inventory
  {
    if id !in inventory then inventory
    else inventory[id := inventory[id].(download := Failed, validation := Failed, processing := Failed)]
  }

  predicate IsPending(row: Row)
  {
    row.download != Done || row.validation != Done || row.processing != Done
  }

  predicate Prunable(row: Row, cutoff: int)
  {
    row.processing == Done && row.processedAt.Some? && row.processedAt.value < cutoff && row.localPath.Some?
  }

  /** A processed row with a file, processed more than the retention, in days of 24 hours
      counted in microseconds, before now. */
  ghost predicate IsExpired(row: Row, now: int, retentionDays: int)
  {
    && row.processing == Done && row.localPath.Some? && row.processedAt.Some?
    && now - row.processedAt.value > retentionDays * 24 * 3600 * 1_000_000
  }

  function ForgetPaths(inventory: Inventory, ids: set<string>): Inventory
  {
    map id | id in inventory :: if id in ids then inventory[id].(localPath := None) else inventory[id]
  }

  // ---------- Runs ----------

  datatype Step =
    | Discover(batch: seq<Discovered>)
    | Requeue(batch: seq<Discovered>, gone: set<string>)  // a discovery that stops before its MERGE
    | Process(id: string, path: string, grid: Grid, content: Bytes, now: int)
    | Fail(id: string)
    | Prune(ids: set<string>)
    | FilesChange  // downloads, deletions and crashes, which leave the tables alone

  /** The steps of the pipeline. A granule is processed or failed only while pending,
      and the digest recorded for it is that of the file its grid was read from. */
  ghost predicate Next(site: Site, s: State, step: Step, t: State)
    requires site.Sound()
  {
    match step
    case Discover(batch) =>
      DistinctIds(batch) && t == AfterDiscovery(site, s, batch)
    case Requeue(batch, gone) =>
      && DistinctIds(batch) && gone <= StalePaths(site, s.inventory, Requeued(s.inventory, batch))
      && t == AfterRequeue(s, batch, gone)
    case Process(id, path, grid, content, now) =>
      && id in s.inventory && IsPending(s.inventory[id])
      && site.extract(content) == Some(grid)
      && Commits(site, s, t, id, path, grid, Sha256(content), now)
    case Fail(id) =>
      && id in s.inventory && IsPending(s.inventory[id])
      && t == s.(inventory := MarkFailed(s.inventory, id), files := t.files)
    case Prune(ids) =>
      t == s.(inventory := ForgetPaths(s.inventory, ids), files := t.files)
    case FilesChange =>
      t == s.(files := t.files)
  }
}
