/** The newest observation per grid cell: which cells a granule contributes, and what the
    last-writer-wins table holds after any history (ingestion/tempo/aggregate.py,
    storage/duckdb/granules.py). */
module GridLatest {
  import opened Prelude
  import opened RegionWeights
  import opened RegionHour

  type At = (nat, nat)

  datatype Observation = Observation(time: int, ingestedAt: int, granuleId: string, no2: Option<real>, flag: int)

  type Batch = map<At, Observation>

  predicate Beats(excluded: Observation, stored: Observation)
  {
    excluded.time > stored.time || (excluded.time == stored.time && excluded.ingestedAt > stored.ingestedAt)
  }

  // ---------- What a granule contributes ----------

  predicate IsCountry(g: Geography, k: nat)
    requires k < |g.weights.regionIds|
  {
    g.weights.regionIds[k] in g.meta && g.meta[g.weights.regionIds[k]].regionType == "country"
  }

  function Places(cells: seq<Cell>): set<At>
  {
    set c | c in cells :: (c.row, c.col)
  }

  // The mask of supported cells, marked region by region.
  function SupportedUpTo(g: Geography, n: nat): set<At>
    requires g.weights.Sliceable() && n <= |g.weights.regionIds|
  {
    if n == 0 then {}
    else SupportedUpTo(g, n - 1) + if IsCountry(g, n - 1) then Places(g.weights.Slice(n - 1)) else {}
  }

  function Supported(g: Geography): set<At>
    requires g.weights.Sliceable()
  {
    SupportedUpTo(g, |g.weights.regionIds|)
  }

  lemma {:induction false} SupportedUpToIs(g: Geography, n: nat, at: At)
    requires g.weights.Sliceable() && n <= |g.weights.regionIds|
    ensures at in SupportedUpTo(g, n) <==> exists k :: 0 <= k < n && IsCountry(g, k) && at in Places(g.weights.Slice(k))
  {
    if n > 0 {
      SupportedUpToIs(g, n - 1, at);
    }
  }

  /** A granule contributes the cells it observed, by value or by flag, that some weight row
      of a country names. */
  function LatestBatch(g: Geography, granuleId: string, grid: Grid, ingestedAt: int): Batch
    requires g.weights.Sliceable()
  {
    map at | at in Supported(g) && (at in grid.no2 || grid.Flag(at) != FILL_FLAG) ::
      Observation(grid.time, ingestedAt, granuleId, if at in grid.no2 then Some(grid.no2[at]) else None, grid.Flag(at))
  }

  /** What is contributed for a cell is what the grid shows there; -9999 is the fill flag. */
  ghost predicate IsShown(o: Observation, granuleId: string, grid: Grid, ingestedAt: int, at: At)
  {
    && o.time == grid.time && o.ingestedAt == ingestedAt && o.granuleId == granuleId
    && (if at in grid.no2 then o.no2 == Some(grid.no2[at]) else o.no2.None?)
    && (if at in grid.quality then o.flag == grid.quality[at] else o.flag == -9999)
  }

  ghost predicate NamedByCountry(table: seq<WeightRow>, g: Geography, at: At)
  {
    exists x :: x in table && (x.cell.row, x.cell.col) == at && x.region in g.meta && g.meta[x.region].regionType == "country"
  }

  lemma SupportedIsNamed(table: seq<WeightRow>, g: Geography, at: At)
    requires FromTable(table, true) == Ok(g.weights) && g.weights.Sliceable()
    requires at in Supported(g)
    ensures NamedByCountry(table, g, at)
  {
    SlicesAreFilters(table);
    SupportedUpToIs(g, |g.weights.regionIds|, at);
    var k :| 0 <= k < |g.weights.regionIds| && IsCountry(g, k) && at in Places(g.weights.Slice(k));
    var region := g.weights.regionIds[k];
    var c :| c in RowsOf(table, region) && (c.row, c.col) == at;
    RowsOfNames(table, region, c);
    var x :| x in table && x.region == region && x.cell == c;
  }

  lemma NamedIsSupported(table: seq<WeightRow>, g: Geography, at: At)
    requires FromTable(table, true) == Ok(g.weights) && g.weights.Sliceable()
    requires NamedByCountry(table, g, at)
    ensures at in Supported(g)
  {
    SlicesAreFilters(table);
    SupportedUpToIs(g, |g.weights.regionIds|, at);
    var x :| x in table && (x.cell.row, x.cell.col) == at && x.region in g.meta && g.meta[x.region].regionType == "country";
    RowsOfNames(table, x.region, x.cell);
    assert x.region in g.weights.regionIds;
    var k :| 0 <= k < |g.weights.regionIds| && g.weights.regionIds[k] == x.region;
    assert IsCountry(g, k) && x.cell in g.weights.Slice(k);
    assert at in Places(g.weights.Slice(k));
  }

  /** A cell is contributed exactly when the grid shows a value or a flag there and some weight
      row of a country names it, and then as the grid shows it. */
  lemma ContributedExactlyWhen(table: seq<WeightRow>, g: Geography, granuleId: string, grid: Grid, ingestedAt: int, at: At)
    requires FromTable(table, true) == Ok(g.weights)
    ensures g.weights.Sliceable()
    ensures at in LatestBatch(g, granuleId, grid, ingestedAt) <==>
      && (at in grid.no2 || (at in grid.quality && grid.quality[at] != -9999))
      && NamedByCountry(table, g, at)
    ensures at in LatestBatch(g, granuleId, grid, ingestedAt) ==>
      IsShown(LatestBatch(g, granuleId, grid, ingestedAt)[at], granuleId, grid, ingestedAt, at)
  {
    SlicesAreFilters(table);
    if at in Supported(g) {
      SupportedIsNamed(table, g, at);
    }
    if NamedByCountry(table, g, at) {
      NamedIsSupported(table, g, at);
    }
  }

  lemma {:induction false} RowsOfNames(table: seq<WeightRow>, region: string, c: Cell)
    ensures c in RowsOf(table, region) <==> exists x :: x in table && x.region == region && x.cell == c
  {
    if table != [] {
      RowsOfNames(table[1..], region, c);
      assert forall x :: x in table <==> x == table[0] || x in table[1..];
    }
  }

  // ---------- The table ----------

  lemma MergeOneMore(stored: Batch, done: Batch, at: At, x: Observation)
    requires at !in done
    ensures var before := Merged(stored, done);
      Merged(stored, done[at := x]) == if at !in before || Beats(x, before[at]) then before[at := x] else before
  {
  }

  /** What one upsert leaves in a cell: the new observation where none was stored or the
      stored one is of an earlier time, or of the same time and an earlier ingestion. */
  ghost predicate IsUpserted(before: Batch, batch: Batch, after: Batch)
  {
    && (forall at :: at in after <==> at in before || at in batch)
    && forall at :: at in after ==>
         if IsTaken(before, batch, at) then after[at] == batch[at] else at in before && after[at] == before[at]
  }

  ghost predicate IsTaken(before: Batch, batch: Batch, at: At)
  {
    && at in batch
    && (at !in before || batch[at].time > before[at].time
        || (batch[at].time == before[at].time && batch[at].ingestedAt > before[at].ingestedAt))
  }

  lemma MergedIsUpserted(stored: Batch, batch: Batch)
    ensures IsUpserted(stored, batch, Merged(stored, batch))
  {
  }

  function Winner(stored: Batch, batch: Batch, at: At): Observation
    requires at in batch
  {
    if at !in stored || Beats(batch[at], stored[at]) then batch[at] else stored[at]
  }

  function Merged(stored: Batch, batch: Batch): Batch
  {
    map at | at in stored.Keys + batch.Keys :: if at in batch then Winner(stored, batch, at) else stored[at]
  }

  function AfterAll(history: seq<Batch>): Batch
  {
    if history == [] then map[] else Merged(AfterAll(history[..|history| - 1]), history[|history| - 1])
  }

  /** Arrival k holds the cell's greatest time and, among those of that time, its greatest
      ingestion time, and no arrival before it has both. */
  ghost predicate IsFirstMaximum(history: seq<Batch>, at: At, k: nat)
  {
    && k < |history| && at in history[k]
    && (forall i :: 0 <= i < |history| && at in history[i] ==> history[i][at].time <= history[k][at].time)
    && (forall i :: 0 <= i < |history| && at in history[i] && history[i][at].time == history[k][at].time ==>
          history[i][at].ingestedAt <= history[k][at].ingestedAt)
    && forall i :: 0 <= i < k && at in history[i] ==>
         history[i][at].time != history[k][at].time || history[i][at].ingestedAt != history[k][at].ingestedAt
  }

  /** Each cell stores the first-arriving lexicographic maximum of (time, ingestion). */
  lemma {:induction false} StoredIsFirstMaximum(history: seq<Batch>, at: At) returns (k: nat)
    ensures at in AfterAll(history) <==> exists i :: 0 <= i < |history| && at in history[i]
    ensures at in AfterAll(history) ==> IsFirstMaximum(history, at, k) && AfterAll(history)[at] == history[k][at]
    decreases |history|
  {
    k := 0;
    if history != [] {
      var n := |history| - 1;
      var init := history[..n];
      assert forall i :: 0 <= i < n ==> init[i] == history[i];
      k := StoredIsFirstMaximum(init, at);
      if at in history[n] && (at !in AfterAll(init) || Beats(history[n][at], AfterAll(init)[at])) {
        k := n;
      }
    }
  }

  lemma FirstMaximumUnique(history: seq<Batch>, at: At, j: nat, k: nat)
    requires IsFirstMaximum(history, at, j) && IsFirstMaximum(history, at, k)
    ensures j == k
  {
  }

  /** A tie keeps the earlier arrival, so replaying any part of the history changes nothing. */
  lemma {:induction false} ReplayIsNoOp(history: seq<Batch>, i: nat)
    requires i < |history|
    ensures AfterAll(history + [history[i]]) == AfterAll(history)
  {
    var again := history + [history[i]];
    assert again[..|history|] == history;
    forall at | at in history[i]
      ensures at in AfterAll(history) && !Beats(history[i][at], AfterAll(history)[at])
    {
      var k := StoredIsFirstMaximum(history, at);
    }
  }
}
