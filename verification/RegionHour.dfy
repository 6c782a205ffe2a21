/** Exact pooling of every scan of one hour into regions (ingestion/tempo/aggregate.py). */
module RegionHour {
  import opened Prelude
  import opened RegionWeights
  import WeightedStats

  type Sample = WeightedStats.Sample

  // no2 holds the finite cells only; a cell absent from quality carries the fill flag.
  datatype Grid = Grid(
    hour: int, time: int,
    rows: nat, cols: nat,
    qualityRows: nat, qualityCols: nat,
    onReferenceGrid: bool,
    no2: map<(nat, nat), real>,
    quality: map<(nat, nat), int>)
  {
    function Flag(at: (nat, nat)): int { if at in quality then quality[at] else FILL_FLAG }
  }

  const FILL_FLAG := -9999

  datatype Scan = Scan(granuleId: string, grid: Grid)

  datatype RegionMeta = RegionMeta(countryCode: string, regionType: string)

  /** Everything an hour's aggregation reads besides the scans themselves. */
  datatype Geography = Geography(
    weights: Weights,
    meta: map<string, RegionMeta>,
    pinnedGrid: bool,
    geometryVersion: string,
    acceptedFlags: set<int>)

  datatype RegionRow = RegionRow(
    hour: int, region: string, meta: RegionMeta,
    stats: WeightedStats.Stats,
    validPixels: nat, totalPixels: nat,
    validArea: real, totalArea: real, coverage: real,
    qualityAccepted: bool, sourceGranules: nat, geometryVersion: string)

  datatype PoolError =
    | NoGranules | MixedHours | ShapeMismatch | OffReferenceGrid | WeightsExceedGrid | UnknownRegion

  // ---------- What one region's row is ----------

  function Observed(flags: set<int>, grid: Grid, cells: seq<Cell>): seq<Sample>
  {
    if cells == [] then []
    else
      var at := (cells[0].row, cells[0].col);
      (if grid.Flag(at) in flags && at in grid.no2
       then [WeightedStats.Sample(grid.no2[at], cells[0].area)] else [])
      + Observed(flags, grid, cells[1..])
  }

  function ObservedBy(flags: set<int>, cells: seq<Cell>): Scan -> seq<Sample>
  {
    (scan: Scan) => Observed(flags, scan.grid, cells)
  }

  function Pooled(flags: set<int>, scans: seq<Scan>, cells: seq<Cell>): seq<Sample>
  {
    FlatMap(scans, ObservedBy(flags, cells))
  }

  function AreaOf(): Cell -> real { (c: Cell) => c.area }

  function TotalArea(cells: seq<Cell>, scanCount: nat): real
  {
    Sum(cells, AreaOf()) * scanCount as real
  }

  function Fraction(part: real, whole: real): real
  {
    if whole != 0.0 then part / whole else 0.0
  }

  // The row built from a region's accumulated totals.
  function Assemble(g: Geography, region: string, cells: seq<Cell>, hour: int, scanCount: nat,
                    stats: WeightedStats.Stats, validPixels: nat, validArea: real): RegionRow
    requires region in g.meta
  {
    var totalArea := TotalArea(cells, scanCount);
    RegionRow(
      hour, region, g.meta[region], stats,
      validPixels, |cells| * scanCount,
      validArea, totalArea, Fraction(validArea, totalArea),
      validPixels > 0, scanCount, g.geometryVersion)
  }

  function RowFor(scans: seq<Scan>, g: Geography, region: string, cells: seq<Cell>): RegionRow
    requires scans != [] && region in g.meta
  {
    var pooled := Pooled(g.acceptedFlags, scans, cells);
    Assemble(g, region, cells, scans[0].grid.hour, |scans|,
      WeightedStats.Compute(pooled), |pooled|, Sum(pooled, WeightedStats.WeightOf()))
  }

  // ---------- The whole hour ----------

  predicate FitsGrid(cells: seq<Cell>, grid: Grid)
  {
    forall c | c in cells :: c.row < grid.rows && c.col < grid.cols
  }

  function ScanError(scan: Scan, g: Geography): Option<PoolError>
  {
    var grid := scan.grid;
    if grid.rows != grid.qualityRows || grid.cols != grid.qualityCols then Some(ShapeMismatch)
    else if g.pinnedGrid && !grid.onReferenceGrid then Some(OffReferenceGrid)
    else if !FitsGrid(g.weights.cells, grid) then Some(WeightsExceedGrid)
    else None
  }

  function FirstScanError(scans: seq<Scan>, g: Geography): Option<PoolError>
  {
    if scans == [] then None
    else if ScanError(scans[0], g).Some? then ScanError(scans[0], g)
    else FirstScanError(scans[1..], g)
  }

  ghost predicate OneHour(scans: seq<Scan>)
  {
    forall a, b :: a in scans && b in scans ==> a.grid.hour == b.grid.hour
  }

  ghost predicate AllRegionsKnown(g: Geography)
  {
    forall r :: r in g.weights.regionIds ==> r in g.meta
  }

  ghost function RegionRows(scans: seq<Scan>, g: Geography): (rows: seq<RegionRow>)
    requires scans != [] && g.weights.Sliceable() && AllRegionsKnown(g)
    ensures |rows| == |g.weights.regionIds|
    ensures forall k :: 0 <= k < |rows| ==>
      rows[k] == RowFor(scans, g, g.weights.regionIds[k], g.weights.Slice(k))
  {
    seq(|g.weights.regionIds|, k requires 0 <= k < |g.weights.regionIds| =>
      RowFor(scans, g, g.weights.regionIds[k], g.weights.Slice(k)))
  }

  /** The hour computed in one step, one row per region of the weights. */
  ghost function PoolHour(scans: seq<Scan>, g: Geography): Result<seq<RegionRow>, PoolError>
    requires g.weights.Sliceable()
  {
    if scans == [] then Err(NoGranules)
    else if !OneHour(scans) then Err(MixedHours)
    else if FirstScanError(scans, g).Some? then Err(FirstScanError(scans, g).value)
    else if !AllRegionsKnown(g) then Err(UnknownRegion)
    else Ok(RegionRows(scans, g))
  }

  // ---------- What an hour reports, without the pooling functions ----------

  /** A cell counts in a scan when NO2 is finite there and its quality flag, the
      fill flag where there is none, is among the accepted ones. */
  ghost predicate CountsIn(flags: set<int>, grid: Grid, cell: Cell)
  {
    var at := (cell.row, cell.col);
    at in grid.no2 && (if at in grid.quality then grid.quality[at] in flags else -9999 in flags)
  }

  /** The positions of the cells that count, each once, in order. */
  ghost predicate AreChosen(flags: set<int>, grid: Grid, cells: seq<Cell>, chosen: seq<nat>)
  {
    && (forall k, l :: 0 <= k < l < |chosen| ==> chosen[k] < chosen[l])
    && (forall j: nat :: j in chosen <==> j < |cells| && CountsIn(flags, grid, cells[j]))
  }

  ghost predicate IsPairOf(sample: Sample, grid: Grid, cell: Cell)
  {
    (cell.row, cell.col) in grid.no2 && sample.value == grid.no2[(cell.row, cell.col)] && sample.weight == cell.area
  }

  ghost predicate ArePairsAt(samples: seq<Sample>, grid: Grid, cells: seq<Cell>, chosen: seq<nat>)
  {
    && |samples| == |chosen|
    && forall k :: 0 <= k < |chosen| ==> chosen[k] < |cells| && IsPairOf(samples[k], grid, cells[chosen[k]])
  }

  /** The pairs of value and area of the cells that count. */
  ghost predicate IsReading(samples: seq<Sample>, flags: set<int>, grid: Grid, cells: seq<Cell>)
  {
    exists chosen: seq<nat> :: AreChosen(flags, grid, cells, chosen) && ArePairsAt(samples, grid, cells, chosen)
  }

  ghost predicate AreReadings(parts: seq<seq<Sample>>, flags: set<int>, scans: seq<Scan>, cells: seq<Cell>)
  {
    && |parts| == |scans|
    && forall i :: 0 <= i < |scans| ==> IsReading(parts[i], flags, scans[i].grid, cells)
  }

  ghost function CellArea(cells: seq<Cell>): real { Sum(cells, (c: Cell) => c.area) }

  ghost predicate IsProduct(product: real, a: real, b: real) { product == a * b }

  ghost predicate ReportsAreas(row: RegionRow, pooled: seq<Sample>, cells: seq<Cell>, scanCount: nat)
  {
    && row.validArea == WeightedStats.TotalWeight(pooled)
    && IsProduct(row.totalArea, CellArea(cells), scanCount as real)
    && (row.totalArea != 0.0 ==> IsProduct(row.validArea, row.coverage, row.totalArea))
    && (row.totalArea == 0.0 ==> row.coverage == 0.0)
  }

  ghost predicate ReportsCounts(row: RegionRow, pooled: seq<Sample>, cells: seq<Cell>, scanCount: nat)
  {
    && row.validPixels == |pooled| && row.totalPixels == |cells| * scanCount
    && (row.qualityAccepted <==> pooled != [])
    && row.sourceGranules == scanCount
  }

  /** What a row says of the pairs pooled for it. */
  ghost predicate Reports(row: RegionRow, pooled: seq<Sample>, scans: seq<Scan>, g: Geography, region: string,
                          cells: seq<Cell>)
    requires scans != []
  {
    && row.hour == scans[0].grid.hour && row.region == region
    && region in g.meta && row.meta == g.meta[region] && row.geometryVersion == g.geometryVersion
    && (NonNegativeAreas(cells) ==> WeightedStats.Summarizes(row.stats, pooled))
    && ReportsCounts(row, pooled, cells, |scans|)
    && ReportsAreas(row, pooled, cells, |scans|)
  }

  /** The row of a region reports the readings of every scan, one after the other. */
  ghost predicate RowReports(row: RegionRow, scans: seq<Scan>, g: Geography, region: string, cells: seq<Cell>)
    requires scans != []
  {
    exists parts: seq<seq<Sample>> ::
      && AreReadings(parts, g.acceptedFlags, scans, cells)
      && Reports(row, Flatten(parts), scans, g, region, cells)
  }

  ghost predicate SameShape(grid: Grid) { grid.rows == grid.qualityRows && grid.cols == grid.qualityCols }

  ghost predicate Placed(grid: Grid, g: Geography) { g.pinnedGrid ==> grid.onReferenceGrid }

  ghost predicate Reaches(grid: Grid, g: Geography)
  {
    forall c :: c in g.weights.cells ==> c.row < grid.rows && c.col < grid.cols
  }

  ghost predicate Usable(scan: Scan, g: Geography)
  {
    SameShape(scan.grid) && Placed(scan.grid, g) && Reaches(scan.grid, g)
  }

  /** The problem named is the first in the order shape, reference grid, bounds. */
  ghost predicate HasProblem(scan: Scan, g: Geography, e: PoolError)
  {
    match e
    case ShapeMismatch => !SameShape(scan.grid)
    case OffReferenceGrid => SameShape(scan.grid) && !Placed(scan.grid, g)
    case WeightsExceedGrid => SameShape(scan.grid) && Placed(scan.grid, g) && !Reaches(scan.grid, g)
    case _ => false
  }

  ghost predicate FirstProblem(scans: seq<Scan>, g: Geography, e: PoolError)
  {
    exists i :: 0 <= i < |scans| && HasProblem(scans[i], g, e) && forall j :: 0 <= j < i ==> Usable(scans[j], g)
  }

  ghost predicate AllUsable(scans: seq<Scan>, g: Geography)
  {
    forall i :: 0 <= i < |scans| ==> Usable(scans[i], g)
  }

  /** The answer for an hour: rows for every region when the scans are of one hour
      and usable and every region is known, and otherwise what went wrong first. */
  ghost predicate HourReports(r: Result<seq<RegionRow>, PoolError>, scans: seq<Scan>, g: Geography)
    requires g.weights.Sliceable()
  {
    var oneHour := forall i, j :: 0 <= i < j < |scans| ==> scans[i].grid.hour == scans[j].grid.hour;
    var known := forall k :: 0 <= k < |g.weights.regionIds| ==> g.weights.regionIds[k] in g.meta;
    match r
    case Ok(rows) =>
      && scans != [] && oneHour && AllUsable(scans, g) && known
      && |rows| == |g.weights.regionIds|
      && forall k :: 0 <= k < |rows| ==> RowReports(rows[k], scans, g, g.weights.regionIds[k], g.weights.Slice(k))
    case Err(e) =>
      if scans == [] then e == NoGranules
      else if !oneHour then e == MixedHours
      else FirstProblem(scans, g, e) || (AllUsable(scans, g) && !known && e == UnknownRegion)
  }

  lemma {:induction false} ObservedSnoc(flags: set<int>, grid: Grid, front: seq<Cell>, last: Cell)
    ensures Observed(flags, grid, front + [last]) == Observed(flags, grid, front) + Observed(flags, grid, [last])
  {
    if front == [] {
      assert [last] == front + [last];
    } else {
      ObservedSnoc(flags, grid, front[1..], last);
      assert (front + [last])[0] == front[0] && (front + [last])[1..] == front[1..] + [last];
    }
  }

  lemma {:induction false} ObservedIsReading(flags: set<int>, grid: Grid, cells: seq<Cell>) returns (chosen: seq<nat>)
    ensures AreChosen(flags, grid, cells, chosen)
    ensures ArePairsAt(Observed(flags, grid, cells), grid, cells, chosen)
  {
    if cells == [] {
      chosen := [];
    } else {
      var front, last := cells[..|cells| - 1], cells[|cells| - 1];
      var before := ObservedIsReading(flags, grid, front);
      ObservedSnoc(flags, grid, front, last);
      assert cells == front + [last];
      chosen := before + if CountsIn(flags, grid, last) then [|front|] else [];
      ChosenSnoc(flags, grid, front, last, before);
      PairsSnoc(flags, grid, front, last, before);
    }
  }

  lemma ChosenSnoc(flags: set<int>, grid: Grid, front: seq<Cell>, last: Cell, before: seq<nat>)
    requires AreChosen(flags, grid, front, before)
    ensures AreChosen(flags, grid, front + [last], before + if CountsIn(flags, grid, last) then [|front|] else [])
  {
    var cells, chosen := front + [last], before + if CountsIn(flags, grid, last) then [|front|] else [];
    forall j: nat ensures j in chosen <==> j < |cells| && CountsIn(flags, grid, cells[j]) {
      assert j in chosen <==> j in before || (CountsIn(flags, grid, last) && j == |front|);
    }
    forall k, l | 0 <= k < l < |chosen| ensures chosen[k] < chosen[l] {
      assert chosen[k] == before[k] && before[k] in before;
    }
  }

  lemma {:induction false} PairsSnoc(flags: set<int>, grid: Grid, front: seq<Cell>, last: Cell, before: seq<nat>)
    requires ArePairsAt(Observed(flags, grid, front), grid, front, before)
    ensures ArePairsAt(Observed(flags, grid, front) + Observed(flags, grid, [last]), grid, front + [last],
              before + if CountsIn(flags, grid, last) then [|front|] else [])
  {
    ObservedOne(flags, grid, last);
  }

  lemma {:induction false} ObservedOne(flags: set<int>, grid: Grid, cell: Cell)
    ensures var one := Observed(flags, grid, [cell]);
      if CountsIn(flags, grid, cell) then |one| == 1 && IsPairOf(one[0], grid, cell) else one == []
  {
    var at := (cell.row, cell.col);
    assert [cell][1..] == [] && Observed(flags, grid, []) == [];
    assert CountsIn(flags, grid, cell) <==> grid.Flag(at) in flags && at in grid.no2;
    assert Observed(flags, grid, [cell]) ==
      (if grid.Flag(at) in flags && at in grid.no2 then [WeightedStats.Sample(grid.no2[at], cell.area)] else []) + [];
  }

  lemma PooledIsReadings(flags: set<int>, scans: seq<Scan>, cells: seq<Cell>) returns (parts: seq<seq<Sample>>)
    ensures AreReadings(parts, flags, scans, cells)
    ensures Pooled(flags, scans, cells) == Flatten(parts)
  {
    var byScan := ObservedBy(flags, cells);
    parts := seq(|scans|, i requires 0 <= i < |scans| => byScan(scans[i]));
    FlatMapFlattens(scans, byScan, parts);
    forall i | 0 <= i < |scans| ensures IsReading(parts[i], flags, scans[i].grid, cells) {
      var chosen := ObservedIsReading(flags, scans[i].grid, cells);
    }
  }

  lemma {:induction false} AssembleReports(row: RegionRow, pooled: seq<Sample>, scans: seq<Scan>, g: Geography, region: string,
                        cells: seq<Cell>)
    requires scans != [] && region in g.meta
    requires row == Assemble(g, region, cells, scans[0].grid.hour, |scans|,
      WeightedStats.Compute(pooled), |pooled|, Sum(pooled, WeightedStats.WeightOf()))
    requires NonNegativeAreas(cells) ==> WeightedStats.NonNegative(pooled)
    ensures Reports(row, pooled, scans, g, region, cells)
  {
    AssembledAreas(row, pooled, cells, |scans|);
    if NonNegativeAreas(cells) {
      WeightedStats.ComputeSummarizes(pooled);
    }
  }

  lemma {:induction false} AssembledAreas(row: RegionRow, pooled: seq<Sample>, cells: seq<Cell>, scanCount: nat)
    requires row.validArea == Sum(pooled, WeightedStats.WeightOf())
    requires row.totalArea == TotalArea(cells, scanCount)
    requires row.coverage == Fraction(row.validArea, row.totalArea)
    ensures ReportsAreas(row, pooled, cells, scanCount)
  {
    SumAgree(pooled, WeightedStats.WeightOf(), (x: Sample) => x.weight);
    TotalAreaIsProduct(cells, scanCount);
    FractionTimes(row.validArea, row.totalArea);
  }

  lemma TotalAreaIsProduct(cells: seq<Cell>, scanCount: nat)
    ensures IsProduct(TotalArea(cells, scanCount), CellArea(cells), scanCount as real)
  {
    SumAgree(cells, AreaOf(), (c: Cell) => c.area);
  }

  lemma FractionTimes(part: real, whole: real)
    ensures whole != 0.0 ==> IsProduct(part, Fraction(part, whole), whole)
    ensures whole == 0.0 ==> Fraction(part, whole) == 0.0
  {
  }

  lemma RowForReports(scans: seq<Scan>, g: Geography, region: string, cells: seq<Cell>)
    requires scans != [] && region in g.meta
    ensures RowReports(RowFor(scans, g, region, cells), scans, g, region, cells)
  {
    var parts := PooledIsReadings(g.acceptedFlags, scans, cells);
    if NonNegativeAreas(cells) {
      PooledNonNegative(g.acceptedFlags, scans, cells);
    }
    AssembleReports(RowFor(scans, g, region, cells), Flatten(parts), scans, g, region, cells);
  }

  lemma ScanErrorIsProblem(scan: Scan, g: Geography)
    ensures ScanError(scan, g).None? <==> Usable(scan, g)
    ensures ScanError(scan, g).Some? ==> HasProblem(scan, g, ScanError(scan, g).value)
  {
  }

  lemma {:induction false} FirstScanErrorIsFirst(scans: seq<Scan>, g: Geography)
    ensures FirstScanError(scans, g).None? <==> AllUsable(scans, g)
    ensures FirstScanError(scans, g).Some? ==> FirstProblem(scans, g, FirstScanError(scans, g).value)
  {
    if scans != [] {
      ScanErrorIsProblem(scans[0], g);
      FirstScanErrorIsFirst(scans[1..], g);
      if Usable(scans[0], g) {
        LaterProblem(scans, g);
      }
    }
  }

  lemma LaterProblem(scans: seq<Scan>, g: Geography)
    requires scans != [] && Usable(scans[0], g)
    ensures AllUsable(scans, g) <==> AllUsable(scans[1..], g)
    ensures forall e :: FirstProblem(scans[1..], g, e) ==> FirstProblem(scans, g, e)
  {
    if AllUsable(scans[1..], g) {
      forall i | 0 <= i < |scans| ensures Usable(scans[i], g) {
        assert i > 0 ==> scans[i] == scans[1..][i - 1];
      }
    }
    if AllUsable(scans, g) {
      forall i | 0 <= i < |scans[1..]| ensures Usable(scans[1..][i], g) {
        assert scans[1..][i] == scans[i + 1];
      }
    }
    forall e | FirstProblem(scans[1..], g, e) ensures FirstProblem(scans, g, e) {
      var i :| 0 <= i < |scans[1..]| && HasProblem(scans[1..][i], g, e)
        && forall j :: 0 <= j < i ==> Usable(scans[1..][j], g);
      forall j | 0 <= j < i + 1 ensures Usable(scans[j], g) {
        assert j > 0 ==> scans[j] == scans[1..][j - 1];
      }
      assert HasProblem(scans[i + 1], g, e);
    }
  }

  lemma PoolHourReports(scans: seq<Scan>, g: Geography)
    requires g.weights.Sliceable()
    ensures HourReports(PoolHour(scans, g), scans, g)
  {
    FirstScanErrorIsFirst(scans, g);
    assert forall a :: a in scans ==> exists i :: 0 <= i < |scans| && scans[i] == a;
    assert AllRegionsKnown(g) <==> forall k :: 0 <= k < |g.weights.regionIds| ==> g.weights.regionIds[k] in g.meta;
    assert OneHour(scans) <==> forall i, j :: 0 <= i < j < |scans| ==> scans[i].grid.hour == scans[j].grid.hour by {
      HoursByPosition(scans);
    }
    if PoolHour(scans, g).Ok? {
      forall k | 0 <= k < |g.weights.regionIds|
        ensures RowReports(RegionRows(scans, g)[k], scans, g, g.weights.regionIds[k], g.weights.Slice(k))
      {
        RowForReports(scans, g, g.weights.regionIds[k], g.weights.Slice(k));
      }
    }
  }

  lemma HoursByPosition(scans: seq<Scan>)
    ensures OneHour(scans) <==> forall i, j :: 0 <= i < j < |scans| ==> scans[i].grid.hour == scans[j].grid.hour
  {
    if forall i, j :: 0 <= i < j < |scans| ==> scans[i].grid.hour == scans[j].grid.hour {
      forall a, b | a in scans && b in scans ensures a.grid.hour == b.grid.hour {
        var i :| 0 <= i < |scans| && scans[i] == a;
        var j :| 0 <= j < |scans| && scans[j] == b;
        assert i < j || j < i || i == j;
      }
    } else {
      var i, j :| 0 <= i < j < |scans| && scans[i].grid.hour != scans[j].grid.hour;
      assert scans[i] in scans && scans[j] in scans;
    }
  }

  method CheckScans(scans: seq<Scan>, g: Geography) returns (problem: Option<PoolError>)
    requires scans != []
    ensures problem == if !OneHour(scans) then Some(MixedHours) else FirstScanError(scans, g)
  {
    var hours: set<int> := {};
    for i := 0 to |scans|
      invariant forall h :: h in hours <==> exists j :: 0 <= j < i && scans[j].grid.hour == h
    {
      hours := hours + {scans[i].grid.hour};
    }
    assert scans[0].grid.hour in hours;
    if OneHour(scans) {
      assert forall h :: h in hours ==> h == scans[0].grid.hour;
      assert hours == {scans[0].grid.hour};
    }
    if hours != {scans[0].grid.hour} {
      return Some(MixedHours);
    }
    assert OneHour(scans) by {
      forall a, b | a in scans && b in scans
        ensures a.grid.hour == b.grid.hour
      {
        assert a.grid.hour in hours && b.grid.hour in hours;
      }
    }
    for i := 0 to |scans|
      invariant FirstScanError(scans, g) == FirstScanError(scans[i..], g)
    {
      problem := ScanError(scans[i], g);
      if problem.Some? {
        return;
      }
    }
    assert scans[|scans|..] == [];
    problem := None;
  }

  /** Pools one region over every scan, accumulating counts and areas scan by scan. */
  method PoolRegion(scans: seq<Scan>, g: Geography, region: string, cells: seq<Cell>) returns (row: RegionRow)
    requires scans != [] && region in g.meta
    ensures row == RowFor(scans, g, region, cells)
  {
    var values: seq<Sample> := [];
    var validCount, validArea := 0, 0.0;
    var byScan := ObservedBy(g.acceptedFlags, cells);
    for i := 0 to |scans|
      invariant values == FlatMap(scans[..i], byScan)
      invariant validCount == |values|
      invariant validArea == Sum(values, WeightedStats.WeightOf())
    {
      var part := Observed(g.acceptedFlags, scans[i].grid, cells);
      assert scans[..i + 1] == scans[..i] + [scans[i]];
      FlatMapAppend(scans[..i], [scans[i]], byScan);
      assert [scans[i]][1..] == [];
      assert FlatMap([scans[i]], byScan) == part;
      SumAppend(values, part, WeightedStats.WeightOf());
      values := values + part;
      validCount := validCount + |part|;
      validArea := validArea + Sum(part, WeightedStats.WeightOf());
    }
    assert scans[..|scans|] == scans;
    row := Assemble(g, region, cells, scans[0].grid.hour, |scans|,
      WeightedStats.Compute(values), validCount, validArea);
  }

  method PoolRegions(scans: seq<Scan>, g: Geography) returns (r: Result<seq<RegionRow>, PoolError>)
    requires scans != [] && g.weights.Sliceable()
    ensures r == if AllRegionsKnown(g) then Ok(RegionRows(scans, g)) else Err(UnknownRegion)
  {
    var rows: seq<RegionRow> := [];
    for k := 0 to |g.weights.regionIds|
      invariant |rows| == k
      invariant RowsMatch(rows, scans, g)
    {
      var region := g.weights.regionIds[k];
      if region !in g.meta {
        return Err(UnknownRegion);
      }
      var row := PoolRegion(scans, g, region, g.weights.Slice(k));
      RowsMatchSnoc(rows, row, scans, g);
      rows := rows + [row];
    }
    AllRowsMatch(rows, scans, g);
    r := Ok(rows);
  }

  lemma AllRowsMatch(rows: seq<RegionRow>, scans: seq<Scan>, g: Geography)
    requires scans != [] && g.weights.Sliceable() && |rows| == |g.weights.regionIds| && RowsMatch(rows, scans, g)
    ensures AllRegionsKnown(g) && rows == RegionRows(scans, g)
  {
    forall k | 0 <= k < |rows| ensures g.weights.regionIds[k] in g.meta {
      assert RowMatches(rows[k], scans, g, k);
    }
    forall k | 0 <= k < |rows| ensures rows[k] == RegionRows(scans, g)[k] {
      assert RowMatches(rows[k], scans, g, k);
    }
  }

  ghost predicate RowsMatch(rows: seq<RegionRow>, scans: seq<Scan>, g: Geography)
    requires scans != [] && g.weights.Sliceable() && |rows| <= |g.weights.regionIds|
  {
    forall j :: 0 <= j < |rows| ==> RowMatches(rows[j], scans, g, j)
  }

  ghost predicate RowMatches(row: RegionRow, scans: seq<Scan>, g: Geography, j: nat)
    requires scans != [] && g.weights.Sliceable() && j < |g.weights.regionIds|
  {
    g.weights.regionIds[j] in g.meta && row == RowFor(scans, g, g.weights.regionIds[j], g.weights.Slice(j))
  }

  lemma RowsMatchSnoc(rows: seq<RegionRow>, row: RegionRow, scans: seq<Scan>, g: Geography)
    requires scans != [] && g.weights.Sliceable() && |rows| < |g.weights.regionIds|
    requires RowsMatch(rows, scans, g)
    requires g.weights.regionIds[|rows|] in g.meta
    requires row == RowFor(scans, g, g.weights.regionIds[|rows|], g.weights.Slice(|rows|))
    ensures RowsMatch(rows + [row], scans, g)
  {
    forall j | 0 <= j < |rows| + 1 ensures RowMatches((rows + [row])[j], scans, g, j) {
      assert j < |rows| ==> RowMatches(rows[j], scans, g, j);
    }
  }

  method AggregateRegionHour(scans: seq<Scan>, g: Geography) returns (r: Result<seq<RegionRow>, PoolError>)
    requires g.weights.Sliceable()
    ensures r == PoolHour(scans, g)
    ensures HourReports(r, scans, g)
  {
    PoolHourReports(scans, g);
    if scans == [] {
      return Err(NoGranules);
    }
    var problem := CheckScans(scans, g);
    if problem.Some? {
      return Err(problem.value);
    }
    r := PoolRegions(scans, g);
  }

  // ---------- Order, slices and coverage ----------

  ghost predicate NonNegativeAreas(cells: seq<Cell>)
  {
    forall c :: c in cells ==> c.area >= 0.0
  }

  lemma {:induction false} ObservedNonNegative(flags: set<int>, grid: Grid, cells: seq<Cell>)
    requires NonNegativeAreas(cells)
    ensures WeightedStats.NonNegative(Observed(flags, grid, cells))
  {
    if cells != [] {
      ObservedNonNegative(flags, grid, cells[1..]);
    }
  }

  lemma {:induction false} PooledNonNegative(flags: set<int>, scans: seq<Scan>, cells: seq<Cell>)
    requires NonNegativeAreas(cells)
    ensures WeightedStats.NonNegative(Pooled(flags, scans, cells))
  {
    if scans != [] {
      ObservedNonNegative(flags, scans[0].grid, cells);
      PooledNonNegative(flags, scans[1..], cells);
    }
  }

  lemma RowOrderFree(s: seq<Scan>, t: seq<Scan>, g: Geography, region: string, cells: seq<Cell>)
    requires multiset(s) == multiset(t)
    requires s != [] && t != [] && OneHour(s)
    requires region in g.meta && NonNegativeAreas(cells)
    ensures RowFor(s, g, region, cells) == RowFor(t, g, region, cells)
  {
    var byScan := ObservedBy(g.acceptedFlags, cells);
    FlatMapPermutation(s, t, byScan);
    var p, q := Pooled(g.acceptedFlags, s, cells), Pooled(g.acceptedFlags, t, cells);
    PooledNonNegative(g.acceptedFlags, s, cells);
    WeightedStats.ComputePermutation(p, q);
    SumPermutation(p, q, WeightedStats.WeightOf());
    assert |p| == |q| by { assert |multiset(p)| == |multiset(q)|; }
    assert |s| == |t| by { assert |multiset(s)| == |multiset(t)|; }
    assert t[0] in multiset(t);
    assert t[0] in s && s[0] in s;
  }

  lemma {:induction false} FirstScanErrorNone(scans: seq<Scan>, g: Geography)
    ensures FirstScanError(scans, g).None? <==> forall x :: x in scans ==> ScanError(x, g).None?
  {
    if scans != [] {
      FirstScanErrorNone(scans[1..], g);
      assert scans[0] in scans;
    }
  }

  /** The pooled hour depends on which scans were pooled, not on their order. */
  lemma PoolOrderFree(s: seq<Scan>, t: seq<Scan>, g: Geography)
    requires g.weights.Sliceable() && NonNegativeAreas(g.weights.cells)
    requires multiset(s) == multiset(t)
    ensures PoolHour(s, g).Ok? <==> PoolHour(t, g).Ok?
    ensures PoolHour(s, g).Ok? ==> PoolHour(s, g) == PoolHour(t, g)
  {
    assert |s| == |t| by { assert |multiset(s)| == |multiset(t)|; }
    assert forall x :: x in s <==> x in multiset(s);
    assert forall x :: x in t <==> x in multiset(t);
    FirstScanErrorNone(s, g);
    FirstScanErrorNone(t, g);
    if PoolHour(s, g).Ok? {
      RegionRowsOrderFree(s, t, g);
    }
  }

  lemma RegionRowsOrderFree(s: seq<Scan>, t: seq<Scan>, g: Geography)
    requires g.weights.Sliceable() && NonNegativeAreas(g.weights.cells) && AllRegionsKnown(g)
    requires multiset(s) == multiset(t)
    requires s != [] && t != [] && OneHour(s)
    ensures RegionRows(s, g) == RegionRows(t, g)
  {
    var rows := RegionRows(t, g);
    forall k | 0 <= k < |rows|
      ensures RegionRows(s, g)[k] == rows[k]
    {
      assert g.weights.RunInBounds(k);
      RowOrderFree(s, t, g, g.weights.regionIds[k], g.weights.Slice(k));
    }
  }

  /** Cutting the columns at the offsets pools exactly the weight rows that name the
      region: each row of the result is what filtering the whole table would give. */
  lemma {:induction false} PoolBySliceIsPoolByFilter(table: seq<WeightRow>, scans: seq<Scan>, g: Geography)
    requires FromTable(table, true) == Ok(g.weights)
    ensures g.weights.Sliceable()
    ensures PoolHour(scans, g).Ok? ==>
      var rows := PoolHour(scans, g).value;
      && |rows| == |g.weights.regionIds|
      && forall k :: 0 <= k < |rows| ==>
           && rows[k].region in g.meta
           && rows[k] == RowFor(scans, g, rows[k].region, RowsOf(table, rows[k].region))
  {
    SlicesAreFilters(table);
  }

  lemma {:induction false} ObservedWithin(flags: set<int>, grid: Grid, cells: seq<Cell>)
    requires NonNegativeAreas(cells)
    ensures 0.0 <= Sum(Observed(flags, grid, cells), WeightedStats.WeightOf()) <= Sum(cells, AreaOf())
    ensures |Observed(flags, grid, cells)| <= |cells|
  {
    if cells != [] {
      ObservedWithin(flags, grid, cells[1..]);
      var rest := Observed(flags, grid, cells[1..]);
      var at := (cells[0].row, cells[0].col);
      var first := if grid.Flag(at) in flags && at in grid.no2
        then [WeightedStats.Sample(grid.no2[at], cells[0].area)] else [];
      SumAppend(first, rest, WeightedStats.WeightOf());
      assert first != [] ==> first[1..] == [];
    }
  }

  lemma {:induction false} PooledWithin(flags: set<int>, scans: seq<Scan>, cells: seq<Cell>)
    requires NonNegativeAreas(cells)
    ensures 0.0 <= Sum(Pooled(flags, scans, cells), WeightedStats.WeightOf()) <= TotalArea(cells, |scans|)
    ensures |Pooled(flags, scans, cells)| <= |cells| * |scans|
  {
    if scans != [] {
      var first, rest := Observed(flags, scans[0].grid, cells), Pooled(flags, scans[1..], cells);
      ObservedWithin(flags, scans[0].grid, cells);
      PooledWithin(flags, scans[1..], cells);
      SumAppend(first, rest, WeightedStats.WeightOf());
      OneMoreScan(cells, |scans| - 1);
    }
  }

  lemma {:induction false} OneMoreScan(cells: seq<Cell>, n: nat)
    ensures TotalArea(cells, n + 1) == TotalArea(cells, n) + Sum(cells, AreaOf())
    ensures |cells| * (n + 1) == |cells| * n + |cells|
  {
  }

  lemma FractionBounds(part: real, whole: real)
    requires 0.0 <= part <= whole
    ensures 0.0 <= Fraction(part, whole) <= 1.0
  {
    if whole != 0.0 {
      var f := part / whole;
      assert f * whole == part;
      assert f < 0.0 ==> f * whole < 0.0;
      assert f > 1.0 ==> (f - 1.0) * whole > 0.0;
    }
  }

  /** Coverage is a fraction, and no region counts more valid than total pixels. */
  lemma CoverageIsFraction(scans: seq<Scan>, g: Geography, region: string, cells: seq<Cell>)
    requires scans != [] && region in g.meta && NonNegativeAreas(cells)
    ensures var row := RowFor(scans, g, region, cells);
      && 0.0 <= row.coverage <= 1.0
      && row.validPixels <= row.totalPixels
      && 0.0 <= row.validArea <= row.totalArea
  {
    PooledWithin(g.acceptedFlags, scans, cells);
    var pooled := Pooled(g.acceptedFlags, scans, cells);
    AssembleBounds(g, region, cells, scans[0].grid.hour, |scans|,
      WeightedStats.Compute(pooled), |pooled|, Sum(pooled, WeightedStats.WeightOf()));
  }

  lemma AssembleBounds(g: Geography, region: string, cells: seq<Cell>, hour: int, scanCount: nat,
                       stats: WeightedStats.Stats, validPixels: nat, validArea: real)
    requires region in g.meta
    requires validPixels <= |cells| * scanCount
    requires 0.0 <= validArea <= TotalArea(cells, scanCount)
    ensures var row := Assemble(g, region, cells, hour, scanCount, stats, validPixels, validArea);
      && 0.0 <= row.coverage <= 1.0
      && row.validPixels <= row.totalPixels
      && 0.0 <= row.validArea <= row.totalArea
  {
    FractionBounds(validArea, TotalArea(cells, scanCount));
  }
}
