/** Enumeration of grid-region overlap weights (geography/weights.py). */
module WeightStream {
  import opened Prelude
  import opened RegionWeights

  datatype GridSpec = GridSpec(rows: nat, cols: nat, latitudeStart: real, longitudeStart: real, step: real)

  datatype Bounds = Bounds(minX: real, minY: real, maxX: real, maxY: real)

  /** A region as the stream sees it: its bounding box, which cell boxes its geometry
      touches, and the projected area it shares with each cell. */
  datatype Region = Region(id: string, bounds: Bounds, touches: (nat, nat) -> bool, overlap: (nat, nat) -> real)

  // Interval [center - half, center + half] shares more than a point with [low, high].
  ghost predicate AxisMeets(start: real, step: real, index: nat, low: real, high: real)
  {
    low < start + index as real * step + step / 2.0 && start + index as real * step - step / 2.0 < high
  }

  /** What geometry guarantees: a positive shared area means the cell box touches the
      region and meets its bounding box with positive overlap. */
  ghost predicate GeometrySound(grid: GridSpec, region: Region)
  {
    forall row: nat, col: nat :: region.overlap(row, col) > 0.0 ==>
      && region.touches(row, col)
      && AxisMeets(grid.latitudeStart, grid.step, row, region.bounds.minY, region.bounds.maxY)
      && AxisMeets(grid.longitudeStart, grid.step, col, region.bounds.minX, region.bounds.maxX)
  }

  // ---------- Bounding ranges ----------

  function Ceiling(x: real): int { -((-x).Floor) }

  function FirstIndex(start: real, step: real, low: real): nat
    requires step > 0.0
  {
    var i := Ceiling((low - step / 2.0 - start) / step);
    if i < 0 then 0 else i
  }

  // May be below the first index, or negative, when the range is empty.
  function LastIndex(start: real, step: real, high: real, count: nat): int
    requires step > 0.0
  {
    var i := ((high + step / 2.0 - start) / step).Floor;
    if i < count - 1 then i else count - 1
  }

  lemma QuotientBelow(a: real, step: real, x: real)
    requires step > 0.0 && a < x * step
    ensures a / step < x
  {
    var q := a / step;
    assert q * step == a;
    assert q >= x ==> (q - x) * step >= 0.0;
  }

  lemma QuotientAbove(a: real, step: real, x: real)
    requires step > 0.0 && x * step < a
    ensures x < a / step
  {
    var q := a / step;
    assert q * step == a;
    assert q <= x ==> (x - q) * step >= 0.0;
  }

  lemma RangeCovers(start: real, step: real, index: nat, low: real, high: real, count: nat)
    requires step > 0.0 && index < count
    requires AxisMeets(start, step, index, low, high)
    ensures FirstIndex(start, step, low) <= index <= LastIndex(start, step, high, count)
  {
    QuotientBelow(low - step / 2.0 - start, step, index as real);
    QuotientAbove(high + step / 2.0 - start, step, index as real);
  }

  // ---------- Enumeration ----------

  function Kept(region: Region, row: nat, col: nat): seq<WeightRow>
  {
    if region.overlap(row, col) > 0.0 then [WeightRow(region.id, Cell(row, col, region.overlap(row, col)))] else []
  }

  function KeptInRow(region: Region, row: nat, fromCol: nat, toCol: nat): seq<WeightRow>
    decreases toCol - fromCol
  {
    if fromCol >= toCol then [] else Kept(region, row, fromCol) + KeptInRow(region, row, fromCol + 1, toCol)
  }

  function KeptInBlock(region: Region, fromRow: nat, toRow: nat, fromCol: nat, toCol: nat): seq<WeightRow>
    decreases toRow - fromRow
  {
    if fromRow >= toRow then []
    else KeptInRow(region, fromRow, fromCol, toCol) + KeptInBlock(region, fromRow + 1, toRow, fromCol, toCol)
  }

  /** The plain enumeration: every cell of the grid, keeping those that share area. */
  function AllKept(grid: GridSpec): Region -> seq<WeightRow>
  {
    (region: Region) => KeptInBlock(region, 0, grid.rows, 0, grid.cols)
  }

  function Stream(regions: seq<Region>, grid: GridSpec): seq<WeightRow>
  {
    FlatMap(regions, AllKept(grid))
  }

  lemma {:induction false} RowSplit(region: Region, row: nat, a: nat, b: nat, c: nat)
    requires a <= b <= c
    ensures KeptInRow(region, row, a, c) == KeptInRow(region, row, a, b) + KeptInRow(region, row, b, c)
    decreases b - a
  {
    if a < b {
      RowSplit(region, row, a + 1, b, c);
    }
  }

  lemma {:induction false} BlockSplit(region: Region, a: nat, b: nat, c: nat, fromCol: nat, toCol: nat)
    requires a <= b <= c
    ensures KeptInBlock(region, a, c, fromCol, toCol)
         == KeptInBlock(region, a, b, fromCol, toCol) + KeptInBlock(region, b, c, fromCol, toCol)
    decreases b - a
  {
    if a < b {
      BlockSplit(region, a + 1, b, c, fromCol, toCol);
    }
  }

  lemma {:induction false} EmptyRow(region: Region, row: nat, a: nat, b: nat)
    requires forall col: nat :: a <= col < b ==> region.overlap(row, col) <= 0.0
    ensures KeptInRow(region, row, a, b) == []
    decreases b - a
  {
    if a < b {
      EmptyRow(region, row, a + 1, b);
    }
  }

  lemma {:induction false} EmptyBlock(region: Region, a: nat, b: nat, fromCol: nat, toCol: nat)
    requires forall row: nat, col: nat :: a <= row < b && fromCol <= col < toCol ==> region.overlap(row, col) <= 0.0
    ensures KeptInBlock(region, a, b, fromCol, toCol) == []
    decreases b - a
  {
    if a < b {
      EmptyRow(region, a, fromCol, toCol);
      EmptyBlock(region, a + 1, b, fromCol, toCol);
    }
  }

  lemma {:induction false} NarrowBlock(region: Region, top: nat, bottom: nat, left: nat, right: nat, rows: nat, cols: nat)
    requires top <= bottom <= rows && left <= right <= cols
    requires forall row: nat, col: nat :: row < rows && col < cols && region.overlap(row, col) > 0.0 ==>
      top <= row < bottom && left <= col < right
    ensures KeptInBlock(region, 0, rows, 0, cols) == KeptInBlock(region, top, bottom, left, right)
  {
    BlockSplit(region, 0, top, rows, 0, cols);
    BlockSplit(region, top, bottom, rows, 0, cols);
    EmptyBlock(region, 0, top, 0, cols);
    EmptyBlock(region, bottom, rows, 0, cols);
    NarrowColumnsWithin(region, top, bottom, left, right, cols);
  }

  lemma {:induction false} NarrowColumnsWithin(region: Region, a: nat, b: nat, left: nat, right: nat, cols: nat)
    requires left <= right <= cols
    requires forall row: nat, col: nat :: a <= row < b && col < cols && !(left <= col < right) ==>
      region.overlap(row, col) <= 0.0
    ensures KeptInBlock(region, a, b, 0, cols) == KeptInBlock(region, a, b, left, right)
    decreases b - a
  {
    if a < b {
      NarrowRow(region, a, left, right, cols);
      NarrowColumnsWithin(region, a + 1, b, left, right, cols);
    }
  }

  lemma {:induction false} NarrowRow(region: Region, row: nat, left: nat, right: nat, cols: nat)
    requires left <= right <= cols
    requires forall col: nat :: col < cols && !(left <= col < right) ==> region.overlap(row, col) <= 0.0
    ensures KeptInRow(region, row, 0, cols) == KeptInRow(region, row, left, right)
  {
    RowSplit(region, row, 0, left, cols);
    RowSplit(region, row, left, right, cols);
    EmptyRow(region, row, 0, left);
    EmptyRow(region, row, right, cols);
  }

  // ---------- The generator ----------

  datatype StreamError = ChunkSizeNotPositive

  // One chunk's table: touching cells first, then those with positive area.
  method ChunkTable(region: Region, fromRow: nat, toRow: nat, fromCol: nat, toCol: nat) returns (table: seq<WeightRow>)
    requires fromRow <= toRow && fromCol <= toCol
    requires forall row: nat, col: nat :: region.overlap(row, col) > 0.0 ==> region.touches(row, col)
    ensures table == KeptInBlock(region, fromRow, toRow, fromCol, toCol)
  {
    table := [];
    for row := fromRow to toRow
      invariant table == KeptInBlock(region, fromRow, row, fromCol, toCol)
    {
      ghost var before := table;
      for col := fromCol to toCol
        invariant table == before + KeptInRow(region, row, fromCol, col)
      {
        RowSplit(region, row, fromCol, col, col + 1);
        assert KeptInRow(region, row, col, col + 1) == Kept(region, row, col);
        if region.touches(row, col) {
          var area := region.overlap(row, col);
          if area > 0.0 {
            table := table + [WeightRow(region.id, Cell(row, col, area))];
          }
        }
      }
      BlockSplit(region, fromRow, row, row + 1, fromCol, toCol);
      assert KeptInBlock(region, row, row + 1, fromCol, toCol) == KeptInRow(region, row, fromCol, toCol);
    }
  }

  // Cells outside the bounding ranges share no area with the region.
  ghost predicate RangesCover(region: Region, grid: GridSpec, top: int, bottom: int, left: int, right: int)
  {
    forall row: nat, col: nat :: row < grid.rows && col < grid.cols && region.overlap(row, col) > 0.0 ==>
      top <= row <= bottom && left <= col <= right
  }

  lemma BoundsCover(region: Region, grid: GridSpec)
    requires grid.step > 0.0 && GeometrySound(grid, region)
    ensures RangesCover(region, grid,
      FirstIndex(grid.latitudeStart, grid.step, region.bounds.minY), LastIndex(grid.latitudeStart, grid.step, region.bounds.maxY, grid.rows),
      FirstIndex(grid.longitudeStart, grid.step, region.bounds.minX), LastIndex(grid.longitudeStart, grid.step, region.bounds.maxX, grid.cols))
  {
    forall row: nat, col: nat | row < grid.rows && col < grid.cols && region.overlap(row, col) > 0.0
      ensures FirstIndex(grid.latitudeStart, grid.step, region.bounds.minY) <= row
           <= LastIndex(grid.latitudeStart, grid.step, region.bounds.maxY, grid.rows)
      ensures FirstIndex(grid.longitudeStart, grid.step, region.bounds.minX) <= col
           <= LastIndex(grid.longitudeStart, grid.step, region.bounds.maxX, grid.cols)
    {
      RangeCovers(grid.latitudeStart, grid.step, row, region.bounds.minY, region.bounds.maxY, grid.rows);
      RangeCovers(grid.longitudeStart, grid.step, col, region.bounds.minX, region.bounds.maxX, grid.cols);
    }
  }

  // The rows of a block, a chunk of rows at a time; empty chunks leave no table.
  method ChunkedBlock(region: Region, top: nat, bottom: nat, left: nat, right: nat, rowChunkSize: nat) returns (tables: seq<seq<WeightRow>>)
    requires rowChunkSize > 0 && top <= bottom && left <= right
    requires forall row: nat, col: nat :: region.overlap(row, col) > 0.0 ==> region.touches(row, col)
    ensures Flatten(tables) == KeptInBlock(region, top, bottom, left, right)
    ensures forall table :: table in tables ==> table != []
  {
    tables := [];
    var chunkStart := top;
    while chunkStart < bottom
      invariant top <= chunkStart <= bottom
      invariant Flatten(tables) == KeptInBlock(region, top, chunkStart, left, right)
      invariant forall table :: table in tables ==> table != []
      decreases bottom - chunkStart
    {
      var chunkEnd := if bottom < chunkStart + rowChunkSize then bottom else chunkStart + rowChunkSize;
      var table := ChunkTable(region, chunkStart, chunkEnd, left, right);
      BlockSplit(region, top, chunkStart, chunkEnd, left, right);
      if table != [] {
        FlattenAppend(tables, [table]);
        assert Flatten([table]) == table by { assert [table][1..] == []; }
        tables := tables + [table];
      }
      chunkStart := chunkEnd;
    }
  }

  method RegionTables(region: Region, grid: GridSpec, rowChunkSize: nat) returns (tables: seq<seq<WeightRow>>)
    requires rowChunkSize > 0 && grid.step > 0.0
    requires GeometrySound(grid, region)
    ensures Flatten(tables) == AllKept(grid)(region)
    ensures forall table :: table in tables ==> table != []
  {
    var rowStart := FirstIndex(grid.latitudeStart, grid.step, region.bounds.minY);
    var rowEnd := LastIndex(grid.latitudeStart, grid.step, region.bounds.maxY, grid.rows);
    var colStart := FirstIndex(grid.longitudeStart, grid.step, region.bounds.minX);
    var colEnd := LastIndex(grid.longitudeStart, grid.step, region.bounds.maxX, grid.cols);
    BoundsCover(region, grid);
    assert RangesCover(region, grid, rowStart, rowEnd, colStart, colEnd);
    if rowStart > rowEnd || colStart > colEnd {
      EmptyBlock(region, 0, grid.rows, 0, grid.cols);
      return [];
    }
    NarrowBlock(region, rowStart, rowEnd + 1, colStart, colEnd + 1, grid.rows, grid.cols);
    tables := ChunkedBlock(region, rowStart, rowEnd + 1, colStart, colEnd + 1, rowChunkSize);
  }

  lemma StreamSnoc(ordered: seq<Region>, i: nat, grid: GridSpec)
    requires i < |ordered|
    ensures Stream(ordered[..i + 1], grid) == Stream(ordered[..i], grid) + AllKept(grid)(ordered[i])
  {
    assert ordered[..i + 1] == ordered[..i] + [ordered[i]];
    FlatMapAppend(ordered[..i], [ordered[i]], AllKept(grid));
    assert [ordered[i]][1..] == [];
  }

  predicate ById(a: Region, b: Region) { TextLeq(a.id, b.id) }

  /** The chunked, bounding-box enumeration yields exactly the rows of the plain
      enumeration over every cell of the grid, region by region in identifier order. */
  method WeightTables(regions: seq<Region>, grid: GridSpec, rowChunkSize: int)
    returns (r: Result<seq<seq<WeightRow>>, StreamError>)
    requires grid.step > 0.0
    requires forall region :: region in regions ==> GeometrySound(grid, region)
    ensures r.Err? <==> rowChunkSize < 1
    ensures r.Ok? ==> Flatten(r.value) == Stream(SortBy(regions, ById), grid)
    ensures r.Ok? ==> forall table :: table in r.value ==> table != []
  {
    if rowChunkSize < 1 {
      return Err(ChunkSizeNotPositive);
    }
    var ordered := SortBy(regions, ById);
    var tables: seq<seq<WeightRow>> := [];
    SortedStaySound(regions, ordered, grid);
    for i := 0 to |ordered|
      invariant Flatten(tables) == Stream(ordered[..i], grid)
      invariant forall table :: table in tables ==> table != []
    {
      var more := RegionTables(ordered[i], grid, rowChunkSize);
      StreamSnoc(ordered, i, grid);
      FlattenAppend(tables, more);
      tables := tables + more;
    }
    assert ordered[..|ordered|] == ordered;
    r := Ok(tables);
  }

  lemma SortedStaySound(regions: seq<Region>, ordered: seq<Region>, grid: GridSpec)
    requires multiset(ordered) == multiset(regions)
    requires forall region :: region in regions ==> GeometrySound(grid, region)
    ensures forall i :: 0 <= i < |ordered| ==> GeometrySound(grid, ordered[i])
  {
    forall i | 0 <= i < |ordered|
      ensures ordered[i] in regions
    {
      assert ordered[i] in multiset(ordered);
    }
  }

  // ---------- Order and completeness of the stream ----------

  predicate RowLess(a: WeightRow, b: WeightRow)
  {
    if a.region != b.region then TextLess(a.region, b.region)
    else a.cell.row < b.cell.row || (a.cell.row == b.cell.row && a.cell.col < b.cell.col)
  }

  ghost predicate Increasing(s: seq<WeightRow>)
  {
    forall i, j :: 0 <= i < j < |s| ==> RowLess(s[i], s[j])
  }

  lemma IncreasingAppend(a: seq<WeightRow>, b: seq<WeightRow>)
    requires Increasing(a) && Increasing(b)
    requires forall x, y :: x in a && y in b ==> RowLess(x, y)
    ensures Increasing(a + b)
  {
    var s := a + b;
    forall i, j | 0 <= i < j < |s|
      ensures RowLess(s[i], s[j])
    {
      if i < |a| <= j {
        assert s[i] in a && s[j] in b;
      }
    }
  }

  lemma {:induction false} RowContents(region: Region, row: nat, a: nat, b: nat)
    ensures forall x :: x in KeptInRow(region, row, a, b) <==>
      && x.region == region.id && x.cell.row == row && a <= x.cell.col < b
      && region.overlap(row, x.cell.col) > 0.0 && x.cell.area == region.overlap(row, x.cell.col)
    ensures Increasing(KeptInRow(region, row, a, b))
    decreases b - a
  {
    if a < b {
      RowContents(region, row, a + 1, b);
      IncreasingAppend(Kept(region, row, a), KeptInRow(region, row, a + 1, b));
    }
  }

  lemma {:induction false} BlockContents(region: Region, a: nat, b: nat, fromCol: nat, toCol: nat)
    ensures forall x :: x in KeptInBlock(region, a, b, fromCol, toCol) <==>
      && x.region == region.id && a <= x.cell.row < b && fromCol <= x.cell.col < toCol
      && region.overlap(x.cell.row, x.cell.col) > 0.0 && x.cell.area == region.overlap(x.cell.row, x.cell.col)
    ensures Increasing(KeptInBlock(region, a, b, fromCol, toCol))
    decreases b - a
  {
    if a < b {
      RowContents(region, a, fromCol, toCol);
      BlockContents(region, a + 1, b, fromCol, toCol);
      IncreasingAppend(KeptInRow(region, a, fromCol, toCol), KeptInBlock(region, a + 1, b, fromCol, toCol));
    }
  }

  ghost predicate DistinctRegions(regions: seq<Region>)
  {
    forall i, j :: 0 <= i < j < |regions| ==> regions[i].id != regions[j].id
  }

  ghost predicate InIdOrder(regions: seq<Region>)
  {
    forall i, j :: 0 <= i < j < |regions| ==> TextLess(regions[i].id, regions[j].id)
  }

  lemma {:induction false} StreamInOrder(regions: seq<Region>, grid: GridSpec)
    requires InIdOrder(regions)
    ensures Increasing(Stream(regions, grid))
    ensures forall x :: x in Stream(regions, grid) <==>
      exists i :: 0 <= i < |regions| && x in AllKept(grid)(regions[i])
  {
    if regions != [] {
      var rest := regions[1..];
      StreamInOrder(rest, grid);
      BlockContents(regions[0], 0, grid.rows, 0, grid.cols);
      forall x, y | x in AllKept(grid)(regions[0]) && y in Stream(rest, grid)
        ensures RowLess(x, y)
      {
        var i :| 0 <= i < |rest| && y in AllKept(grid)(rest[i]);
        BlockContents(rest[i], 0, grid.rows, 0, grid.cols);
        assert rest[i] == regions[i + 1];
      }
      IncreasingAppend(AllKept(grid)(regions[0]), Stream(rest, grid));
      forall x
        ensures x in Stream(regions, grid) <==> exists i :: 0 <= i < |regions| && x in AllKept(grid)(regions[i])
      {
        if i :| 0 <= i < |rest| && x in AllKept(grid)(rest[i]) {
          assert rest[i] == regions[i + 1];
        }
        if i :| 0 <= i < |regions| && x in AllKept(grid)(regions[i]) {
          assert i > 0 ==> rest[i - 1] == regions[i];
        }
      }
    }
  }

  lemma {:induction false} SortedRegions(regions: seq<Region>)
    requires DistinctRegions(regions)
    ensures InIdOrder(SortBy(regions, ById))
    ensures forall region :: region in SortBy(regions, ById) <==> region in regions
  {
    TextLeqPreorder();
    SortSorts(regions, ById);
    var ordered := SortBy(regions, ById);
    forall region
      ensures region in ordered <==> region in regions
    {
      assert region in ordered <==> region in multiset(ordered);
      assert region in regions <==> region in multiset(regions);
    }
    forall i, j | 0 <= i < j < |ordered|
      ensures TextLess(ordered[i].id, ordered[j].id)
    {
      assert ById(ordered[i], ordered[j]);
      OneRegionPerId(regions, ordered, i, j);
    }
  }

  lemma OneRegionPerId(regions: seq<Region>, ordered: seq<Region>, i: nat, j: nat)
    requires DistinctRegions(regions) && multiset(ordered) == multiset(regions)
    requires i < j < |ordered|
    ensures ordered[i].id != ordered[j].id
  {
    if ordered[i].id == ordered[j].id {
      assert ordered[i] in multiset(regions) && ordered[j] in multiset(regions);
      var a :| 0 <= a < |regions| && regions[a] == ordered[i];
      var b :| 0 <= b < |regions| && regions[b] == ordered[j];
      assert a == b;
      RemoveFromMultiset(ordered, j);
      var others := ordered[..j] + ordered[j + 1..];
      assert others[i] == ordered[i];
      RemoveFromMultiset(regions, a);
      var rest := regions[..a] + regions[a + 1..];
      assert multiset(others) == multiset(rest);
      assert ordered[i] in multiset(others);
      var c :| 0 <= c < |rest| && rest[c] == ordered[i];
      var _ := ElementOutside(regions, a, c);
    }
  }

  lemma ElementOutside(regions: seq<Region>, a: nat, c: nat) returns (k: nat)
    requires a < |regions| && c < |regions| - 1
    ensures k < |regions| && k != a && regions[k] == (regions[..a] + regions[a + 1..])[c]
  {
    k := if c < a then c else c + 1;
  }

  lemma StreamHolds(ordered: seq<Region>, grid: GridSpec, k: nat, row: nat, col: nat)
    requires InIdOrder(ordered) && k < |ordered| && row < grid.rows && col < grid.cols
    ensures ordered[k].overlap(row, col) > 0.0 <==>
      WeightRow(ordered[k].id, Cell(row, col, ordered[k].overlap(row, col))) in Stream(ordered, grid)
  {
    StreamInOrder(ordered, grid);
    var x := WeightRow(ordered[k].id, Cell(row, col, ordered[k].overlap(row, col)));
    BlockContents(ordered[k], 0, grid.rows, 0, grid.cols);
    if i :| 0 <= i < |ordered| && x in AllKept(grid)(ordered[i]) {
      BlockContents(ordered[i], 0, grid.rows, 0, grid.cols);
      assert i == k;
    }
  }

  lemma StreamRow(regions: seq<Region>, ordered: seq<Region>, grid: GridSpec, x: WeightRow)
    requires InIdOrder(ordered) && forall region :: region in ordered <==> region in regions
    ensures x in Stream(ordered, grid) <==> exists region :: region in regions && RowOf(region, grid, x)
  {
    StreamInOrder(ordered, grid);
    if i :| 0 <= i < |ordered| && x in AllKept(grid)(ordered[i]) {
      BlockContents(ordered[i], 0, grid.rows, 0, grid.cols);
      assert ordered[i] in regions && RowOf(ordered[i], grid, x);
    }
    if region :| region in regions && RowOf(region, grid, x) {
      var i :| 0 <= i < |ordered| && ordered[i] == region;
      BlockContents(ordered[i], 0, grid.rows, 0, grid.cols);
      assert x in AllKept(grid)(ordered[i]);
    }
  }

  // The row a region contributes for a cell of the grid it shares area with.
  ghost predicate RowOf(region: Region, grid: GridSpec, x: WeightRow)
  {
    && x.region == region.id && x.cell.row < grid.rows && x.cell.col < grid.cols
    && region.overlap(x.cell.row, x.cell.col) > 0.0 && x.cell.area == region.overlap(x.cell.row, x.cell.col)
  }

  /** The stream is strictly increasing in (region, row, column) and holds exactly the
      in-grid cells that share area with a region, each with that area. */
  lemma {:induction false} StreamIsCompleteAndIncreasing(regions: seq<Region>, grid: GridSpec)
    requires DistinctRegions(regions)
    ensures var stream := Stream(SortBy(regions, ById), grid);
      && Increasing(stream)
      && (forall x :: x in stream <==> exists region :: region in regions && RowOf(region, grid, x))
      && (forall region: Region, row: nat, col: nat :: region in regions && row < grid.rows && col < grid.cols ==>
            (region.overlap(row, col) > 0.0 <==>
               WeightRow(region.id, Cell(row, col, region.overlap(row, col))) in stream))
  {
    var ordered := SortBy(regions, ById);
    SortedRegions(regions);
    StreamInOrder(ordered, grid);
    forall x
      ensures x in Stream(ordered, grid) <==> exists region :: region in regions && RowOf(region, grid, x)
    {
      StreamRow(regions, ordered, grid, x);
    }
    forall region: Region, row: nat, col: nat | region in regions && row < grid.rows && col < grid.cols
      ensures region.overlap(row, col) > 0.0 <==>
        WeightRow(region.id, Cell(row, col, region.overlap(row, col))) in Stream(ordered, grid)
    {
      var k :| 0 <= k < |ordered| && ordered[k] == region;
      StreamHolds(ordered, grid, k, row, col);
    }
  }

  /** What the stream writes, the run-length reader accepts without re-sorting. */
  lemma {:induction false} StreamIsAccepted(regions: seq<Region>, grid: GridSpec)
    requires DistinctRegions(regions)
    ensures FromTable(Stream(SortBy(regions, ById), grid), true).Ok?
    ensures SortedBy(Stream(SortBy(regions, ById), grid), RowLeq)
  {
    var stream := Stream(SortBy(regions, ById), grid);
    StreamIsCompleteAndIncreasing(regions, grid);
    forall i, j | 0 <= i < j < |stream|
      ensures RowLeq(stream[i], stream[j])
    {
      assert RowLess(stream[i], stream[j]);
    }
    SortedIsGrouped(stream);
    AcceptedExactlyWhenGrouped(stream);
  }
}
