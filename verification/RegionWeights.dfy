/** Run-length region slices over a weight table (ingestion/tempo/aggregate.py). */
module RegionWeights {
  import opened Prelude

  datatype Cell = Cell(row: nat, col: nat, area: real)

  datatype WeightRow = WeightRow(region: string, cell: Cell)

  // Columns of the table with the region column compressed to run offsets.
  datatype Weights = Weights(cells: seq<Cell>, regionIds: seq<string>, offsets: seq<nat>)
  {
    predicate RunInBounds(k: nat)
      requires k + 1 < |offsets|
    {
      offsets[k] <= offsets[k + 1] <= |cells|
    }

    /** What the slicing loops index with: one start per region and a final end. */
    ghost predicate Sliceable()
    {
      |regionIds| < |offsets| && forall k :: 0 <= k < |regionIds| ==> RunInBounds(k)
    }

    function Slice(k: nat): seq<Cell>
      requires Sliceable() && k < |regionIds|
    {
      assert RunInBounds(k);
      cells[offsets[k]..offsets[k + 1]]
    }
  }

  datatype TableError = NotGroupedByRegion

  function Ids(table: seq<WeightRow>): (ids: seq<string>)
    ensures |ids| == |table|
  {
    seq(|table|, i requires 0 <= i < |table| => table[i].region)
  }

  function Cells(table: seq<WeightRow>): (cells: seq<Cell>)
    ensures |cells| == |table|
  {
    seq(|table|, i requires 0 <= i < |table| => table[i].cell)
  }

  // Distinct values in order of first appearance.
  function Dictionary(ids: seq<string>): (d: seq<string>)
    ensures forall x :: x in d <==> x in ids
    ensures Distinct(d)
  {
    if ids == [] then []
    else
      var last := ids[|ids| - 1];
      assert ids == ids[..|ids| - 1] + [last];
      var d := Dictionary(ids[..|ids| - 1]);
      if last in d then d else d + [last]
  }

  function IndexOf(d: seq<string>, x: string): (i: nat)
    requires x in d
    ensures i < |d| && d[i] == x
    ensures forall j :: 0 <= j < i ==> d[j] != x
  {
    if d[0] == x then 0 else 1 + IndexOf(d[1..], x)
  }

  function Codes(ids: seq<string>): (codes: seq<nat>)
    ensures |codes| == |ids|
  {
    seq(|ids|, i requires 0 <= i < |ids| => IndexOf(Dictionary(ids), ids[i]))
  }

  predicate NonDecreasing(codes: seq<nat>)
  {
    forall i, j | 0 <= i < |codes| && 0 <= j < |codes| :: j == i + 1 ==> codes[i] <= codes[j]
  }

  // Indices at which a new run begins; a leading start even for an empty column.
  function Starts(codes: seq<nat>): (starts: seq<nat>)
    ensures starts != []
  {
    if |codes| <= 1 then [0]
    else
      var n := |codes|;
      Starts(codes[..n - 1]) + if codes[n - 1] != codes[n - 2] then [n - 1] else []
  }

  predicate RowLeq(a: WeightRow, b: WeightRow)
  {
    if a.region != b.region then TextLeq(a.region, b.region)
    else if a.cell.row != b.cell.row then a.cell.row < b.cell.row
    else a.cell.col <= b.cell.col
  }

  function FromTable(table: seq<WeightRow>, sortedInput: bool): Result<Weights, TableError>
  {
    var rows := if sortedInput then table else SortBy(table, RowLeq);
    var codes := Codes(Ids(rows));
    if !NonDecreasing(codes) then Err(NotGroupedByRegion)
    else Ok(Weights(Cells(rows), Dictionary(Ids(rows)), Starts(codes) + [|codes|]))
  }

  // ---------- What is accepted ----------

  /** Every region's rows are contiguous. */
  ghost predicate Grouped(ids: seq<string>)
  {
    forall i, j, k :: 0 <= i <= j <= k < |ids| && ids[i] == ids[k] ==> ids[j] == ids[i]
  }

  lemma CodesNameIds(ids: seq<string>, i: nat, j: nat)
    requires i < |ids| && j < |ids|
    ensures Codes(ids)[i] == Codes(ids)[j] <==> ids[i] == ids[j]
  {
  }

  lemma {:induction false} AcceptedIsGrouped(ids: seq<string>)
    requires NonDecreasing(Codes(ids))
    ensures Grouped(ids)
  {
    forall i, j, k | 0 <= i <= j <= k < |ids| && ids[i] == ids[k]
      ensures ids[j] == ids[i]
    {
      Monotone(Codes(ids), i, j);
      Monotone(Codes(ids), j, k);
      CodesNameIds(ids, i, k);
      CodesNameIds(ids, i, j);
    }
  }

  lemma {:induction false} Monotone(codes: seq<nat>, i: nat, j: nat)
    requires NonDecreasing(codes)
    requires i <= j < |codes|
    ensures codes[i] <= codes[j]
    decreases j
  {
    if i < j {
      Monotone(codes, i, j - 1);
    }
  }

  lemma {:induction false} IndexOfPrefix(d: seq<string>, more: seq<string>, x: string)
    requires x in d
    ensures x in d + more
    ensures IndexOf(d + more, x) == IndexOf(d, x)
  {
    var i, j := IndexOf(d, x), IndexOf(d + more, x);
    assert (d + more)[i] == x;
    assert j < |d| ==> (d + more)[j] == d[j];
  }

  function RunEnd(starts: seq<nat>, n: nat, k: nat): nat
    requires k < |starts|
  {
    if k + 1 < |starts| then starts[k + 1] else n
  }

  /** Run k is exactly the rows of region k, and the runs tile the rows. */
  ghost predicate RunsMatch(ids: seq<string>, d: seq<string>, starts: seq<nat>)
  {
    && |starts| == |d| > 0
    && starts[0] == 0
    && (forall k :: 0 <= k < |starts| ==> starts[k] < RunEnd(starts, |ids|, k) <= |ids|)
    && forall k, i :: 0 <= k < |starts| && 0 <= i < |ids| ==>
         (ids[i] == d[k] <==> starts[k] <= i < RunEnd(starts, |ids|, k))
  }

  lemma LastRun(ids: seq<string>, d: seq<string>, starts: seq<nat>)
    requires RunsMatch(ids, d, starts)
    ensures ids != [] && ids[|ids| - 1] == d[|d| - 1]
  {
    var k := |starts| - 1;
    assert RunEnd(starts, |ids|, k) == |ids|;
    assert starts[k] <= |ids| - 1;
  }

  lemma LongerRun(ids: seq<string>, d: seq<string>, starts: seq<nat>, last: string)
    requires RunsMatch(ids, d, starts) && Distinct(d)
    requires last == d[|d| - 1]
    ensures RunsMatch(ids + [last], d, starts)
  {
    var longer, n := ids + [last], |ids|;
    forall k, i | 0 <= k < |starts| && 0 <= i < |longer|
      ensures starts[k] < RunEnd(starts, |longer|, k) <= |longer|
      ensures longer[i] == d[k] <==> starts[k] <= i < RunEnd(starts, |longer|, k)
    {
      assert starts[k] < RunEnd(starts, n, k) <= n;
      assert i < n ==> longer[i] == ids[i];
    }
  }

  lemma NewRun(ids: seq<string>, d: seq<string>, starts: seq<nat>, last: string)
    requires RunsMatch(ids, d, starts)
    requires last !in d && last !in ids
    ensures RunsMatch(ids + [last], d + [last], starts + [|ids|])
  {
    var longer, n := ids + [last], |ids|;
    var d', starts' := d + [last], starts + [n];
    forall k, i | 0 <= k < |starts'| && 0 <= i < |longer|
      ensures starts'[k] < RunEnd(starts', |longer|, k) <= |longer|
      ensures longer[i] == d'[k] <==> starts'[k] <= i < RunEnd(starts', |longer|, k)
    {
      if k < |starts| {
        assert starts[k] < RunEnd(starts, n, k) <= n;
        assert RunEnd(starts', |longer|, k) == RunEnd(starts, n, k);
        assert i < n ==> longer[i] == ids[i];
      }
    }
  }

  lemma {:induction false} CodesSnoc(before: seq<string>, last: string)
    ensures var d := Dictionary(before);
      && Dictionary(before + [last]) == d + (if last in d then [] else [last])
      && Codes(before + [last]) == Codes(before) + [if last in d then IndexOf(d, last) else |d|]
  {
    var ids, d := before + [last], Dictionary(before);
    assert ids[..|ids| - 1] == before;
    var more := if last in d then [] else [last];
    assert Dictionary(ids) == d + more;
    forall i | 0 <= i < |before|
      ensures Codes(ids)[i] == Codes(before)[i]
    {
      assert ids[i] == before[i];
      IndexOfPrefix(d, more, ids[i]);
    }
    if last in d {
      assert d + more == d;
    } else {
      assert (d + more)[|d|] == last;
    }
  }

  lemma {:induction false} StartsSnoc(codes: seq<nat>, c: nat)
    requires codes != []
    ensures Starts(codes + [c]) == Starts(codes) + if c != codes[|codes| - 1] then [|codes|] else []
  {
    assert (codes + [c])[..|codes|] == codes;
  }

  lemma {:induction false} GroupedIsAccepted(ids: seq<string>)
    requires Grouped(ids) && ids != []
    ensures NonDecreasing(Codes(ids))
    ensures RunsMatch(ids, Dictionary(ids), Starts(Codes(ids)))
    decreases |ids|
  {
    var n := |ids|;
    var before, last := ids[..n - 1], ids[n - 1];
    assert ids == before + [last];
    CodesSnoc(before, last);
    if n == 1 {
      assert Dictionary(ids) == [last] && Codes(ids) == [0] && Starts([0]) == [0];
      assert RunEnd([0], 1, 0) == 1;
    } else {
      GroupedIsAccepted(before);
      AcceptLonger(before, last);
    }
  }

  lemma {:induction false} AcceptLonger(before: seq<string>, last: string)
    requires Grouped(before + [last]) && before != []
    requires NonDecreasing(Codes(before))
    requires RunsMatch(before, Dictionary(before), Starts(Codes(before)))
    ensures var ids := before + [last];
      NonDecreasing(Codes(ids)) && RunsMatch(ids, Dictionary(ids), Starts(Codes(ids)))
  {
    var d, codes := Dictionary(before), Codes(before);
    LastRun(before, d, Starts(codes));
    CodesSnoc(before, last);
    if last == d[|d| - 1] {
      SameCode(d, codes, before);
      assert d + [] == d;
      AppendCode(codes, |d| - 1);
      LongerRun(before, d, Starts(codes), last);
    } else {
      LastIsNew(before, last);
      SameCode(d, codes, before);
      AppendCode(codes, |d|);
      NewRun(before, d, Starts(codes), last);
    }
  }

  lemma {:induction false} SameCode(d: seq<string>, codes: seq<nat>, ids: seq<string>)
    requires ids != [] && d == Dictionary(ids) && codes == Codes(ids)
    requires d != [] && ids[|ids| - 1] == d[|d| - 1]
    ensures IndexOf(d, d[|d| - 1]) == |d| - 1
    ensures codes[|codes| - 1] == |d| - 1
  {
  }

  lemma {:induction false} AppendCode(codes: seq<nat>, c: nat)
    requires codes != [] && NonDecreasing(codes) && codes[|codes| - 1] <= c
    ensures NonDecreasing(codes + [c])
    ensures Starts(codes + [c]) == if c == codes[|codes| - 1] then Starts(codes) else Starts(codes) + [|codes|]
  {
    StartsSnoc(codes, c);
    NonDecreasingSnoc(codes, c);
  }

  lemma NonDecreasingSnoc(codes: seq<nat>, c: nat)
    requires codes != [] && NonDecreasing(codes) && codes[|codes| - 1] <= c
    ensures NonDecreasing(codes + [c])
  {
    var longer := codes + [c];
    forall i, j | 0 <= i < |longer| && 0 <= j < |longer| && j == i + 1
      ensures longer[i] <= longer[j]
    {
      if j < |codes| {
        assert longer[i] == codes[i] && longer[j] == codes[j];
      } else {
        assert longer[i] == codes[|codes| - 1] && longer[j] == c;
      }
    }
  }

  lemma LastIsNew(before: seq<string>, last: string)
    requires Grouped(before + [last]) && before != [] && before[|before| - 1] != last
    ensures last !in before
  {
    var ids, n := before + [last], |before|;
    forall i | 0 <= i < n
      ensures before[i] != last
    {
      assert ids[i] == before[i] && ids[n - 1] == before[n - 1] && ids[n] == last;
    }
  }

  function RowsOf(table: seq<WeightRow>, region: string): seq<Cell>
  {
    if table == [] then []
    else (if table[0].region == region then [table[0].cell] else []) + RowsOf(table[1..], region)
  }

  lemma {:induction false} NoRowsOf(table: seq<WeightRow>, region: string)
    requires forall i :: 0 <= i < |table| ==> table[i].region != region
    ensures RowsOf(table, region) == []
  {
    if table != [] {
      NoRowsOf(table[1..], region);
    }
  }

  lemma {:induction false} RowsOfPrefix(table: seq<WeightRow>, region: string, hi: nat)
    requires hi <= |table|
    requires forall i :: 0 <= i < |table| ==> (table[i].region == region <==> i < hi)
    ensures RowsOf(table, region) == Cells(table)[..hi]
  {
    if hi == 0 {
      NoRowsOf(table, region);
    } else {
      RowsOfPrefix(table[1..], region, hi - 1);
      assert Cells(table)[..hi] == [table[0].cell] + Cells(table[1..])[..hi - 1];
    }
  }

  lemma {:induction false} RowsOfIsSlice(table: seq<WeightRow>, region: string, lo: nat, hi: nat)
    requires lo <= hi <= |table|
    requires forall i :: 0 <= i < |table| ==> (table[i].region == region <==> lo <= i < hi)
    ensures RowsOf(table, region) == Cells(table)[lo..hi]
  {
    if lo == 0 {
      RowsOfPrefix(table, region, hi);
    } else {
      RowsOfIsSlice(table[1..], region, lo - 1, hi - 1);
      assert Cells(table)[lo..hi] == Cells(table[1..])[lo - 1..hi - 1];
    }
  }

  /** A table passed as sorted is accepted exactly when every region's rows are
      contiguous; ascending region order is not needed. */
  lemma AcceptedExactlyWhenGrouped(table: seq<WeightRow>)
    ensures FromTable(table, true).Ok? <==> Grouped(Ids(table))
  {
    if FromTable(table, true).Ok? {
      AcceptedIsGrouped(Ids(table));
    }
    if Grouped(Ids(table)) && table != [] {
      GroupedIsAccepted(Ids(table));
    }
  }

  ghost predicate HasRegion(table: seq<WeightRow>, region: string)
  {
    exists i :: 0 <= i < |table| && table[i].region == region
  }

  // One run per listed region, each run that region's rows.
  ghost predicate RunsAreFilters(w: Weights, table: seq<WeightRow>)
  {
    && w.Sliceable()
    && forall k :: 0 <= k < |w.regionIds| ==> w.Slice(k) != [] && w.Slice(k) == RowsOf(table, w.regionIds[k])
  }

  // The k-th run is non-empty, inside the table, and that region's rows.
  ghost predicate RunIsFilter(w: Weights, table: seq<WeightRow>, k: nat)
    requires k < |w.regionIds| && k + 1 < |w.offsets|
  {
    && w.offsets[k] < w.offsets[k + 1] <= |table|
    && Cells(table)[w.offsets[k]..w.offsets[k + 1]] == RowsOf(table, w.regionIds[k])
  }

  lemma SlicesFollow(w: Weights, table: seq<WeightRow>)
    requires |w.offsets| == |w.regionIds| + 1 && w.cells == Cells(table)
    requires forall k :: 0 <= k < |w.regionIds| ==> RunIsFilter(w, table, k)
    ensures RunsAreFilters(w, table)
  {
    forall k | 0 <= k < |w.regionIds|
      ensures w.RunInBounds(k)
    {
      assert RunIsFilter(w, table, k);
    }
    assert w.Sliceable();
    forall k | 0 <= k < |w.regionIds|
      ensures w.Slice(k) != [] && w.Slice(k) == RowsOf(table, w.regionIds[k])
    {
      assert RunIsFilter(w, table, k);
    }
  }

  /** The offsets of an accepted table partition its rows, and cutting at them gives
      the same cells, in the same order, as filtering the table by region. */
  lemma SlicesAreFilters(table: seq<WeightRow>)
    requires FromTable(table, true).Ok?
    ensures var w := FromTable(table, true).value;
      && RunsAreFilters(w, table)
      && Distinct(w.regionIds)
      && (forall r :: r in w.regionIds <==> HasRegion(table, r))
      && (if table == [] then w.regionIds == [] && w.offsets == [0, 0] else |w.offsets| == |w.regionIds| + 1)
      && w.offsets[0] == 0 && w.offsets[|w.offsets| - 1] == |table|
  {
    var w := FromTable(table, true).value;
    AcceptedIdsListRegions(table);
    if table != [] {
      AcceptedShape(table);
      forall k | 0 <= k < |w.regionIds|
        ensures RunIsFilter(w, table, k)
      {
        EachSliceIsFilter(table, k);
      }
      SlicesFollow(w, table);
    }
  }

  lemma {:induction false} EachSliceIsFilter(table: seq<WeightRow>, k: nat)
    requires FromTable(table, true).Ok? && table != [] && k < |FromTable(table, true).value.regionIds|
    ensures var w := FromTable(table, true).value;
      && k + 1 < |w.offsets| && w.offsets[k] < w.offsets[k + 1] <= |table|
      && Cells(table)[w.offsets[k]..w.offsets[k + 1]] == RowsOf(table, w.regionIds[k])
  {
    AcceptedShape(table);
    AcceptedIsGrouped(Ids(table));
    GroupedIsAccepted(Ids(table));
    SliceIsFilter(table, k);
  }

  lemma AcceptedShape(table: seq<WeightRow>)
    requires FromTable(table, true).Ok? && table != []
    ensures var w := FromTable(table, true).value;
      |w.offsets| == |w.regionIds| + 1 && w.offsets[0] == 0 && w.offsets[|w.offsets| - 1] == |table|
  {
    AcceptedIsGrouped(Ids(table));
    GroupedIsAccepted(Ids(table));
  }

  lemma AcceptedIdsListRegions(table: seq<WeightRow>)
    requires FromTable(table, true).Ok?
    ensures Distinct(FromTable(table, true).value.regionIds)
    ensures forall r :: r in FromTable(table, true).value.regionIds <==> HasRegion(table, r)
  {
    var ids, w := Ids(table), FromTable(table, true).value;
    assert forall i :: 0 <= i < |table| ==> ids[i] == table[i].region;
    if table != [] {
      AcceptedIsGrouped(ids);
      GroupedIsAccepted(ids);
    }
    forall r
      ensures r in w.regionIds <==> HasRegion(table, r)
    {
      assert r in w.regionIds <==> r in ids;
    }
  }

  lemma {:induction false} SliceIsFilter(table: seq<WeightRow>, k: nat)
    requires var w := FromTable(table, true);
      w.Ok? && RunsMatch(Ids(table), w.value.regionIds, Starts(Codes(Ids(table)))) && k < |w.value.regionIds|
    ensures var w := FromTable(table, true).value;
      && |w.offsets| == |w.regionIds| + 1
      && w.offsets[k] < w.offsets[k + 1] <= |table|
      && Cells(table)[w.offsets[k]..w.offsets[k + 1]] == RowsOf(table, w.regionIds[k])
  {
    var ids, starts := Ids(table), Starts(Codes(Ids(table)));
    var w := FromTable(table, true).value;
    assert w.offsets == starts + [|ids|];
    assert w.offsets[k + 1] == RunEnd(starts, |ids|, k);
    assert starts[k] < RunEnd(starts, |ids|, k) <= |ids|;
    forall i | 0 <= i < |table|
      ensures table[i].region == w.regionIds[k] <==> w.offsets[k] <= i < w.offsets[k + 1]
    {
      assert ids[i] == table[i].region;
    }
    RowsOfIsSlice(table, w.regionIds[k], w.offsets[k], w.offsets[k + 1]);
  }

  // ---------- Unsorted input ----------

  lemma RowLeqPreorder()
    ensures TotalPreorder(RowLeq)
  {
    TextLeqPreorder();
    forall a: WeightRow, b: WeightRow, c: WeightRow | RowLeq(a, b) && RowLeq(b, c)
      ensures RowLeq(a, c)
    {
      if a.region == c.region && a.region != b.region {
        TextLeqAntisymmetric(a.region, b.region);
      }
    }
  }

  lemma SortedIsGrouped(table: seq<WeightRow>)
    requires SortedBy(table, RowLeq)
    ensures Grouped(Ids(table))
  {
    var ids := Ids(table);
    forall i, j, k | 0 <= i <= j <= k < |ids| && ids[i] == ids[k]
      ensures ids[j] == ids[i]
    {
      if i < j < k {
        assert RowLeq(table[i], table[j]) && RowLeq(table[j], table[k]);
        if ids[j] != ids[i] {
          TextLeqAntisymmetric(ids[i], ids[j]);
        }
      }
    }
  }

  /** Without the sorted flag every table is accepted: the sort groups it. */
  lemma {:induction false} UnsortedInputIsAccepted(table: seq<WeightRow>)
    ensures FromTable(table, false).Ok?
    ensures FromTable(table, false) == FromTable(SortBy(table, RowLeq), true)
  {
    RowLeqPreorder();
    SortSorts(table, RowLeq);
    SortedIsGrouped(SortBy(table, RowLeq));
    AcceptedExactlyWhenGrouped(SortBy(table, RowLeq));
  }
}
