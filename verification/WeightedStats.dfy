/** Weighted mean and weighted quantiles of pooled observations
    (ingestion/tempo/netcdf.py). */
module WeightedStats {
  import opened Prelude

  datatype Sample = Sample(value: real, weight: real)

  // None stands for the source's NaN.
  datatype Stats = Stats(mean: Option<real>, median: Option<real>, p90: Option<real>, count: nat)

  function WeightOf(): Sample -> real { (x: Sample) => x.weight }

  function Moment(): Sample -> real { (x: Sample) => x.value * x.weight }

  function WeightUpTo(v: real): Sample -> real
  {
    (x: Sample) => if x.value <= v then x.weight else 0.0
  }

  predicate ByValue(a: Sample, b: Sample) { a.value <= b.value }

  ghost predicate NonNegative(s: seq<Sample>)
  {
    forall x :: x in s ==> x.weight >= 0.0
  }

  /** Any order a sort by value may return; ties may fall either way. */
  ghost predicate IsArrangement(samples: seq<Sample>, arranged: seq<Sample>)
  {
    multiset(samples) == multiset(arranged) && SortedBy(arranged, ByValue)
  }

  function Cumulative(s: seq<Sample>): (r: seq<real>)
    ensures |r| == |s|
  {
    if s == [] then []
    else
      var before := Cumulative(s[..|s| - 1]);
      before + [(if before == [] then 0.0 else before[|before| - 1]) + s[|s| - 1].weight]
  }

  // Leftmost insertion point in an ascending sequence.
  function SearchLeft(cumulative: seq<real>, target: real): (i: nat)
    ensures i <= |cumulative|
    ensures forall j :: 0 <= j < i ==> cumulative[j] < target
    ensures i < |cumulative| ==> target <= cumulative[i]
  {
    if cumulative == [] || target <= cumulative[0] then 0
    else 1 + SearchLeft(cumulative[1..], target)
  }

  function QuantileIn(arranged: seq<Sample>, target: real): real
    requires arranged != []
  {
    var i := SearchLeft(Cumulative(arranged), target);
    arranged[if i < |arranged| - 1 then i else |arranged| - 1].value
  }

  function Half(total: real): real { total / 2.0 }

  function NineTenths(total: real): real { total * 0.9 }

  lemma TargetsWithin(total: real)
    requires total > 0.0
    ensures 0.0 < Half(total) <= NineTenths(total) <= total
  {
  }

  function StatsOver(samples: seq<Sample>, arranged: seq<Sample>): Stats
    requires |samples| == |arranged|
  {
    var total := Sum(samples, WeightOf());
    if samples == [] || total <= 0.0 then Stats(None, None, None, |samples|)
    else
      Stats(
        Some(Sum(samples, Moment()) / total),
        Some(QuantileIn(arranged, Half(total))),
        Some(QuantileIn(arranged, NineTenths(total))),
        |samples|)
  }

  function Compute(samples: seq<Sample>): Stats
  {
    StatsOver(samples, SortBy(samples, ByValue))
  }

  // ---------- What the statistics are, without sorting ----------

  /** q is the least data value whose cumulative weight reaches the target. */
  ghost predicate IsQuantile(samples: seq<Sample>, target: real, q: real)
  {
    && (exists x :: x in samples && x.value == q)
    && target <= Sum(samples, WeightUpTo(q))
    && forall x :: x in samples && x.value < q ==> Sum(samples, WeightUpTo(x.value)) < target
  }

  lemma QuantileUnique(samples: seq<Sample>, target: real, p: real, q: real)
    requires IsQuantile(samples, target, p) && IsQuantile(samples, target, q)
    ensures p == q
  {
    var x :| x in samples && x.value == p;
    var y :| y in samples && y.value == q;
  }

  lemma {:induction false} CumulativeIsPrefixWeight(s: seq<Sample>, i: nat)
    requires i < |s|
    ensures Cumulative(s)[i] == Sum(s[..i + 1], WeightOf())
    decreases |s|
  {
    var init := s[..|s| - 1];
    if i < |s| - 1 {
      CumulativeIsPrefixWeight(init, i);
      assert init[..i + 1] == s[..i + 1];
    } else {
      assert s[..i + 1] == s && s == init + [s[|s| - 1]];
      SumAppend(init, [s[|s| - 1]], WeightOf());
      assert Sum([s[|s| - 1]], WeightOf()) == s[|s| - 1].weight;
      if init != [] {
        CumulativeIsPrefixWeight(init, |init| - 1);
        assert init[..|init|] == init;
      }
    }
  }

  // The weight at or below a value is a prefix sum of any arrangement.
  lemma {:induction false} WeightUpToIsPrefix(s: seq<Sample>, v: real, n: nat)
    requires n <= |s|
    requires forall j :: 0 <= j < n ==> s[j].value <= v
    requires forall j :: n <= j < |s| ==> v < s[j].value
    ensures Sum(s, WeightUpTo(v)) == Sum(s[..n], WeightOf())
  {
    if s != [] {
      if n > 0 {
        WeightUpToIsPrefix(s[1..], v, n - 1);
        assert s[..n][1..] == s[1..][..n - 1];
      } else {
        assert v < s[0].value;
        WeightUpToIsPrefix(s[1..], v, 0);
        assert s[..0] == [] && s[1..][..0] == [];
      }
    }
  }

  lemma {:induction false} PrefixWeightsGrow(s: seq<Sample>, m: nat, n: nat)
    requires m <= n <= |s|
    requires NonNegative(s)
    ensures Sum(s[..m], WeightOf()) <= Sum(s[..n], WeightOf())
  {
    assert s[..n] == s[..m] + s[m..n];
    SumAppend(s[..m], s[m..n], WeightOf());
    SumMonotone(s[m..n], (x: Sample) => 0.0, WeightOf());
    SumScale(s[m..n], WeightOf(), (x: Sample) => 0.0, 0.0);
  }

  // The number of elements at or below v in an arrangement.
  function CountUpTo(s: seq<Sample>, v: real): (n: nat)
    ensures n <= |s|
  {
    if s == [] || s[0].value > v then 0 else 1 + CountUpTo(s[1..], v)
  }

  lemma {:induction false} CountUpToSplits(s: seq<Sample>, v: real)
    requires SortedBy(s, ByValue)
    ensures forall j :: 0 <= j < CountUpTo(s, v) ==> s[j].value <= v
    ensures forall j :: CountUpTo(s, v) <= j < |s| ==> v < s[j].value
  {
    if s != [] {
      if s[0].value > v {
        forall j | 0 <= j < |s|
          ensures v < s[j].value
        {
          assert j == 0 || ByValue(s[0], s[j]);
        }
      } else {
        CountUpToSplits(s[1..], v);
        var n := CountUpTo(s[1..], v);
        forall j | 0 <= j < |s|
          ensures j < n + 1 ==> s[j].value <= v
          ensures n + 1 <= j ==> v < s[j].value
        {
          assert j > 0 ==> s[j] == s[1..][j - 1];
        }
      }
    }
  }

  lemma ArrangementKeepsSigns(samples: seq<Sample>, arranged: seq<Sample>)
    requires IsArrangement(samples, arranged) && NonNegative(samples)
    ensures |samples| == |arranged| && NonNegative(arranged)
    ensures forall x :: x in samples <==> x in arranged
  {
    MultisetLength(samples, arranged);
    forall x ensures x in samples <==> x in arranged {
      assert x in samples <==> x in multiset(samples);
      assert x in arranged <==> x in multiset(arranged);
    }
  }

  // Cumulative weight up to a value, read off the arrangement as a prefix.
  lemma {:induction false} WeightUpToArranged(samples: seq<Sample>, arranged: seq<Sample>, v: real)
    requires IsArrangement(samples, arranged)
    ensures Sum(samples, WeightUpTo(v)) == Sum(arranged[..CountUpTo(arranged, v)], WeightOf())
  {
    SumPermutation(samples, arranged, WeightUpTo(v));
    CountUpToSplits(arranged, v);
    WeightUpToIsPrefix(arranged, v, CountUpTo(arranged, v));
  }

  lemma {:induction false} FoundReachesTarget(samples: seq<Sample>, arranged: seq<Sample>, target: real, i: nat)
    requires IsArrangement(samples, arranged) && NonNegative(arranged)
    requires i < |arranged| && target <= Cumulative(arranged)[i]
    ensures target <= Sum(samples, WeightUpTo(arranged[i].value))
  {
    var q := arranged[i].value;
    WeightUpToArranged(samples, arranged, q);
    CountUpToSplits(arranged, q);
    PrefixWeightsGrow(arranged, i + 1, CountUpTo(arranged, q));
    CumulativeIsPrefixWeight(arranged, i);
  }

  lemma {:induction false} SmallerFallsShort(samples: seq<Sample>, arranged: seq<Sample>, target: real, i: nat, v: real)
    requires IsArrangement(samples, arranged) && 0.0 < target
    requires i < |arranged| && (forall j :: 0 <= j < i ==> Cumulative(arranged)[j] < target)
    requires v < arranged[i].value
    ensures Sum(samples, WeightUpTo(v)) < target
  {
    WeightUpToArranged(samples, arranged, v);
    CountUpToSplits(arranged, v);
    var k := CountUpTo(arranged, v);
    assert k <= i;
    if k > 0 {
      CumulativeIsPrefixWeight(arranged, k - 1);
    } else {
      assert arranged[..0] == [];
    }
  }

  // The last cumulative weight is the total, so the search stops inside.
  lemma SearchStops(samples: seq<Sample>, arranged: seq<Sample>, target: real) returns (i: nat)
    requires IsArrangement(samples, arranged)
    requires 0.0 < target <= Sum(samples, WeightOf())
    ensures i == SearchLeft(Cumulative(arranged), target) && i < |arranged|
    ensures QuantileIn(arranged, target) == arranged[i].value
  {
    i := SearchLeft(Cumulative(arranged), target);
    SumPermutation(samples, arranged, WeightOf());
    CumulativeIsPrefixWeight(arranged, |arranged| - 1);
    assert arranged[..|arranged|] == arranged;
  }

  /** Sorting, accumulating and searching finds the least data value whose
      cumulative weight reaches the target, and the index clamp never fires. */
  lemma {:induction false} QuantileInIsQuantile(samples: seq<Sample>, arranged: seq<Sample>, target: real)
    requires IsArrangement(samples, arranged)
    requires NonNegative(samples)
    requires 0.0 < target <= Sum(samples, WeightOf())
    ensures samples != []
    ensures SearchLeft(Cumulative(arranged), target) < |arranged|
    ensures IsQuantile(samples, target, QuantileIn(arranged, target))
  {
    ArrangementKeepsSigns(samples, arranged);
    var i := SearchStops(samples, arranged, target);
    FoundReachesTarget(samples, arranged, target, i);
    assert arranged[i] in samples;
    forall x | x in samples && x.value < arranged[i].value
      ensures Sum(samples, WeightUpTo(x.value)) < target
    {
      SmallerFallsShort(samples, arranged, target, i, x.value);
    }
  }

  /** The statistics are a function of the multiset of pairs: neither the order in
      which the samples were pooled nor the way the sort breaks ties matters. */
  lemma OrderDoesNotMatter(s: seq<Sample>, sortedS: seq<Sample>, t: seq<Sample>, sortedT: seq<Sample>)
    requires NonNegative(s)
    requires multiset(s) == multiset(t)
    requires IsArrangement(s, sortedS) && IsArrangement(t, sortedT)
    ensures |s| == |sortedS| == |t| == |sortedT|
    ensures StatsOver(s, sortedS) == StatsOver(t, sortedT)
  {
    MultisetLength(s, t);
    MultisetLength(s, sortedS);
    MultisetLength(t, sortedT);
    assert IsArrangement(s, sortedT);
    SumPermutation(s, t, WeightOf());
    SumPermutation(s, t, Moment());
    var total := Sum(s, WeightOf());
    if total > 0.0 {
      TargetsWithin(total);
      QuantilesAgree(s, sortedS, sortedT, Half(total));
      QuantilesAgree(s, sortedS, sortedT, NineTenths(total));
    }
  }

  lemma {:induction false} QuantilesAgree(s: seq<Sample>, a: seq<Sample>, b: seq<Sample>, target: real)
    requires NonNegative(s)
    requires IsArrangement(s, a) && IsArrangement(s, b)
    requires 0.0 < target <= Sum(s, WeightOf())
    ensures a != [] && b != []
    ensures QuantileIn(a, target) == QuantileIn(b, target)
  {
    QuantileInIsQuantile(s, a, target);
    QuantileInIsQuantile(s, b, target);
    QuantileUnique(s, target, QuantileIn(a, target), QuantileIn(b, target));
  }

  ghost function TotalWeight(s: seq<Sample>): real { Sum(s, (x: Sample) => x.weight) }

  ghost function TotalMoment(s: seq<Sample>): real { Sum(s, (x: Sample) => x.value * x.weight) }

  ghost predicate Balances(mean: real, total: real, moment: real) { mean * total == moment }

  /** Statistics r of the pairs s: the mean times the total weight is the sum of
      the values times their weights, the median and the 90th percentile are the
      least data values whose cumulative weight reaches half and nine tenths of the
      total, and without positive weight there is none of the three. */
  ghost predicate Summarizes(r: Stats, s: seq<Sample>)
  {
    var total := TotalWeight(s);
    && r.count == |s|
    && (total <= 0.0 ==> r.mean.None? && r.median.None? && r.p90.None?)
    && (total > 0.0 ==>
          && r.mean.Some? && r.median.Some? && r.p90.Some?
          && Balances(r.mean.value, total, TotalMoment(s))
          && IsQuantile(s, total / 2.0, r.median.value)
          && IsQuantile(s, 0.9 * total, r.p90.value))
  }

  lemma ComputeSummarizes(s: seq<Sample>)
    requires NonNegative(s)
    ensures Summarizes(Compute(s), s)
  {
    SumAgree(s, WeightOf(), (x: Sample) => x.weight);
    SumAgree(s, Moment(), (x: Sample) => x.value * x.weight);
    if TotalWeight(s) > 0.0 {
      ComputedQuantiles(s, TotalWeight(s));
      QuotientBalances(TotalMoment(s), TotalWeight(s));
    }
  }

  lemma {:induction false} ComputedQuantiles(s: seq<Sample>, total: real)
    requires NonNegative(s)
    requires total == Sum(s, WeightOf()) && total > 0.0
    ensures Compute(s).median.Some? && IsQuantile(s, total / 2.0, Compute(s).median.value)
    ensures Compute(s).p90.Some? && IsQuantile(s, 0.9 * total, Compute(s).p90.value)
  {
    var a := SortBy(s, ByValue);
    ByValuePreorder();
    SortSorts(s, ByValue);
    TargetsWithin(total);
    QuantileInIsQuantile(s, a, Half(total));
    QuantileInIsQuantile(s, a, NineTenths(total));
  }

  lemma QuotientBalances(m: real, w: real)
    requires w > 0.0
    ensures Balances(m / w, w, m)
  {
  }

  /** The pairs leave one answer only. */
  lemma SummaryUnique(p: Stats, q: Stats, s: seq<Sample>)
    requires Summarizes(p, s) && Summarizes(q, s)
    ensures p == q
  {
    var total := TotalWeight(s);
    if total > 0.0 {
      QuantileUnique(s, total / 2.0, p.median.value, q.median.value);
      QuantileUnique(s, 0.9 * total, p.p90.value, q.p90.value);
      BalanceUnique(p.mean.value, q.mean.value, total, TotalMoment(s));
    }
  }

  lemma BalanceUnique(a: real, b: real, total: real, moment: real)
    requires total > 0.0 && Balances(a, total, moment) && Balances(b, total, moment)
    ensures a == b
  {
    assert (a - b) * total == 0.0;
  }

  lemma ByValuePreorder()
    ensures TotalPreorder(ByValue)
  {
  }

  lemma ComputeIsAnyArrangement(s: seq<Sample>, t: seq<Sample>, arranged: seq<Sample>)
    requires NonNegative(s)
    requires multiset(s) == multiset(t)
    requires IsArrangement(t, arranged)
    ensures |t| == |arranged|
    ensures Compute(s) == StatsOver(t, arranged)
  {
    ByValuePreorder();
    SortSorts(s, ByValue);
    OrderDoesNotMatter(s, SortBy(s, ByValue), t, arranged);
  }

  lemma ComputePermutation(s: seq<Sample>, t: seq<Sample>)
    requires NonNegative(s)
    requires multiset(s) == multiset(t)
    ensures Compute(s) == Compute(t)
  {
    ByValuePreorder();
    SortSorts(t, ByValue);
    ComputeIsAnyArrangement(s, t, SortBy(t, ByValue));
  }

  /** min <= median <= p90 <= max and the mean lies between the extremes. */
  lemma {:induction false} StatsAreOrdered(s: seq<Sample>, low: real, high: real)
    requires NonNegative(s)
    requires 0.0 < Sum(s, WeightOf())
    requires forall x :: x in s ==> low <= x.value <= high
    ensures var r := Compute(s);
      && r.mean.Some? && r.median.Some? && r.p90.Some?
      && low <= r.median.value <= r.p90.value <= high
      && low <= r.mean.value <= high
  {
    var a := SortBy(s, ByValue);
    var total := Sum(s, WeightOf());
    ByValuePreorder();
    SortSorts(s, ByValue);
    TargetsWithin(total);
    QuantilesInOrder(s, a, Half(total), NineTenths(total), low, high);
    MeanBounds(s, low, high);
  }

  lemma {:induction false} QuantilesInOrder(s: seq<Sample>, a: seq<Sample>, first: real, second: real, low: real, high: real)
    requires IsArrangement(s, a) && NonNegative(s)
    requires 0.0 < first <= second <= Sum(s, WeightOf())
    requires forall x :: x in s ==> low <= x.value <= high
    ensures a != []
    ensures low <= QuantileIn(a, first) <= QuantileIn(a, second) <= high
  {
    QuantileInIsQuantile(s, a, first);
    QuantileInIsQuantile(s, a, second);
    QuantileMonotone(s, first, QuantileIn(a, first), second, QuantileIn(a, second));
  }

  lemma QuantileMonotone(s: seq<Sample>, low: real, p: real, high: real, q: real)
    requires low <= high
    requires IsQuantile(s, low, p) && IsQuantile(s, high, q)
    ensures p <= q
  {
    var x :| x in s && x.value == q;
    assert x.value < p ==> Sum(s, WeightUpTo(x.value)) < low;
  }

  lemma {:induction false} MeanBounds(s: seq<Sample>, low: real, high: real)
    requires NonNegative(s)
    requires 0.0 < Sum(s, WeightOf())
    requires forall x :: x in s ==> low <= x.value <= high
    ensures low <= Sum(s, Moment()) / Sum(s, WeightOf()) <= high
  {
    MomentBounds(s, low, high);
    QuotientBounds(Sum(s, Moment()), Sum(s, WeightOf()), low, high);
  }

  function Scale(c: real, w: real): real { c * w }

  lemma {:induction false} MomentBounds(s: seq<Sample>, low: real, high: real)
    requires NonNegative(s)
    requires forall x :: x in s ==> low <= x.value <= high
    ensures Scale(low, Sum(s, WeightOf())) <= Sum(s, Moment()) <= Scale(high, Sum(s, WeightOf()))
  {
    if s == [] {
      ScaleZero(low);
      ScaleZero(high);
    } else {
      var x, rest := s[0], s[1..];
      MomentBounds(rest, low, high);
      var w, weights := x.weight, Sum(rest, WeightOf());
      ScaleAdds(low, w, weights);
      ScaleAdds(high, w, weights);
      ScaleGrows(low, x.value, w);
      ScaleGrows(x.value, high, w);
      assert Sum(s, Moment()) == Scale(x.value, w) + Sum(rest, Moment());
    }
  }

  lemma ScaleZero(c: real)
    ensures Scale(c, 0.0) == 0.0
  {
  }

  lemma ScaleAdds(c: real, w: real, weights: real)
    ensures Scale(c, w + weights) == Scale(c, w) + Scale(c, weights)
  {
  }

  lemma ScaleGrows(c: real, v: real, w: real)
    requires c <= v && 0.0 <= w
    ensures Scale(c, w) <= Scale(v, w)
  {
  }

  lemma QuotientBounds(m: real, w: real, low: real, high: real)
    requires 0.0 < w && Scale(low, w) <= m <= Scale(high, w)
    ensures low <= m / w <= high
  {
    var q := m / w;
    assert q * w == m;
    assert q < low ==> (low - q) * w > 0.0;
    assert q > high ==> (q - high) * w > 0.0;
  }
}
