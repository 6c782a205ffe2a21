/** Assignment of new tracks to the episodes of the previous generation
    (plumegraph/analysis.py). */
module Lineage {
  import opened Prelude
  import opened Tracking
  import Reachability

  datatype PriorEpisode = PriorEpisode(revisionId: string, plumeId: string, geometries: map<int, Shape>)

  datatype Thresholds = Thresholds(temporalOverlapMin: real, meanIouMin: real)

  datatype Overlap = Overlap(temporal: real, meanIou: real)

  datatype Relation = Supersedes | MergedFrom | SplitFrom

  datatype LineageEdge = LineageEdge(priorRevision: string, relation: Relation, overlap: Overlap)

  // (new track index, prior episode index)
  type Pair = (nat, nat)

  type Matches = map<Pair, Overlap>

  // ---------- Matching one track against one episode ----------

  // The last component of an instant stands for it.
  function GeometriesOf(track: seq<Component>): map<int, Shape>
  {
    if track == [] then map[]
    else GeometriesOf(track[..|track| - 1])[track[|track| - 1].time := track[|track| - 1].shape]
  }

  function Iou(s: Survey, before: Shape, after: Shape): real
  {
    var union := s.unionArea(before, after);
    if union != 0.0 then s.intersectionArea(before, after) / union else 0.0
  }

  function IouAt(s: Survey, before: map<int, Shape>, after: map<int, Shape>): int -> real
  {
    (t: int) => if t in before && t in after then Iou(s, before[t], after[t]) else 0.0
  }

  method Ascending(times: set<int>) returns (sorted: seq<int>)
    ensures IsListing(sorted, times)
    ensures forall i, j :: 0 <= i < j < |sorted| ==> sorted[i] < sorted[j]
  {
    sorted := [];
    var todo := times;
    while todo != {}
      invariant todo <= times
      invariant IsListing(sorted, times - todo)
      invariant forall i, j :: 0 <= i < j < |sorted| ==> sorted[i] < sorted[j]
      invariant forall x, y :: x in sorted && y in todo ==> x < y
      decreases todo
    {
      var t := Reachability.Least(todo);
      assert forall i :: 0 <= i < |sorted| ==> sorted[i] in sorted;
      sorted, todo := sorted + [t], todo - {t};
    }
  }

  function Smaller(a: nat, b: nat): (n: nat)
    ensures n > 0
  {
    var least := if a < b then a else b;
    if least < 1 then 1 else least
  }

  ghost function MeanIou(s: Survey, before: map<int, Shape>, after: map<int, Shape>, common: set<int>): real
    requires common != {}
  {
    ListingExists(common);
    var times: seq<int> :| IsListing(times, common);
    Sum(times, IouAt(s, before, after)) / |common| as real
  }

  /** A pair matches when its instants overlap enough and its shapes overlap enough on
      average over the common instants. */
  ghost function MatchOf(previous: PriorEpisode, track: seq<Component>, s: Survey, t: Thresholds): Option<Overlap>
  {
    var after := GeometriesOf(track);
    var common := after.Keys * previous.geometries.Keys;
    if common == {} then None
    else
      var temporal := |common| as real / Smaller(|after|, |previous.geometries|) as real;
      var meanIou := MeanIou(s, previous.geometries, after, common);
      if temporal < t.temporalOverlapMin || meanIou < t.meanIouMin then None
      else Some(Overlap(temporal, meanIou))
  }

  method ComputeMatch(previous: PriorEpisode, track: seq<Component>, s: Survey, t: Thresholds)
    returns (overlap: Option<Overlap>)
    ensures overlap == MatchOf(previous, track, s, t)
    ensures overlap.Some? <==> HaveMatch(previous, track, s, t)
    ensures overlap.Some? ==> IsOverlap(overlap.value, previous, track, s) && Suffices(overlap.value, t)
  {
    HaveMatchExactly(previous, track, s, t);
    var after := GeometriesOf(track);
    var common := Ascending(after.Keys * previous.geometries.Keys);
    ListingLength(common, after.Keys * previous.geometries.Keys);
    if common == [] {
      assert forall x :: x in after.Keys * previous.geometries.Keys ==> x in common;
      assert after.Keys * previous.geometries.Keys == {};
      return None;
    }
    assert common[0] in after.Keys * previous.geometries.Keys;
    var temporal := |common| as real / Smaller(|after|, |previous.geometries|) as real;
    if temporal < t.temporalOverlapMin {
      return None;
    }
    var total := 0.0;
    for i := 0 to |common|
      invariant total == Sum(common[..i], IouAt(s, previous.geometries, after))
    {
      assert common[i] in common;
      assert common[..i + 1] == common[..i] + [common[i]];
      SumAppend(common[..i], [common[i]], IouAt(s, previous.geometries, after));
      assert [common[i]][1..] == [];
      total := total + Iou(s, previous.geometries[common[i]], after[common[i]]);
    }
    assert common[..|common|] == common;
    MeanOfAnyListing(s, previous.geometries, after, common, after.Keys * previous.geometries.Keys);
    var meanIou := total / |common| as real;
    overlap := if meanIou >= t.meanIouMin then Some(Overlap(temporal, meanIou)) else None;
  }

  lemma {:induction false} MeanOfAnyListing(s: Survey, before: map<int, Shape>, after: map<int, Shape>, times: seq<int>, common: set<int>)
    requires IsListing(times, common) && common != {}
    ensures MeanIou(s, before, after, common) == Sum(times, IouAt(s, before, after)) / |common| as real
  {
    ListingExists(common);
    var others: seq<int> :| IsListing(others, common)
      && MeanIou(s, before, after, common) == Sum(others, IouAt(s, before, after)) / |common| as real;
    ListingsArePermutations(times, others, common);
    SumPermutation(times, others, IouAt(s, before, after));
  }

  // ---------- What a match is ----------

  // The shape of every instant of the track, that of its last component there.
  ghost predicate ShapesByInstant(shapes: map<int, Shape>, track: seq<Component>)
  {
    && (forall time :: time in shapes <==> HasInstant(track, time))
    && forall i: nat, time :: IsLastAt(track, time, i) && time in shapes ==> shapes[time] == track[i].shape
  }

  ghost predicate HasInstant(track: seq<Component>, time: int)
  {
    exists i :: 0 <= i < |track| && track[i].time == time
  }

  ghost predicate IsLastAt(track: seq<Component>, time: int, i: nat)
  {
    i < |track| && track[i].time == time && forall j :: i < j < |track| ==> track[j].time != time
  }

  // The share of the union that the shapes of each instant have in common.
  ghost predicate AreShares(shares: seq<real>, times: seq<int>, before: map<int, Shape>, after: map<int, Shape>, s: Survey)
  {
    && |shares| == |times|
    && forall k :: 0 <= k < |times| ==>
         && times[k] in before && times[k] in after
         && IsShare(shares[k], s.intersectionArea(before[times[k]], after[times[k]]),
                    s.unionArea(before[times[k]], after[times[k]]))
  }

  ghost predicate IsAverage(mean: real, total: real, count: nat) { mean * count as real == total }

  ghost predicate IsPortion(portion: real, part: nat, a: nat, b: nat)
  {
    if a <= b then portion * a as real == part as real else portion * b as real == part as real
  }

  /** The temporal overlap is the number of common instants over the smaller number of
      instants of the two, and the mean overlap averages the shares at the common ones. */
  ghost predicate MeasuredOver(o: Overlap, previous: PriorEpisode, s: Survey, after: map<int, Shape>, times: seq<int>,
                               shares: seq<real>)
  {
    && times != [] && IsListing(times, after.Keys * previous.geometries.Keys)
    && AreShares(shares, times, previous.geometries, after, s)
    && IsPortion(o.temporal, |times|, |after|, |previous.geometries|)
    && IsAverage(o.meanIou, Sum(shares, (x: real) => x), |times|)
  }

  ghost predicate IsOverlap(o: Overlap, previous: PriorEpisode, track: seq<Component>, s: Survey)
  {
    exists after: map<int, Shape>, times: seq<int>, shares: seq<real> ::
      ShapesByInstant(after, track) && MeasuredOver(o, previous, s, after, times, shares)
  }

  ghost predicate Suffices(o: Overlap, t: Thresholds)
  {
    o.temporal >= t.temporalOverlapMin && o.meanIou >= t.meanIouMin
  }

  lemma {:induction false} GeometriesByInstant(track: seq<Component>)
    ensures ShapesByInstant(GeometriesOf(track), track)
  {
    if track == [] {
      NoShapes();
    } else {
      var front, last := track[..|track| - 1], track[|track| - 1];
      GeometriesByInstant(front);
      ShapesSnoc(GeometriesOf(front), front, last, GeometriesOf(track), track);
    }
  }

  lemma NoShapes()
    ensures ShapesByInstant(map[], [])
  {
  }

  lemma ShapesSnoc(shapes: map<int, Shape>, front: seq<Component>, last: Component, more: map<int, Shape>, track: seq<Component>)
    requires ShapesByInstant(shapes, front)
    requires track == front + [last] && more == shapes[last.time := last.shape]
    ensures ShapesByInstant(more, track)
  {
    forall time ensures time in more <==> HasInstant(track, time) {
      HasInstantSnoc(front, last, time);
    }
    forall i: nat, time | IsLastAt(track, time, i) && time in more ensures more[time] == track[i].shape {
      if i < |front| {
        assert track[|front|].time != time;
        assert IsLastAt(front, time, i) by {
          assert forall j :: i < j < |front| ==> front[j] == track[j];
        }
      }
    }
  }

  lemma HasInstantSnoc(front: seq<Component>, last: Component, time: int)
    ensures HasInstant(front + [last], time) <==> HasInstant(front, time) || last.time == time
  {
    var track := front + [last];
    if i :| 0 <= i < |front| && front[i].time == time {
      assert track[i].time == time;
    }
    if last.time == time {
      assert track[|front|].time == time;
    }
  }

  lemma {:induction false} LastAt(track: seq<Component>, time: int, i: nat) returns (k: nat)
    requires i < |track| && track[i].time == time
    ensures IsLastAt(track, time, k)
    decreases |track| - i
  {
    if j :| i < j < |track| && track[j].time == time {
      k := LastAt(track, time, j);
    } else {
      k := i;
    }
  }

  lemma ShapesUnique(a: map<int, Shape>, b: map<int, Shape>, track: seq<Component>)
    requires ShapesByInstant(a, track) && ShapesByInstant(b, track)
    ensures a == b
  {
    forall time | time in a ensures time in b && a[time] == b[time] {
      var i :| 0 <= i < |track| && track[i].time == time;
      var k := LastAt(track, time, i);
    }
    forall time ensures time in a <==> time in b {
    }
  }

  lemma SharesAreIous(shares: seq<real>, times: seq<int>, before: map<int, Shape>, after: map<int, Shape>, s: Survey)
    requires |shares| == |times| && forall k :: 0 <= k < |times| ==> times[k] in before && times[k] in after
    ensures AreShares(shares, times, before, after, s) <==>
      forall k :: 0 <= k < |times| ==> shares[k] == IouAt(s, before, after)(times[k])
  {
    forall k | 0 <= k < |times|
      ensures IsShare(shares[k], s.intersectionArea(before[times[k]], after[times[k]]),
                      s.unionArea(before[times[k]], after[times[k]]))
              <==> shares[k] == IouAt(s, before, after)(times[k])
    {
      ShareIsIou(shares[k], s, before[times[k]], after[times[k]]);
      assert IouAt(s, before, after)(times[k]) == Iou(s, before[times[k]], after[times[k]]);
    }
  }

  lemma ShareIsIou(share: real, s: Survey, before: Shape, after: Shape)
    ensures IsShare(share, s.intersectionArea(before, after), s.unionArea(before, after)) <==> share == Iou(s, before, after)
  {
    ShareUnique(s.intersectionArea(before, after), s.unionArea(before, after), share);
  }

  lemma {:induction false} SumOfValues(values: seq<real>, times: seq<int>, f: int -> real)
    requires |values| == |times| && forall k :: 0 <= k < |times| ==> values[k] == f(times[k])
    ensures Sum(values, (x: real) => x) == Sum(times, f)
  {
    if times != [] {
      SumOfValues(values[1..], times[1..], f);
    }
  }

  lemma PortionUnique(portion: real, part: nat, a: nat, b: nat)
    requires a > 0 && b > 0
    ensures IsPortion(portion, part, a, b) <==> portion == part as real / Smaller(a, b) as real
  {
    QuotientUnique(part as real, Smaller(a, b) as real, portion);
  }

  lemma AverageUnique(mean: real, total: real, count: nat)
    requires count > 0
    ensures IsAverage(mean, total, count) <==> mean == total / count as real
  {
    QuotientUnique(total, count as real, mean);
  }

  // The figures of MatchOf, for any listing of the common instants.
  lemma MeasuredExactly(o: Overlap, previous: PriorEpisode, s: Survey, after: map<int, Shape>, times: seq<int>, shares: seq<real>)
    requires times != [] && IsListing(times, after.Keys * previous.geometries.Keys)
    requires AreShares(shares, times, previous.geometries, after, s)
    ensures after.Keys * previous.geometries.Keys != {}
    ensures MeasuredOver(o, previous, s, after, times, shares) <==>
      && o.temporal == |times| as real / Smaller(|after|, |previous.geometries|) as real
      && o.meanIou == MeanIou(s, previous.geometries, after, after.Keys * previous.geometries.Keys)
  {
    var common := after.Keys * previous.geometries.Keys;
    assert times[0] in common;
    ListingLength(times, common);
    SubsetSize({times[0]}, after.Keys);
    SubsetSize({times[0]}, previous.geometries.Keys);
    SharesAreIous(shares, times, previous.geometries, after, s);
    SumOfValues(shares, times, IouAt(s, previous.geometries, after));
    MeanOfAnyListing(s, previous.geometries, after, times, common);
    PortionUnique(o.temporal, |times|, |after|, |previous.geometries|);
    AverageUnique(o.meanIou, Sum(shares, (x: real) => x), |times|);
  }

  /** A track matches an episode exactly when they have an overlap that suffices. */
  lemma MatchOfExactly(previous: PriorEpisode, track: seq<Component>, s: Survey, t: Thresholds, o: Overlap)
    ensures MatchOf(previous, track, s, t) == Some(o) <==> IsOverlap(o, previous, track, s) && Suffices(o, t)
  {
    var after := GeometriesOf(track);
    var common := after.Keys * previous.geometries.Keys;
    GeometriesByInstant(track);
    if common != {} {
      var times := ListingOf(common);
      var shares := SomeShares(s, previous.geometries, after, times, common);
      ListingLength(times, common);
      MeasuredExactly(o, previous, s, after, times, shares);
    }
    if IsOverlap(o, previous, track, s) {
      var after', times, shares :| ShapesByInstant(after', track) && MeasuredOver(o, previous, s, after', times, shares);
      ShapesUnique(after, after', track);
      assert times[0] in common;
      ListingLength(times, common);
      MeasuredExactly(o, previous, s, after, times, shares);
    }
  }

  lemma SomeShares(s: Survey, before: map<int, Shape>, after: map<int, Shape>, times: seq<int>, common: set<int>)
    returns (shares: seq<real>)
    requires common == after.Keys * before.Keys && common != {} && IsListing(times, common)
    ensures times != [] && AreShares(shares, times, before, after, s)
  {
    assert forall x :: x in common ==> x in times;
    ghost var some := Member(common);
    shares := seq(|times|, k requires 0 <= k < |times| => IouAt(s, before, after)(times[k]));
    forall k | 0 <= k < |times| ensures times[k] in before && times[k] in after {
      assert times[k] in times;
    }
    SharesAreIous(shares, times, before, after, s);
  }

  // ---------- Degrees and relations ----------

  /** Every matching pair of a new track and a prior episode. */
  ghost predicate AreMatches(prior: seq<PriorEpisode>, tracks: seq<seq<Component>>, s: Survey, t: Thresholds, m: Matches)
  {
    forall n: nat, p: nat ::
      ((n, p) in m <==> n < |tracks| && p < |prior| && HaveMatch(prior[p], tracks[n], s, t))
      && ((n, p) in m ==> IsOverlap(m[(n, p)], prior[p], tracks[n], s) && Suffices(m[(n, p)], t))
  }

  ghost predicate HaveMatch(previous: PriorEpisode, track: seq<Component>, s: Survey, t: Thresholds)
  {
    exists o :: IsOverlap(o, previous, track, s) && Suffices(o, t)
  }

  lemma HaveMatchExactly(previous: PriorEpisode, track: seq<Component>, s: Survey, t: Thresholds)
    ensures MatchOf(previous, track, s, t).Some? <==> HaveMatch(previous, track, s, t)
    ensures MatchOf(previous, track, s, t).Some? ==>
      IsOverlap(MatchOf(previous, track, s, t).value, previous, track, s) && Suffices(MatchOf(previous, track, s, t).value, t)
  {
    if MatchOf(previous, track, s, t).Some? {
      MatchOfExactly(previous, track, s, t, MatchOf(previous, track, s, t).value);
    }
    if o :| IsOverlap(o, previous, track, s) && Suffices(o, t) {
      MatchOfExactly(previous, track, s, t, o);
    }
  }

  function PairsOfTrack(m: Matches, n: nat): set<Pair> { set k | k in m && k.0 == n }

  function PairsOfPrior(m: Matches, p: nat): set<Pair> { set k | k in m && k.1 == p }

  function RelationOf(m: Matches, pair: Pair): Relation
  {
    if |PairsOfTrack(m, pair.0)| == 1 && |PairsOfPrior(m, pair.1)| == 1 then Supersedes
    else if |PairsOfTrack(m, pair.0)| > 1 then MergedFrom
    else SplitFrom
  }

  /** The edge recorded for a match of the given track and episode. */
  ghost function EdgeOf(prior: seq<PriorEpisode>, m: Matches): Pair -> LineageEdge
  {
    (pair: Pair) =>
      if pair in m && pair.1 < |prior| then LineageEdge(prior[pair.1].revisionId, RelationOf(m, pair), m[pair])
      else LineageEdge("", SplitFrom, Overlap(0.0, 0.0))
  }

  // The edges of track n, in the order its pairs appear.
  function EdgesIn(edgeOf: Pair -> LineageEdge, order: seq<Pair>, n: nat): seq<LineageEdge>
  {
    if order == [] then []
    else
      var init, last := order[..|order| - 1], order[|order| - 1];
      EdgesIn(edgeOf, init, n) + if last.0 == n then [edgeOf(last)] else []
  }

  // ---------- The assignment loops ----------

  predicate PairLess(a: Pair, b: Pair) { a.0 < b.0 || (a.0 == b.0 && a.1 < b.1) }

  ghost predicate InPairOrder(order: seq<Pair>)
  {
    forall i, j :: 0 <= i < j < |order| ==> PairLess(order[i], order[j])
  }

  type Matcher = Pair -> Option<Overlap>

  ghost function MatcherOf(prior: seq<PriorEpisode>, tracks: seq<seq<Component>>, s: Survey, t: Thresholds): Matcher
  {
    (k: Pair) => if k.0 < |tracks| && k.1 < |prior| then MatchOf(prior[k.1], tracks[k.0], s, t) else None
  }

  // The matches among the pairs the nested loops have visited before (n, p).
  ghost predicate MatchesBefore(f: Matcher, trackCount: nat, priorCount: nat, m: Matches, order: seq<Pair>, n: nat, p: nat)
  {
    && n <= trackCount
    && IsListing(order, m.Keys) && InPairOrder(order)
    && (forall k :: k in m ==> k.0 < trackCount && k.1 < priorCount && PairLess(k, (n, p)))
    && forall k: Pair :: k.0 < trackCount && k.1 < priorCount && PairLess(k, (n, p)) ==>
         f(k) == if k in m then Some(m[k]) else None
  }

  lemma VisitPair(f: Matcher, trackCount: nat, priorCount: nat, m: Matches, order: seq<Pair>, n: nat, p: nat)
    requires n < trackCount && p < priorCount
    requires MatchesBefore(f, trackCount, priorCount, m, order, n, p)
    ensures f((n, p)).Some? ==>
      MatchesBefore(f, trackCount, priorCount, m[(n, p) := f((n, p)).value], order + [(n, p)], n, p + 1)
    ensures f((n, p)).None? ==> MatchesBefore(f, trackCount, priorCount, m, order, n, p + 1)
  {
    assert (n, p) !in m;
    assert forall i :: 0 <= i < |order| ==> order[i] in order && order[i] in m;
    assert forall k: Pair :: PairLess(k, (n, p + 1)) <==> PairLess(k, (n, p)) || k == (n, p);
  }

  lemma NextTrack(f: Matcher, trackCount: nat, priorCount: nat, m: Matches, order: seq<Pair>, n: nat)
    requires n < trackCount
    requires MatchesBefore(f, trackCount, priorCount, m, order, n, priorCount)
    ensures MatchesBefore(f, trackCount, priorCount, m, order, n + 1, 0)
  {
    assert forall k: Pair :: k.1 < priorCount ==> (PairLess(k, (n + 1, 0)) <==> PairLess(k, (n, priorCount)));
  }

  // One new track against every prior episode.
  method FindMatchesOf(prior: seq<PriorEpisode>, tracks: seq<seq<Component>>, s: Survey, t: Thresholds, n: nat,
                       before: Matches, visited: seq<Pair>)
    returns (m: Matches, order: seq<Pair>)
    requires n < |tracks|
    requires MatchesBefore(MatcherOf(prior, tracks, s, t), |tracks|, |prior|, before, visited, n, 0)
    ensures MatchesBefore(MatcherOf(prior, tracks, s, t), |tracks|, |prior|, m, order, n + 1, 0)
  {
    ghost var f := MatcherOf(prior, tracks, s, t);
    m, order := before, visited;
    for p := 0 to |prior|
      invariant MatchesBefore(f, |tracks|, |prior|, m, order, n, p)
    {
      var overlap := ComputeMatch(prior[p], tracks[n], s, t);
      m, order := KeepMatch(f, |tracks|, |prior|, n, p, overlap, m, order);
    }
    NextTrack(f, |tracks|, |prior|, m, order, n);
  }

  method KeepMatch(ghost f: Matcher, ghost trackCount: nat, ghost priorCount: nat, n: nat, p: nat, overlap: Option<Overlap>,
                   before: Matches, visited: seq<Pair>)
    returns (m: Matches, order: seq<Pair>)
    requires n < trackCount && p < priorCount && f((n, p)) == overlap
    requires MatchesBefore(f, trackCount, priorCount, before, visited, n, p)
    ensures MatchesBefore(f, trackCount, priorCount, m, order, n, p + 1)
  {
    VisitPair(f, trackCount, priorCount, before, visited, n, p);
    m, order := before, visited;
    if overlap.Some? {
      m, order := m[(n, p) := overlap.value], order + [(n, p)];
    }
  }

  method FindMatches(prior: seq<PriorEpisode>, tracks: seq<seq<Component>>, s: Survey, t: Thresholds)
    returns (m: Matches, order: seq<Pair>)
    ensures AreMatches(prior, tracks, s, t, m)
    ensures IsListing(order, m.Keys) && InPairOrder(order)
    ensures forall k :: k in m ==> k.1 < |prior|
  {
    m, order := map[], [];
    for n := 0 to |tracks|
      invariant MatchesBefore(MatcherOf(prior, tracks, s, t), |tracks|, |prior|, m, order, n, 0)
    {
      m, order := FindMatchesOf(prior, tracks, s, t, n, m, order);
    }
    AllVisited(prior, tracks, s, t, m, order);
  }

  lemma AllVisited(prior: seq<PriorEpisode>, tracks: seq<seq<Component>>, s: Survey, t: Thresholds, m: Matches, order: seq<Pair>)
    requires MatchesBefore(MatcherOf(prior, tracks, s, t), |tracks|, |prior|, m, order, |tracks|, 0)
    ensures AreMatches(prior, tracks, s, t, m)
    ensures IsListing(order, m.Keys) && InPairOrder(order)
    ensures forall k :: k in m ==> k.1 < |prior|
  {
    ghost var f := MatcherOf(prior, tracks, s, t);
    forall n: nat, p: nat
      ensures (n, p) in m <==> n < |tracks| && p < |prior| && HaveMatch(prior[p], tracks[n], s, t)
      ensures (n, p) in m ==> IsOverlap(m[(n, p)], prior[p], tracks[n], s) && Suffices(m[(n, p)], t)
    {
      if n < |tracks| && p < |prior| {
        HaveMatchExactly(prior[p], tracks[n], s, t);
      }
      assert n < |tracks| && p < |prior| ==> PairLess((n, p), (|tracks|, 0)) && f((n, p)) == MatchOf(prior[p], tracks[n], s, t);
    }
  }

  // Degrees of the pairs seen so far, as lengths of the per-index lists.
  ghost predicate Counted(seen: Matches, byNew: map<nat, nat>, byPrior: map<nat, nat>)
  {
    && (forall n: nat :: (if n in byNew then byNew[n] else 0) == |PairsOfTrack(seen, n)|)
    && (forall p: nat :: (if p in byPrior then byPrior[p] else 0) == |PairsOfPrior(seen, p)|)
  }

  lemma CountOne(seen: Matches, byNew: map<nat, nat>, byPrior: map<nat, nat>, pair: Pair, overlap: Overlap)
    requires Counted(seen, byNew, byPrior) && pair !in seen
    ensures Counted(seen[pair := overlap], Bump(byNew, pair.0), Bump(byPrior, pair.1))
  {
    var more := seen[pair := overlap];
    forall n: nat
      ensures |PairsOfTrack(more, n)| == |PairsOfTrack(seen, n)| + if n == pair.0 then 1 else 0
    {
      TrackPairsGrow(seen, pair, overlap, n);
    }
    forall p: nat
      ensures |PairsOfPrior(more, p)| == |PairsOfPrior(seen, p)| + if p == pair.1 then 1 else 0
    {
      if p == pair.1 {
        assert PairsOfPrior(more, p) == PairsOfPrior(seen, p) + {pair};
      } else {
        assert PairsOfPrior(more, p) == PairsOfPrior(seen, p);
      }
    }
  }

  lemma TrackPairsGrow(seen: Matches, pair: Pair, overlap: Overlap, n: nat)
    requires pair !in seen
    ensures |PairsOfTrack(seen[pair := overlap], n)| == |PairsOfTrack(seen, n)| + if n == pair.0 then 1 else 0
  {
    var more := seen[pair := overlap];
    if n == pair.0 {
      assert PairsOfTrack(more, n) == PairsOfTrack(seen, n) + {pair};
    } else {
      assert PairsOfTrack(more, n) == PairsOfTrack(seen, n);
    }
  }

  // The matches named by a prefix of the visiting order.
  function Restrict(m: Matches, order: seq<Pair>): Matches
  {
    map k | k in m && k in order :: m[k]
  }

  lemma RestrictSnoc(m: Matches, order: seq<Pair>, pair: Pair)
    requires pair in m
    ensures Restrict(m, order + [pair]) == Restrict(m, order)[pair := m[pair]]
  {
  }

  function Bump(counts: map<nat, nat>, k: nat): map<nat, nat>
  {
    counts[k := (if k in counts then counts[k] else 0) + 1]
  }

  lemma NothingCounted()
    ensures Counted(map[], map[], map[])
  {
    assert forall n: nat :: PairsOfTrack(map[], n) == {} && PairsOfPrior(map[], n) == {};
  }

  method CountDegrees(m: Matches, order: seq<Pair>) returns (byNew: map<nat, nat>, byPrior: map<nat, nat>)
    requires IsListing(order, m.Keys)
    ensures Counted(m, byNew, byPrior)
  {
    byNew, byPrior := map[], map[];
    NothingCounted();
    assert Restrict(m, order[..0]) == map[];
    for i := 0 to |order|
      invariant Counted(Restrict(m, order[..i]), byNew, byPrior)
    {
      CountNext(m, order, i, byNew, byPrior);
      byNew, byPrior := Bump(byNew, order[i].0), Bump(byPrior, order[i].1);
    }
    assert order[..|order|] == order;
    RestrictAllKeys(m, order);
  }

  lemma RestrictAllKeys(m: Matches, order: seq<Pair>)
    requires IsListing(order, m.Keys)
    ensures Restrict(m, order) == m
  {
  }

  lemma CountNext(m: Matches, order: seq<Pair>, i: nat, byNew: map<nat, nat>, byPrior: map<nat, nat>)
    requires IsListing(order, m.Keys) && i < |order|
    requires Counted(Restrict(m, order[..i]), byNew, byPrior)
    ensures order[i] in m
    ensures Counted(Restrict(m, order[..i + 1]), Bump(byNew, order[i].0), Bump(byPrior, order[i].1))
  {
    var pair := order[i];
    assert pair in order && pair !in order[..i];
    TakeSnoc(order, i);
    RestrictSnoc(m, order[..i], pair);
    CountOne(Restrict(m, order[..i]), byNew, byPrior, pair, m[pair]);
  }

  // Plume identifiers handed down by the superseding pairs visited so far.
  ghost predicate Inherits(prior: seq<PriorEpisode>, done: seq<Pair>, superseding: set<Pair>, inherited: map<nat, string>)
  {
    && (forall k :: k in done ==> k.1 < |prior|)
    && (forall k :: k in done && k in superseding ==> k.0 in inherited && inherited[k.0] == prior[k.1].plumeId)
    && forall n :: n in inherited ==> exists k :: k in done && k in superseding && k.0 == n
  }

  lemma InheritOne(prior: seq<PriorEpisode>, done: seq<Pair>, superseding: set<Pair>, inherited: map<nat, string>, pair: Pair)
    requires Inherits(prior, done, superseding, inherited) && pair.1 < |prior|
    requires pair in superseding ==> forall k :: k in superseding && k.0 == pair.0 ==> k == pair
    ensures Inherits(prior, done + [pair], superseding,
      if pair in superseding then inherited[pair.0 := prior[pair.1].plumeId] else inherited)
  {
    var longer := done + [pair];
    var inherited' := if pair in superseding then inherited[pair.0 := prior[pair.1].plumeId] else inherited;
    forall n | n in inherited'
      ensures exists k :: k in longer && k in superseding && k.0 == n
    {
      if pair in superseding && n == pair.0 {
        assert pair in longer;
      } else {
        var k :| k in done && k in superseding && k.0 == n;
        assert k in longer;
      }
    }
  }

  // The edge lists built from the pairs visited so far.
  ghost predicate Edged(edgeOf: Pair -> LineageEdge, done: seq<Pair>, edges: map<nat, seq<LineageEdge>>)
  {
    && (forall n :: n in edges ==> edges[n] != [])
    && forall n: nat :: (if n in edges then edges[n] else []) == EdgesIn(edgeOf, done, n)
  }

  lemma EdgeOne(edgeOf: Pair -> LineageEdge, done: seq<Pair>, edges: map<nat, seq<LineageEdge>>, pair: Pair)
    requires Edged(edgeOf, done, edges)
    ensures Edged(edgeOf, done + [pair],
      edges[pair.0 := (if pair.0 in edges then edges[pair.0] else []) + [edgeOf(pair)]])
  {
    var longer := done + [pair];
    var edges' := edges[pair.0 := (if pair.0 in edges then edges[pair.0] else []) + [edgeOf(pair)]];
    assert longer[..|done|] == done;
    forall n: nat
      ensures (if n in edges' then edges'[n] else []) == EdgesIn(edgeOf, longer, n)
    {
      assert EdgesIn(edgeOf, longer, n) == EdgesIn(edgeOf, done, n) + if pair.0 == n then [edgeOf(pair)] else [];
      assert (if n in edges then edges[n] else []) == EdgesIn(edgeOf, done, n);
    }
  }

  function Superseding(m: Matches): set<Pair>
  {
    set k | k in m && RelationOf(m, k) == Supersedes
  }

  method Relate(m: Matches, byNew: map<nat, nat>, byPrior: map<nat, nat>, pair: Pair) returns (relation: Relation)
    requires Counted(m, byNew, byPrior) && pair in m
    ensures relation == RelationOf(m, pair)
  {
    var newDegree := if pair.0 in byNew then byNew[pair.0] else 0;
    var priorDegree := if pair.1 in byPrior then byPrior[pair.1] else 0;
    if newDegree == 1 && priorDegree == 1 {
      relation := Supersedes;
    } else if newDegree > 1 {
      relation := MergedFrom;
    } else {
      relation := SplitFrom;
    }
  }

  // One iteration of the assignment loop.
  method AssignPair(prior: seq<PriorEpisode>, m: Matches, byNew: map<nat, nat>, byPrior: map<nat, nat>, ghost done: seq<Pair>,
                    pair: Pair, before: map<nat, string>, edges: map<nat, seq<LineageEdge>>)
    returns (inherited: map<nat, string>, edges': map<nat, seq<LineageEdge>>)
    requires Counted(m, byNew, byPrior) && pair in m && pair.1 < |prior|
    requires Inherits(prior, done, Superseding(m), before) && Edged(EdgeOf(prior, m), done, edges)
    ensures Inherits(prior, done + [pair], Superseding(m), inherited)
    ensures Edged(EdgeOf(prior, m), done + [pair], edges')
  {
    SupersedesAlone(m, pair);
    var relation := Relate(m, byNew, byPrior, pair);
    InheritOne(prior, done, Superseding(m), before, pair);
    inherited := if relation == Supersedes then before[pair.0 := prior[pair.1].plumeId] else before;
    var edge := LineageEdge(prior[pair.1].revisionId, relation, m[pair]);
    assert edge == EdgeOf(prior, m)(pair);
    EdgeOne(EdgeOf(prior, m), done, edges, pair);
    edges' := edges[pair.0 := (if pair.0 in edges then edges[pair.0] else []) + [edge]];
  }

  method AssignAll(prior: seq<PriorEpisode>, m: Matches, order: seq<Pair>)
    returns (inherited: map<nat, string>, edges: map<nat, seq<LineageEdge>>)
    requires IsListing(order, m.Keys)
    requires forall k :: k in m ==> k.1 < |prior|
    ensures Inherits(prior, order, Superseding(m), inherited)
    ensures Edged(EdgeOf(prior, m), order, edges)
  {
    var byNew, byPrior := CountDegrees(m, order);
    inherited, edges := map[], map[];
    ghost var superseding, edgeOf := Superseding(m), EdgeOf(prior, m);
    for i := 0 to |order|
      invariant Inherits(prior, order[..i], superseding, inherited)
      invariant Edged(edgeOf, order[..i], edges)
    {
      TakeSnoc(order, i);
      inherited, edges := AssignPair(prior, m, byNew, byPrior, order[..i], order[i], inherited, edges);
    }
    assert order[..|order|] == order;
  }

  method AssignLineage(prior: seq<PriorEpisode>, tracks: seq<seq<Component>>, s: Survey, t: Thresholds)
    returns (inherited: map<nat, string>, edges: map<nat, seq<LineageEdge>>, m: Matches, order: seq<Pair>)
    ensures AreMatches(prior, tracks, s, t, m)
    ensures IsListing(order, m.Keys) && InPairOrder(order)
    ensures Inherits(prior, order, Superseding(m), inherited)
    ensures Edged(EdgeOf(prior, m), order, edges)
  {
    m, order := FindMatches(prior, tracks, s, t);
    inherited, edges := AssignAll(prior, m, order);
  }

  lemma SupersedesAlone(m: Matches, pair: Pair)
    requires pair in m
    ensures pair in Superseding(m) <==> RelationOf(m, pair) == Supersedes
    ensures pair in Superseding(m) ==> forall k :: k in Superseding(m) && k.0 == pair.0 ==> k == pair
  {
    if pair in Superseding(m) {
      forall k | k in Superseding(m) && k.0 == pair.0
        ensures k == pair
      {
        SupersedesIsPartialMatching(m, pair, k);
      }
    }
  }

  // ---------- Lineage is a partial matching ----------

  lemma OneElement<T>(s: set<T>, a: T, b: T)
    requires |s| == 1 && a in s && b in s
    ensures a == b
  {
    assert |s - {a}| == 0;
    assert b !in s - {a};
  }

  /** Superseding pairs are alone on both sides: no two tracks inherit from one episode
      and no track inherits from two. */
  lemma SupersedesIsPartialMatching(m: Matches, a: Pair, b: Pair)
    requires a in m && b in m
    requires RelationOf(m, a) == Supersedes
    requires a.0 == b.0 || a.1 == b.1
    ensures a == b
  {
    if a.0 == b.0 {
      assert b in PairsOfTrack(m, a.0);
      OneElement(PairsOfTrack(m, a.0), a, b);
    } else {
      assert b in PairsOfPrior(m, a.1);
      OneElement(PairsOfPrior(m, a.1), a, b);
    }
  }

  /** The three relations partition the matches: alone on both sides supersedes; a track
      with several episodes merges them; the only episode of a track, shared with other
      tracks, is split. */
  lemma RelationsPartition(m: Matches, pair: Pair)
    requires pair in m
    ensures RelationOf(m, pair) == Supersedes <==>
      forall k :: k in m && (k.0 == pair.0 || k.1 == pair.1) ==> k == pair
    ensures RelationOf(m, pair) == MergedFrom <==> exists k :: k in m && k.0 == pair.0 && k != pair
    ensures RelationOf(m, pair) == SplitFrom <==>
      && (forall k :: k in m && k.0 == pair.0 ==> k == pair)
      && exists k :: k in m && k.1 == pair.1 && k != pair
  {
    Alone(PairsOfTrack(m, pair.0), pair);
    Alone(PairsOfPrior(m, pair.1), pair);
    assert forall k :: k in m && k.0 == pair.0 ==> k in PairsOfTrack(m, pair.0);
    assert forall k :: k in m && k.1 == pair.1 ==> k in PairsOfPrior(m, pair.1);
  }

  lemma Alone(s: set<Pair>, pair: Pair)
    requires pair in s
    ensures |s| == 1 || |s| > 1
    ensures |s| == 1 <==> forall k :: k in s ==> k == pair
  {
    if |s| == 1 {
      forall k | k in s ensures k == pair {
        OneElement(s, k, pair);
      }
    }
    if forall k :: k in s ==> k == pair {
      assert s == {pair};
    }
    assert |s| == |s - {pair}| + 1;
  }

  /** Every match yields exactly one lineage edge. */
  lemma {:induction false} OneEdgePerMatch(edgeOf: Pair -> LineageEdge, m: Matches, order: seq<Pair>, n: nat)
    requires Distinct(order)
    requires forall k :: k in order ==> k in m
    ensures |EdgesIn(edgeOf, order, n)| == |PairsOfTrack(Restrict(m, order), n)|
    decreases |order|
  {
    if order == [] {
      assert PairsOfTrack(Restrict(m, order), n) == {};
    } else {
      var init, last := order[..|order| - 1], order[|order| - 1];
      assert order == init + [last];
      OneEdgePerMatch(edgeOf, m, init, n);
      RestrictSnoc(m, init, last);
      TrackPairsGrow(Restrict(m, init), last, m[last], n);
    }
  }

  lemma RestrictAll(m: Matches, order: seq<Pair>)
    requires IsListing(order, m.Keys)
    ensures Restrict(m, order) == m
  {
  }
}
