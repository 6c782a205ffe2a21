/** Plume components: de-duplication, tracking edges and tracks (plumegraph/analysis.py). */
module Tracking {
  import opened Prelude
  import opened Reachability

  // A geometry, known only through the measures below.
  datatype Shape = Shape(tag: int)

  /** The contract's thresholds, and the geometry measures as uninterpreted functions.
      drift is the advection residual from one shape to a later one under a wind. */
  datatype Survey = Survey(
    intersectionArea: (Shape, Shape) -> real,
    unionArea: (Shape, Shape) -> real,
    drift: (Shape, Shape, real, real, real) -> real,
    maxGapHours: real, ratioMin: real, residualMax: real)

  class Component {
    const time: int      // seconds
    const pixels: set<string>
    const enhancement: Option<real>
    const shape: Shape
    const windU: real
    const windV: real
    var targetIds: set<string>

    constructor (time: int, pixels: set<string>, enhancement: Option<real>, shape: Shape, windU: real, windV: real,
                 targetIds: set<string>)
      ensures this.time == time && this.pixels == pixels && this.enhancement == enhancement && this.shape == shape
      ensures this.windU == windU && this.windV == windV && this.targetIds == targetIds
    {
      this.time, this.pixels, this.enhancement, this.shape := time, pixels, enhancement, shape;
      this.windU, this.windV, this.targetIds := windU, windV, targetIds;
    }
  }

  // ---------- De-duplication ----------

  function Jaccard(left: set<string>, right: set<string>): real
  {
    if left + right == {} then 1.0 else |left * right| as real / |left + right| as real
  }

  predicate Duplicates(existing: Component, component: Component, minimum: real)
  {
    existing.time == component.time && Jaccard(existing.pixels, component.pixels) >= minimum
  }

  type Relation = (Component, Component) -> bool

  function DuplicatesAt(minimum: real): Relation
  {
    (existing: Component, component: Component) => Duplicates(existing, component, minimum)
  }

  method FirstMatch(kept: seq<Component>, component: Component, same: Relation) returns (k: nat)
    ensures k <= |kept|
    ensures forall j :: 0 <= j < k ==> !same(kept[j], component)
    ensures k < |kept| ==> same(kept[k], component)
  {
    k := 0;
    while k < |kept| && !same(kept[k], component)
      invariant k <= |kept|
      invariant forall j :: 0 <= j < k ==> !same(kept[j], component)
    {
      k := k + 1;
    }
  }

  // The targets of all the components that slot k represents.
  ghost function Gathered(keeper: seq<int>, targets: seq<set<string>>, k: int): set<string>
    requires |keeper| <= |targets|
  {
    if keeper == [] then {}
    else
      var n := |keeper| - 1;
      Gathered(keeper[..n], targets, k) + if keeper[n] == k then targets[n] else {}
  }

  lemma {:induction false} GatheredExactly(keeper: seq<int>, targets: seq<set<string>>, k: int, target: string)
    requires |keeper| <= |targets|
    ensures target in Gathered(keeper, targets, k) <==>
      exists i :: 0 <= i < |keeper| && keeper[i] == k && target in targets[i]
  {
    if keeper != [] {
      var n := |keeper| - 1;
      GatheredExactly(keeper[..n], targets, k, target);
      assert forall i :: 0 <= i < n ==> keeper[..n][i] == keeper[i];
    }
  }

  lemma {:induction false} GatheredNothing(keeper: seq<int>, targets: seq<set<string>>, k: int)
    requires |keeper| <= |targets|
    requires forall i :: 0 <= i < |keeper| ==> keeper[i] != k
    ensures Gathered(keeper, targets, k) == {}
  {
    if keeper != [] {
      GatheredNothing(keeper[..|keeper| - 1], targets, k);
    }
  }

  ghost predicate Represents(kept: seq<Component>, k: int, component: Component, same: Relation)
  {
    && 0 <= k < |kept|
    && (kept[k] == component || same(kept[k], component))
    && forall j :: 0 <= j < k ==> !same(kept[j], component)
  }

  ghost function TargetsOf(components: seq<Component>): (targets: seq<set<string>>)
    reads components
    ensures |targets| == |components|
    ensures forall i :: 0 <= i < |components| ==> targets[i] == components[i].targetIds
  {
    seq(|components|, i requires 0 <= i < |components| reads components => components[i].targetIds)
  }

  ghost predicate AllRepresented(kept: seq<Component>, keeper: seq<int>, components: seq<Component>, same: Relation)
  {
    && |keeper| <= |components|
    && (forall i :: 0 <= i < |keeper| ==> Represents(kept, keeper[i], components[i], same))
    && (forall j, k :: 0 <= j < k < |kept| ==> !same(kept[j], kept[k]))
    && Distinct(kept)
    && forall x :: x in kept ==> x in components[..|keeper|]
  }

  lemma RepresentOne(kept: seq<Component>, keeper: seq<int>, components: seq<Component>, same: Relation, k: nat)
    requires AllRepresented(kept, keeper, components, same)
    requires |keeper| < |components| && Distinct(components)
    requires k <= |kept| && forall j :: 0 <= j < k ==> !same(kept[j], components[|keeper|])
    requires k < |kept| ==> same(kept[k], components[|keeper|])
    ensures AllRepresented(if k < |kept| then kept else kept + [components[|keeper|]], keeper + [k], components, same)
  {
    var component := components[|keeper|];
    var kept' := if k < |kept| then kept else kept + [component];
    assert components[..|keeper| + 1] == components[..|keeper|] + [component];
    assert component !in components[..|keeper|];
    forall i | 0 <= i < |keeper| + 1
      ensures Represents(kept', (keeper + [k])[i], components[i], same)
    {
      assert i < |keeper| ==> Represents(kept, keeper[i], components[i], same);
    }
    forall i, j | 0 <= i < j < |kept'|
      ensures !same(kept'[i], kept'[j]) && kept'[i] != kept'[j]
    {
      assert kept'[i] == kept[i] && kept[i] in kept;
    }
    assert forall x :: x in kept' ==> x in kept || x == component;
  }

  ghost predicate AllGathered(kept: seq<Component>, keeper: seq<int>, targets: seq<set<string>>)
    reads kept
  {
    && |keeper| <= |targets|
    && (forall i :: 0 <= i < |keeper| ==> keeper[i] < |kept|)
    && forall k :: 0 <= k < |kept| ==> kept[k].targetIds == Gathered(keeper, targets, k)
  }

  // Merges a component into the kept one it duplicates, or keeps it.
  method Place(kept: seq<Component>, component: Component, same: Relation, ghost keeper: seq<int>, ghost targets: seq<set<string>>)
    returns (kept': seq<Component>, k: nat)
    requires component !in kept && Distinct(kept)
    requires AllGathered(kept, keeper, targets) && |keeper| < |targets|
    requires component.targetIds == targets[|keeper|]
    modifies kept
    ensures k <= |kept| && forall j :: 0 <= j < k ==> !same(kept[j], component)
    ensures k < |kept| ==> same(kept[k], component)
    ensures kept' == if k < |kept| then kept else kept + [component]
    ensures AllGathered(kept', keeper + [k], targets)
  {
    k := FirstMatch(kept, component, same);
    ghost var more := keeper + [k];
    assert more[..|keeper|] == keeper;
    if k == |kept| {
      GatheredNothing(keeper, targets, k);
      kept' := kept + [component];
    } else {
      kept' := kept;
      kept[k].targetIds := kept[k].targetIds + component.targetIds;
    }
  }

  method DeduplicateBy(components: seq<Component>, same: Relation)
    returns (kept: seq<Component>, ghost keeper: seq<int>)
    requires Distinct(components)
    modifies components
    ensures |keeper| == |components| && AllRepresented(kept, keeper, components, same)
    ensures AllGathered(kept, keeper, old(TargetsOf(components)))
  {
    kept, keeper := [], [];
    ghost var targets := TargetsOf(components);
    for i := 0 to |components|
      invariant |keeper| == i && AllRepresented(kept, keeper, components, same)
      invariant forall j :: i <= j < |components| ==> components[j].targetIds == targets[j]
      invariant AllGathered(kept, keeper, targets)
    {
      KeptAmong(kept, components, i);
      ghost var before := kept;
      var k;
      kept, k := Place(kept, components[i], same, keeper, targets);
      RepresentOne(before, keeper, components, same, k);
      keeper := keeper + [k];
    }
  }

  lemma KeptAmong(kept: seq<Component>, components: seq<Component>, i: nat)
    requires Distinct(components) && i < |components|
    requires forall x :: x in kept ==> x in components[..i]
    ensures forall j :: 0 <= j < |kept| ==> kept[j] in components
    ensures forall j, k :: 0 <= j < |kept| && i <= k < |components| ==> kept[j] != components[k]
    ensures components[i] !in kept
  {
    forall j | 0 <= j < |kept|
      ensures kept[j] in components
      ensures forall k :: i <= k < |components| ==> kept[j] != components[k]
    {
      assert kept[j] in kept;
      var h :| 0 <= h < i && components[..i][h] == kept[j];
      assert components[h] == kept[j];
    }
  }

  /** The same moment, and the pixels in common make up at least the given share of all the
      pixels of the two; without any pixel the share is one. */
  ghost function SamePlume(minimum: real): Relation
  {
    (existing: Component, component: Component) =>
      && existing.time == component.time
      && if existing.pixels + component.pixels == {} then minimum <= 1.0
         else minimum * |existing.pixels + component.pixels| as real <= |existing.pixels * component.pixels| as real
  }

  lemma DuplicatesAreSamePlume(a: Component, b: Component, minimum: real)
    ensures DuplicatesAt(minimum)(a, b) <==> SamePlume(minimum)(a, b)
  {
    if a.pixels + b.pixels != {} {
      ghost var some := Member(a.pixels + b.pixels);
      SetHasSize(a.pixels + b.pixels, some);
      AtLeastShare(|a.pixels * b.pixels| as real, |a.pixels + b.pixels| as real, minimum);
    }
  }

  lemma SetHasSize(pixels: set<string>, some: string)
    requires some in pixels
    ensures |pixels| > 0
  {
  }

  lemma AtLeastShare(part: real, whole: real, minimum: real)
    requires whole > 0.0
    ensures part / whole >= minimum <==> minimum * whole <= part
  {
    var q := part / whole;
    assert q * whole == part;
    if q >= minimum {
      assert (q - minimum) * whole >= 0.0;
    } else {
      assert (minimum - q) * whole > 0.0;
    }
  }

  lemma RepresentedAlike(kept: seq<Component>, keeper: seq<int>, components: seq<Component>, p: Relation, q: Relation)
    requires AllRepresented(kept, keeper, components, p)
    requires forall a, b :: (a in kept || a in components) && (b in kept || b in components) ==> p(a, b) == q(a, b)
    ensures AllRepresented(kept, keeper, components, q)
  {
    forall i | 0 <= i < |keeper| ensures Represents(kept, keeper[i], components[i], q) {
      assert Represents(kept, keeper[i], components[i], p);
      assert components[i] in components;
    }
  }

  /** Every component is represented by the first kept one it duplicates, or is kept;
      no two kept ones duplicate each other; and a kept component ends with exactly the
      targets of the components it represents, so none is lost and none invented. */
  method Deduplicate(components: seq<Component>, minimum: real)
    returns (kept: seq<Component>, ghost keeper: seq<int>)
    requires Distinct(components)
    modifies components
    ensures |keeper| == |components| && AllRepresented(kept, keeper, components, SamePlume(minimum))
    ensures AllGathered(kept, keeper, old(TargetsOf(components)))
  {
    kept, keeper := DeduplicateBy(components, DuplicatesAt(minimum));
    forall a, b | (a in kept || a in components) && (b in kept || b in components)
      ensures DuplicatesAt(minimum)(a, b) == SamePlume(minimum)(a, b)
    {
      DuplicatesAreSamePlume(a, b, minimum);
    }
    RepresentedAlike(kept, keeper, components, DuplicatesAt(minimum), SamePlume(minimum));
  }

  // ---------- Tracking edges ----------

  datatype Edge = Edge(before: Component, after: Component, gapHours: real, iou: real, residual: real, continuity: real)

  function Continuity(a: Option<real>, b: Option<real>): real
  {
    if a.Some? && a.value > 0.0 && b.Some? && b.value > 0.0
    then (if a.value < b.value then a.value / b.value else b.value / a.value) else 0.0
  }

  function OrderedEdge(before: Component, after: Component, s: Survey): Option<Edge>
  {
    var gapHours := (after.time - before.time) as real / 3600.0;
    if gapHours == 0.0 || gapHours > s.maxGapHours then None
    else
      var union := s.unionArea(before.shape, after.shape);
      var iou := if union != 0.0 then s.intersectionArea(before.shape, after.shape) / union else 0.0;
      var residual := s.drift(before.shape, after.shape, before.windU, before.windV, gapHours);
      var continuity := Continuity(before.enhancement, after.enhancement);
      if continuity < s.ratioMin || (iou <= 0.0 && residual > s.residualMax) then None
      else Some(Edge(before, after, gapHours, iou, residual, continuity))
  }

  function TrackingEdge(left: Component, right: Component, s: Survey): Option<Edge>
  {
    if right.time < left.time then OrderedEdge(right, left, s) else OrderedEdge(left, right, s)
  }

  // c is the smaller over the larger of two positive figures, and zero without them.
  ghost predicate IsRatio(c: real, a: Option<real>, b: Option<real>)
  {
    if a.Some? && b.Some? && a.value > 0.0 && b.value > 0.0
    then (a.value <= b.value ==> c * b.value == a.value) && (b.value <= a.value ==> c * a.value == b.value)
    else c == 0.0
  }

  // c is the share of a part in a whole that is not zero, and zero without one.
  ghost predicate IsShare(c: real, part: real, whole: real)
  {
    if whole != 0.0 then c * whole == part else c == 0.0
  }

  /** The figures of an edge: the hours between the two, the shared area relative to the
      union, the drift under the earlier one's wind, and the ratio of the enhancements. */
  ghost predicate AreFigures(before: Component, after: Component, gapHours: real, iou: real, residual: real,
                             continuity: real, s: Survey)
  {
    && gapHours == (after.time - before.time) as real / 3600.0
    && IsShare(iou, s.intersectionArea(before.shape, after.shape), s.unionArea(before.shape, after.shape))
    && residual == s.drift(before.shape, after.shape, before.windU, before.windV, gapHours)
    && IsRatio(continuity, before.enhancement, after.enhancement)
  }

  ghost predicate WithinLimits(gapHours: real, iou: real, residual: real, continuity: real, s: Survey)
  {
    && 0.0 < gapHours <= s.maxGapHours
    && s.ratioMin <= continuity
    && (iou > 0.0 || residual <= s.residualMax)
  }

  /** The later component continues the earlier one: it follows within the permitted gap,
      is about as strong, and overlaps it or lies where the wind would have carried it. */
  ghost predicate Continues(before: Component, after: Component, s: Survey)
  {
    exists gapHours, iou, residual, continuity ::
      && AreFigures(before, after, gapHours, iou, residual, continuity, s)
      && WithinLimits(gapHours, iou, residual, continuity, s)
  }

  lemma RatioUnique(a: Option<real>, b: Option<real>, c: real)
    ensures IsRatio(c, a, b) <==> c == Continuity(a, b)
  {
    if a.Some? && b.Some? && a.value > 0.0 && b.value > 0.0 {
      QuotientUnique(a.value, b.value, c);
      QuotientUnique(b.value, a.value, c);
      if a.value == b.value {
        QuotientUnique(a.value, a.value, 1.0);
      }
    }
  }

  lemma QuotientUnique(part: real, whole: real, c: real)
    requires whole != 0.0
    ensures c * whole == part <==> c == part / whole
  {
    var q := part / whole;
    assert q * whole == part;
    if c * whole == part {
      assert (c - q) * whole == 0.0;
    }
  }

  lemma ShareUnique(part: real, whole: real, c: real)
    ensures IsShare(c, part, whole) <==> c == if whole != 0.0 then part / whole else 0.0
  {
    if whole != 0.0 {
      QuotientUnique(part, whole, c);
    }
  }

  lemma OrderedEdgeExactly(before: Component, after: Component, s: Survey)
    requires before.time <= after.time
    ensures OrderedEdge(before, after, s).Some? <==> Continues(before, after, s)
    ensures OrderedEdge(before, after, s).Some? ==>
      var e := OrderedEdge(before, after, s).value;
      && e.before == before && e.after == after
      && AreFigures(before, after, e.gapHours, e.iou, e.residual, e.continuity, s)
      && WithinLimits(e.gapHours, e.iou, e.residual, e.continuity, s)
  {
    var gapHours := (after.time - before.time) as real / 3600.0;
    var part, whole := s.intersectionArea(before.shape, after.shape), s.unionArea(before.shape, after.shape);
    var iou := if whole != 0.0 then part / whole else 0.0;
    var residual := s.drift(before.shape, after.shape, before.windU, before.windV, gapHours);
    var continuity := Continuity(before.enhancement, after.enhancement);
    ShareUnique(part, whole, iou);
    RatioUnique(before.enhancement, after.enhancement, continuity);
    assert AreFigures(before, after, gapHours, iou, residual, continuity, s);
    if Continues(before, after, s) {
      var g, i, r, c :| AreFigures(before, after, g, i, r, c, s) && WithinLimits(g, i, r, c, s);
      ShareUnique(part, whole, i);
      RatioUnique(before.enhancement, after.enhancement, c);
    }
  }

  /** Two components have an edge exactly when one continues the other; the edge runs from
      the earlier to the later one and carries their figures. */
  lemma TrackingEdgeExactly(a: Component, b: Component, s: Survey)
    ensures TrackingEdge(a, b, s).Some? <==> Continues(a, b, s) || Continues(b, a, s)
    ensures TrackingEdge(a, b, s).Some? ==>
      var e := TrackingEdge(a, b, s).value;
      && ((e.before == a && e.after == b) || (e.before == b && e.after == a))
      && AreFigures(e.before, e.after, e.gapHours, e.iou, e.residual, e.continuity, s)
      && WithinLimits(e.gapHours, e.iou, e.residual, e.continuity, s)
  {
    if b.time < a.time {
      OrderedEdgeExactly(b, a, s);
    } else {
      OrderedEdgeExactly(a, b, s);
    }
  }

  /** The edge does not depend on which component is passed first, and always runs
      forward in time within the permitted gap. */
  lemma TrackingEdgeSymmetric(a: Component, b: Component, s: Survey)
    ensures TrackingEdge(a, b, s) == TrackingEdge(b, a, s)
    ensures TrackingEdge(a, b, s).Some? ==>
      var e := TrackingEdge(a, b, s).value;
      && {e.before, e.after} == {a, b}
      && e.before.time < e.after.time
      && 0.0 < e.gapHours <= s.maxGapHours
  {
    if a.time == b.time {
      assert TrackingEdge(a, b, s).None? && TrackingEdge(b, a, s).None?;
    }
  }

  // One of the two components continues the other.
  ghost function Linked(components: seq<Component>, s: Survey): (int, int) -> bool
  {
    (i: int, j: int) =>
      && 0 <= i < |components| && 0 <= j < |components|
      && (Continues(components[i], components[j], s) || Continues(components[j], components[i], s))
  }

  lemma {:induction false} LinkedSymmetric(components: seq<Component>, s: Survey)
    ensures Symmetric(Indices(|components|), Linked(components, s))
  {
  }

  // ---------- Tracks ----------

  /** A track lists the components of one class once each, in time order. */
  ghost predicate IsTrack(track: seq<Component>, order: seq<int>, components: seq<Component>, group: set<int>)
  {
    && IsListing(order, group)
    && |track| == |order|
    && (forall k :: 0 <= k < |order| ==> 0 <= order[k] < |components| && track[k] == components[order[k]])
    && InTime(track)
  }

  method InTimeOrder(components: seq<Component>, group: set<int>) returns (track: seq<Component>, ghost order: seq<int>)
    requires forall i :: i in group ==> 0 <= i < |components|
    ensures IsTrack(track, order, components, group)
  {
    track, order := [], [];
    var todo := group;
    while todo != {}
      invariant todo <= group
      invariant IsTrack(track, order, components, group - todo)
      decreases todo
    {
      var i := Least(todo);
      var at := 0;
      while at < |track| && track[at].time <= components[i].time
        invariant at <= |track|
        invariant forall j :: 0 <= j < at ==> track[j].time <= components[i].time
      {
        at := at + 1;
      }
      InsertInTrack(track, order, components, group - todo, i, at);
      track, order := track[..at] + [components[i]] + track[at..], order[..at] + [i] + order[at..];
      assert group - (todo - {i}) == (group - todo) + {i};
      todo := todo - {i};
    }
    assert group - todo == group;
  }

  lemma InsertInTrack(track: seq<Component>, order: seq<int>, components: seq<Component>, group: set<int>, i: int, at: nat)
    requires IsTrack(track, order, components, group)
    requires 0 <= i < |components| && i !in group && at <= |track|
    requires forall j :: 0 <= j < at ==> track[j].time <= components[i].time
    requires at < |track| ==> components[i].time <= track[at].time
    ensures IsTrack(track[..at] + [components[i]] + track[at..], order[..at] + [i] + order[at..], components, group + {i})
  {
    InsertInListing(order, group, i, at);
    InsertInOrder(track, components[i], at);
    var ids, longer := order[..at] + [i] + order[at..], track[..at] + [components[i]] + track[at..];
    forall k | 0 <= k < |ids|
      ensures 0 <= ids[k] < |components| && longer[k] == components[ids[k]]
    {
      var k' := if k < at then k else k - 1;
      assert k != at ==> ids[k] == order[k'] && longer[k] == track[k'];
    }
  }

  lemma InsertInListing(order: seq<int>, group: set<int>, i: int, at: nat)
    requires IsListing(order, group) && i !in group && at <= |order|
    ensures IsListing(order[..at] + [i] + order[at..], group + {i})
  {
    var ids := order[..at] + [i] + order[at..];
    assert order == order[..at] + order[at..];
    assert forall x :: x in ids <==> x in order || x == i;
    forall j, k | 0 <= j < k < |ids|
      ensures ids[j] != ids[k]
    {
      var j', k' := if j < at then j else j - 1, if k < at then k else k - 1;
      assert j != at ==> ids[j] == order[j'] && order[j'] in order;
      assert k != at ==> ids[k] == order[k'] && order[k'] in order;
    }
  }

  ghost predicate InTime(track: seq<Component>)
  {
    forall j, k :: 0 <= j < k < |track| ==> track[j].time <= track[k].time
  }

  lemma InsertInOrder(track: seq<Component>, c: Component, at: nat)
    requires InTime(track) && at <= |track|
    requires forall j :: 0 <= j < at ==> track[j].time <= c.time
    requires at < |track| ==> c.time <= track[at].time
    ensures InTime(track[..at] + [c] + track[at..])
  {
    var longer := track[..at] + [c] + track[at..];
    forall j, k | 0 <= j < k < |longer|
      ensures longer[j].time <= longer[k].time
    {
      var j', k' := if j < at then j else j - 1, if k < at then k else k - 1;
      assert j != at ==> longer[j] == track[j'];
      assert k != at ==> longer[k] == track[k'];
      assert j == at && k' > at ==> track[at].time <= track[k'].time;
    }
  }

  // One frontier step over the remaining candidates in index order.
  method LinkedCandidates(components: seq<Component>, s: Survey, current: int, remaining: set<int>, frontier: seq<int>)
    returns (found: set<int>, next: seq<int>)
    requires 0 <= current < |components|
    requires forall i :: i in remaining ==> 0 <= i < |components|
    ensures forall i :: i in found <==> i in remaining && Linked(components, s)(current, i)
    ensures forall x :: x in next <==> x in frontier || x in found
    ensures found == {} ==> next == frontier
  {
    found, next := {}, frontier;
    var todo := remaining;
    while todo != {}
      invariant todo <= remaining
      invariant forall i :: i in found <==> i in remaining && i !in todo && Linked(components, s)(current, i)
      invariant forall x :: x in next <==> x in frontier || x in found
      invariant found == {} ==> next == frontier
      decreases todo
    {
      var i := Least(todo);
      TrackingEdgeExactly(components[current], components[i], s);
      if TrackingEdge(components[current], components[i], s).Some? {
        found, next := found + {i}, next + [i];
      }
      todo := todo - {i};
    }
  }

  // Everything joined to the root among the remaining components.
  method GrowTrack(components: seq<Component>, s: Survey, ghost settled: set<int>, before: set<int>, root: int)
    returns (indices: set<int>, remaining: set<int>)
    requires forall i :: i in before ==> 0 <= i < |components|
    requires root in before
    requires Searching(Indices(|components|), Linked(components, s), settled, {root}, before - {root}, [root], root)
    ensures Searching(Indices(|components|), Linked(components, s), settled, indices, remaining, [], root)
    ensures indices <= before && remaining < before
  {
    var frontier: seq<int>;
    indices, frontier, remaining := {root}, [root], before - {root};
    while frontier != []
      invariant Searching(Indices(|components|), Linked(components, s), settled, indices, remaining, frontier, root)
      invariant indices <= before && remaining < before
      decreases remaining, |frontier|
    {
      var current := frontier[|frontier| - 1];
      assert current in frontier && current in before;
      ghost var was := remaining;
      var found, next := LinkedCandidates(components, s, current, remaining, frontier[..|frontier| - 1]);
      Absorb(Indices(|components|), Linked(components, s), settled, indices, remaining, frontier, root, found, next);
      if found == {} {
        assert remaining - found == was;
      } else {
        ghost var q := Member(found);
        assert q in was && q !in was - found;
      }
      indices, remaining, frontier := indices + found, remaining - found, next;
    }
  }

  lemma {:induction false} LinkedClasses(components: seq<Component>, s: Survey, roots: seq<int>, groups: seq<set<int>>)
    requires RootedGroups(Indices(|components|), Linked(components, s), IntLeq, roots, groups)
    ensures Classes(Indices(|components|), Linked(components, s), IntLeq, groups)
  {
    LinkedSymmetric(components, s);
    SymmetricReaches(Indices(|components|), Linked(components, s));
    ClassesExactlyWhenReachSymmetric(Indices(|components|), Linked(components, s), IntLeq, roots, groups);
  }

  // The tracks list the given classes, each in the given order of its indices.
  ghost predicate TracksOver(components: seq<Component>, s: Survey, tracks: seq<seq<Component>>,
                             groups: seq<set<int>>, orders: seq<seq<int>>)
  {
    Classes(Indices(|components|), Linked(components, s), IntLeq, groups) && AllTracks(components, tracks, groups, orders)
  }

  ghost predicate AllTracks(components: seq<Component>, tracks: seq<seq<Component>>, groups: seq<set<int>>, orders: seq<seq<int>>)
  {
    && |tracks| == |groups| == |orders|
    && forall k :: 0 <= k < |tracks| ==> IsTrack(tracks[k], orders[k], components, groups[k])
  }

  /** Components share a track exactly when a chain joins them in which each continues, or is
      continued by, the next. */
  ghost predicate AreTracks(components: seq<Component>, s: Survey, tracks: seq<seq<Component>>)
  {
    exists groups: seq<set<int>>, orders: seq<seq<int>> :: TracksOver(components, s, tracks, groups, orders)
  }

  method ComponentTracks(components: seq<Component>, s: Survey) returns (tracks: seq<seq<Component>>)
    ensures AreTracks(components, s, tracks)
  {
    ghost var nodes, adj := Indices(|components|), Linked(components, s);
    var remaining := Indices(|components|);
    ghost var settled: set<int> := {};
    ghost var roots: seq<int>, groups: seq<set<int>>, orders: seq<seq<int>> := [], [], [];
    tracks := [];
    while remaining != {}
      invariant remaining <= nodes
      invariant Grouping(nodes, adj, IntLeq, roots, groups, settled, remaining)
      invariant AllTracks(components, tracks, groups, orders)
      decreases remaining
    {
      var root := Least(remaining);
      StartSearch(nodes, adj, settled, remaining, root);
      var indices, rest := GrowTrack(components, s, settled, remaining, root);
      AddGroup(nodes, adj, IntLeq, roots, groups, settled, remaining, indices, rest, root);
      var track, order := InTimeOrder(components, indices);
      tracks := tracks + [track];
      roots, groups, orders := roots + [root], groups + [indices], orders + [order];
      settled, remaining := settled + indices, rest;
    }
    AllGrouped(nodes, adj, IntLeq, roots, groups, settled);
    LinkedClasses(components, s, roots, groups);
    assert TracksOver(components, s, tracks, groups, orders);
  }
}
