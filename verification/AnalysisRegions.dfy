/** Grouping of cohort facilities whose areas of interest intersect, transitively
    (plumegraph/sources.py). */
module AnalysisRegions {
  import opened Prelude
  import opened Reachability

  function Touching<A>(areas: seq<A>, intersects: (A, A) -> bool): (int, int) -> bool
  {
    (i: int, j: int) => 0 <= i < |areas| && 0 <= j < |areas| && intersects(areas[i], areas[j])
  }

  /** Each group is what its smallest index reaches by intersections and no earlier group
      did. With symmetric intersection, areas end up in the same group exactly when a
      chain of pairwise intersecting areas joins them. */
  method GroupAreas<A(!new)>(areas: seq<A>, intersects: (A, A) -> bool) returns (groups: seq<set<int>>)
    ensures exists roots: seq<int> :: RootedGroups(Indices(|areas|), Touching(areas, intersects), IntLeq, roots, groups)
    ensures (forall a, b :: intersects(a, b) ==> intersects(b, a)) ==>
      Classes(Indices(|areas|), Touching(areas, intersects), IntLeq, groups)
  {
    ghost var nodes, adj := Indices(|areas|), Touching(areas, intersects);
    var remaining := Indices(|areas|);
    groups := [];
    ghost var settled: set<int>, roots: seq<int> := {}, [];
    while remaining != {}
      invariant Grouping(nodes, adj, IntLeq, roots, groups, settled, remaining)
      decreases remaining
    {
      ghost var before := remaining;
      var seed := Least(remaining);
      StartSearch(nodes, adj, settled, remaining, seed);
      var group, frontier := {seed}, [seed];
      remaining := remaining - {seed};
      while frontier != []
        invariant Searching(nodes, adj, settled, group, remaining, frontier, seed)
        invariant remaining < before
        decreases remaining, |frontier|
      {
        var current := frontier[|frontier| - 1];
        assert current in nodes && forall i :: i in remaining ==> i in nodes;
        var neighbors := set i | i in remaining && intersects(areas[current], areas[i]);
        ghost var found := neighbors;
        ghost var was, popped := remaining, frontier[..|frontier| - 1];
        var next := frontier[..|frontier| - 1];
        var todo := neighbors;
        while todo != {}
          invariant todo <= neighbors
          invariant forall x :: x in next <==> x in popped || (x in neighbors && x !in todo)
          invariant todo == neighbors ==> next == popped
          decreases todo
        {
          var i := Least(todo);
          next, todo := next + [i], todo - {i};
        }
        Absorb(nodes, adj, settled, group, remaining, frontier, seed, found, next);
        group, remaining := group + neighbors, remaining - neighbors;
        if neighbors == {} {
          assert remaining == was && next == popped;
        } else {
          assert remaining < was;
        }
        frontier := next;
      }
      AddGroup(nodes, adj, IntLeq, roots, groups, settled, before, group, remaining, seed);
      groups := groups + [group];
      settled, roots := settled + group, roots + [seed];
    }
    AllGrouped(nodes, adj, IntLeq, roots, groups, settled);
    if forall a, b :: intersects(a, b) ==> intersects(b, a) {
      SymmetricReaches(nodes, adj);
      ClassesExactlyWhenReachSymmetric(nodes, adj, IntLeq, roots, groups);
    }
  }
}
