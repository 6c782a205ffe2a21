/** Reachability classes of a finite graph, and the invariant shared by the three
    hand-written worklist searches of PlumeGraph. */
module Reachability {
  import opened Prelude

  ghost predicate IsPath<T>(nodes: set<T>, adj: (T, T) -> bool, p: seq<T>)
  {
    && p != []
    && (forall i :: 0 <= i < |p| ==> p[i] in nodes)
    && forall i, j :: 0 <= i < j < |p| && j == i + 1 ==> adj(p[i], p[j])
  }

  ghost predicate Joins<T>(nodes: set<T>, adj: (T, T) -> bool, p: seq<T>, a: T, b: T)
  {
    IsPath(nodes, adj, p) && p[0] == a && p[|p| - 1] == b
  }

  ghost predicate Reaches<T(!new)>(nodes: set<T>, adj: (T, T) -> bool, a: T, b: T)
  {
    exists p: seq<T> :: Joins(nodes, adj, p, a, b)
  }

  ghost predicate Symmetric<T(!new)>(nodes: set<T>, adj: (T, T) -> bool)
  {
    forall a, b :: a in nodes && b in nodes && adj(a, b) ==> adj(b, a)
  }

  /** The groups are exactly the reachability classes of the graph, each listed once,
      and each holds an element no greater than anything in a later group. */
  ghost predicate Classes<T(!new)>(nodes: set<T>, adj: (T, T) -> bool, leq: (T, T) -> bool, groups: seq<set<T>>)
  {
    && (forall x :: x in nodes ==> exists g :: 0 <= g < |groups| && x in groups[g])
    && (forall g, x, y :: 0 <= g < |groups| && x in groups[g] ==> (y in groups[g] <==> Reaches(nodes, adj, x, y)))
    && (forall g, h, x :: 0 <= g < h < |groups| && x in groups[g] ==> x !in groups[h])
    && (forall g :: 0 <= g < |groups| ==> groups[g] != {})
    && forall g, h :: 0 <= g < h < |groups| ==> Leads(leq, groups[g], groups[h])
  }

  ghost predicate Leads<T(!new)>(leq: (T, T) -> bool, earlier: set<T>, later: set<T>)
  {
    exists r :: r in earlier && forall y :: y in later ==> leq(r, y)
  }

  // ---------- Paths ----------

  lemma ReachesItself<T(!new)>(nodes: set<T>, adj: (T, T) -> bool, a: T)
    requires a in nodes
    ensures Reaches(nodes, adj, a, a)
  {
    assert Joins(nodes, adj, [a], a, a);
  }

  lemma ReachesNext<T(!new)>(nodes: set<T>, adj: (T, T) -> bool, a: T, b: T, c: T)
    requires Reaches(nodes, adj, a, b) && c in nodes && adj(b, c)
    ensures Reaches(nodes, adj, a, c)
  {
    var p :| Joins(nodes, adj, p, a, b);
    assert Joins(nodes, adj, p + [c], a, c);
  }

  lemma ReachesThrough<T(!new)>(nodes: set<T>, adj: (T, T) -> bool, a: T, b: T, c: T)
    requires Reaches(nodes, adj, a, b) && Reaches(nodes, adj, b, c)
    ensures Reaches(nodes, adj, a, c)
  {
    var p :| Joins(nodes, adj, p, a, b);
    var q :| Joins(nodes, adj, q, b, c);
    assert q[0] == b;
    assert Joins(nodes, adj, p + q[1..], a, c);
  }

  lemma {:induction false} ReachesBackward<T(!new)>(nodes: set<T>, adj: (T, T) -> bool, p: seq<T>, a: T, b: T)
    requires Symmetric(nodes, adj)
    requires Joins(nodes, adj, p, a, b)
    ensures Reaches(nodes, adj, b, a)
    decreases |p|
  {
    if |p| == 1 {
      ReachesItself(nodes, adj, a);
    } else {
      ReachesBackward(nodes, adj, p[1..], p[1], b);
      assert adj(p[0], p[1]);
      ReachesNext(nodes, adj, b, p[1], a);
    }
  }

  lemma ReachesSymmetric<T(!new)>(nodes: set<T>, adj: (T, T) -> bool, a: T, b: T)
    requires Symmetric(nodes, adj)
    requires Reaches(nodes, adj, a, b)
    ensures Reaches(nodes, adj, b, a)
  {
    var p :| Joins(nodes, adj, p, a, b);
    ReachesBackward(nodes, adj, p, a, b);
  }

  lemma {:induction false} PathStaysInside<T(!new)>(nodes: set<T>, adj: (T, T) -> bool, inside: set<T>, p: seq<T>)
    requires IsPath(nodes, adj, p) && p[0] in inside
    requires forall x, y :: x in inside && y in nodes && adj(x, y) ==> y in inside
    ensures p[|p| - 1] in inside
    decreases |p|
  {
    if |p| > 1 {
      assert adj(p[0], p[1]);
      PathStaysInside(nodes, adj, inside, p[1..]);
    }
  }

  // ---------- The search invariant ----------

  /** Settled classes are behind, the group grows from its root, and only frontier
      members may still have neighbours among the remaining nodes. */
  ghost predicate Searching<T(!new)>(nodes: set<T>, adj: (T, T) -> bool, settled: set<T>, group: set<T>,
                                     remaining: set<T>, frontier: seq<T>, root: T)
  {
    && (forall x :: x in nodes <==> x in settled || x in group || x in remaining)
    && (forall x :: x in group ==> x !in settled && x !in remaining)
    && (forall x :: x in remaining ==> x !in settled)
    && root in group
    && (forall x :: x in group ==> Reaches(nodes, adj, root, x))
    && (forall x :: x in frontier ==> x in group)
    && (forall x, y :: x in group && y in remaining && adj(x, y) ==> x in frontier)
    && (forall x, y :: x in settled && y in nodes && adj(x, y) ==> y in settled)
  }

  lemma StartSearch<T(!new)>(nodes: set<T>, adj: (T, T) -> bool, settled: set<T>, remaining: set<T>, root: T)
    requires forall x :: x in nodes <==> x in settled || x in remaining
    requires forall x :: x in remaining ==> x !in settled
    requires forall x, y :: x in settled && y in nodes && adj(x, y) ==> y in settled
    requires root in remaining
    ensures Searching(nodes, adj, settled, {root}, remaining - {root}, [root], root)
  {
    ReachesItself(nodes, adj, root);
  }

  // Visiting one frontier member moves its remaining neighbours into the group.
  lemma Absorb<T(!new)>(nodes: set<T>, adj: (T, T) -> bool, settled: set<T>, group: set<T>, remaining: set<T>,
                        frontier: seq<T>, root: T, found: set<T>, next: seq<T>)
    requires Searching(nodes, adj, settled, group, remaining, frontier, root)
    requires frontier != []
    requires forall y :: y in found <==> y in remaining && adj(frontier[|frontier| - 1], y)
    requires forall x :: x in next <==> x in frontier[..|frontier| - 1] || x in found
    ensures Searching(nodes, adj, settled, group + found, remaining - found, next, root)
  {
    var current := frontier[|frontier| - 1];
    assert frontier == frontier[..|frontier| - 1] + [current];
    forall x | x in found
      ensures Reaches(nodes, adj, root, x)
    {
      ReachesNext(nodes, adj, root, current, x);
    }
  }

  /** With an empty frontier the group is everything the root reaches that was not settled
      before, and what is settled stays closed. */
  lemma FinishSearch<T(!new)>(nodes: set<T>, adj: (T, T) -> bool, settled: set<T>, group: set<T>, remaining: set<T>, root: T)
    requires Searching(nodes, adj, settled, group, remaining, [], root)
    ensures forall y :: y in group <==> Reaches(nodes, adj, root, y) && y !in settled
    ensures forall x, y :: x in settled + group && y in nodes && adj(x, y) ==> y in settled + group
  {
    forall y | Reaches(nodes, adj, root, y)
      ensures y in settled + group
    {
      var p :| Joins(nodes, adj, p, root, y);
      PathStaysInside(nodes, adj, settled + group, p);
    }
  }

  // ---------- Completed groups ----------

  /** Each group is what its root reaches and no earlier root does; a root precedes
      everything in its own group and in the later ones. */
  ghost predicate Rooted<T(!new)>(nodes: set<T>, adj: (T, T) -> bool, leq: (T, T) -> bool, roots: seq<T>, groups: seq<set<T>>)
  {
    && |roots| == |groups|
    && (forall g :: 0 <= g < |roots| ==> roots[g] in groups[g])
    && (forall g, y :: 0 <= g < |groups| ==> (y in groups[g] <==> FirstReached(nodes, adj, roots, g, y)))
    && (forall g, h, y :: 0 <= g <= h < |groups| && y in groups[h] ==> leq(roots[g], y))
  }

  ghost predicate FirstReached<T(!new)>(nodes: set<T>, adj: (T, T) -> bool, roots: seq<T>, g: nat, y: T)
    requires g < |roots|
  {
    Reaches(nodes, adj, roots[g], y) && forall h :: 0 <= h < g ==> !Reaches(nodes, adj, roots[h], y)
  }

  ghost predicate InSome<T>(groups: seq<set<T>>, x: T)
  {
    exists g :: 0 <= g < |groups| && x in groups[g]
  }

  /** What the searches return whatever the graph: rooted groups that cover the nodes. */
  ghost predicate RootedGroups<T(!new)>(nodes: set<T>, adj: (T, T) -> bool, leq: (T, T) -> bool, roots: seq<T>, groups: seq<set<T>>)
  {
    Rooted(nodes, adj, leq, roots, groups) && forall x :: x in nodes <==> InSome(groups, x)
  }

  /** What the outer loop keeps: rooted groups over exactly the settled nodes, which are
      closed, and every root before everything still remaining. */
  ghost predicate Grouping<T(!new)>(nodes: set<T>, adj: (T, T) -> bool, leq: (T, T) -> bool, roots: seq<T>,
                                    groups: seq<set<T>>, settled: set<T>, remaining: set<T>)
  {
    && (forall x :: x in nodes <==> x in settled || x in remaining)
    && (forall x :: x in remaining ==> x !in settled)
    && (forall x, y :: x in settled && y in nodes && adj(x, y) ==> y in settled)
    && (forall x :: x in settled <==> InSome(groups, x))
    && Rooted(nodes, adj, leq, roots, groups)
    && (forall g, y :: 0 <= g < |roots| && y in remaining ==> leq(roots[g], y))
  }

  // Settled nodes are the ones some earlier root reaches.
  lemma SettledIsReached<T(!new)>(nodes: set<T>, adj: (T, T) -> bool, leq: (T, T) -> bool, roots: seq<T>,
                                  groups: seq<set<T>>, settled: set<T>, remaining: set<T>, y: T)
    requires Grouping(nodes, adj, leq, roots, groups, settled, remaining)
    ensures y in settled <==> exists h :: 0 <= h < |roots| && Reaches(nodes, adj, roots[h], y)
  {
    if y in settled {
      var g :| 0 <= g < |groups| && y in groups[g];
      assert FirstReached(nodes, adj, roots, g, y);
    }
    if h :| 0 <= h < |roots| && Reaches(nodes, adj, roots[h], y) {
      var p :| Joins(nodes, adj, p, roots[h], y);
      assert roots[h] in groups[h];
      assert InSome(groups, roots[h]);
      PathStaysInside(nodes, adj, settled, p);
    }
  }

  lemma AddGroup<T(!new)>(nodes: set<T>, adj: (T, T) -> bool, leq: (T, T) -> bool, roots: seq<T>, groups: seq<set<T>>,
                          settled: set<T>, before: set<T>, group: set<T>, remaining: set<T>, root: T)
    requires Grouping(nodes, adj, leq, roots, groups, settled, before)
    requires Searching(nodes, adj, settled, group, remaining, [], root)
    requires root in before && forall x :: x in before ==> leq(root, x)
    ensures Grouping(nodes, adj, leq, roots + [root], groups + [group], settled + group, remaining)
  {
    FinishSearch(nodes, adj, settled, group, remaining, root);
    assert forall x :: x in group || x in remaining ==> x in before;
    forall x ensures x in settled + group <==> InSome(groups + [group], x) {
      InSomeSnoc(groups, group, x);
    }
    RootedSnoc(nodes, adj, leq, roots, groups, settled, before, group, root);
  }

  lemma InSomeSnoc<T>(groups: seq<set<T>>, group: set<T>, x: T)
    ensures InSome(groups + [group], x) <==> InSome(groups, x) || x in group
  {
    var more := groups + [group];
    if x in group {
      assert x in more[|groups|];
    }
    if g :| 0 <= g < |groups| && x in groups[g] {
      assert x in more[g];
    }
    if g :| 0 <= g < |more| && x in more[g] {
      assert g < |groups| ==> x in groups[g];
    }
  }

  lemma RootedSnoc<T(!new)>(nodes: set<T>, adj: (T, T) -> bool, leq: (T, T) -> bool, roots: seq<T>, groups: seq<set<T>>,
                            settled: set<T>, before: set<T>, group: set<T>, root: T)
    requires Grouping(nodes, adj, leq, roots, groups, settled, before)
    requires root in group && forall y :: y in group <==> Reaches(nodes, adj, root, y) && y !in settled
    requires forall x :: x in group ==> x in before
    requires forall x :: x in before ==> leq(root, x)
    ensures Rooted(nodes, adj, leq, roots + [root], groups + [group])
  {
    var moreRoots, more := roots + [root], groups + [group];
    forall g, y | 0 <= g < |more|
      ensures y in more[g] <==> FirstReached(nodes, adj, moreRoots, g, y)
    {
      if g < |groups| {
        assert y in groups[g] <==> FirstReached(nodes, adj, roots, g, y);
        assert forall h :: 0 <= h < g ==> moreRoots[h] == roots[h];
      } else {
        SettledIsReached(nodes, adj, leq, roots, groups, settled, before, y);
        assert forall h :: 0 <= h < |roots| ==> moreRoots[h] == roots[h];
      }
    }
    forall g, h, y | 0 <= g <= h < |more| && y in more[h]
      ensures leq(moreRoots[g], y)
    {
      if h < |groups| {
        assert y in groups[h];
      } else {
        assert y in before;
      }
    }
  }

  lemma AllGrouped<T(!new)>(nodes: set<T>, adj: (T, T) -> bool, leq: (T, T) -> bool, roots: seq<T>, groups: seq<set<T>>, settled: set<T>)
    requires Grouping(nodes, adj, leq, roots, groups, settled, {})
    ensures RootedGroups(nodes, adj, leq, roots, groups)
  {
    assert forall x :: x in nodes <==> x in settled;
  }

  // ---------- When the groups are classes ----------

  ghost predicate ReachSymmetric<T(!new)>(nodes: set<T>, adj: (T, T) -> bool)
  {
    forall a, b :: Reaches(nodes, adj, a, b) ==> Reaches(nodes, adj, b, a)
  }

  lemma SymmetricReaches<T(!new)>(nodes: set<T>, adj: (T, T) -> bool)
    requires Symmetric(nodes, adj)
    ensures ReachSymmetric(nodes, adj)
  {
    forall a, b | Reaches(nodes, adj, a, b)
      ensures Reaches(nodes, adj, b, a)
    {
      ReachesSymmetric(nodes, adj, a, b);
    }
  }

  /** Rooted groups are the reachability classes exactly when reaching goes both ways. */
  lemma ClassesExactlyWhenReachSymmetric<T(!new)>(nodes: set<T>, adj: (T, T) -> bool, leq: (T, T) -> bool,
                                                  roots: seq<T>, groups: seq<set<T>>)
    requires RootedGroups(nodes, adj, leq, roots, groups)
    ensures Classes(nodes, adj, leq, groups) <==> ReachSymmetric(nodes, adj)
  {
    if ReachSymmetric(nodes, adj) {
      RootedClasses(nodes, adj, leq, roots, groups);
    }
    if Classes(nodes, adj, leq, groups) {
      forall a, b | Reaches(nodes, adj, a, b)
        ensures Reaches(nodes, adj, b, a)
      {
        var p :| Joins(nodes, adj, p, a, b);
        assert p[0] in nodes && InSome(groups, a);
        var g :| 0 <= g < |groups| && a in groups[g];
        assert b in groups[g];
      }
    }
  }

  lemma OneGroupEach<T(!new)>(nodes: set<T>, adj: (T, T) -> bool, leq: (T, T) -> bool, roots: seq<T>, groups: seq<set<T>>,
                              g: nat, h: nat, x: T)
    requires Rooted(nodes, adj, leq, roots, groups) && g < h < |groups| && x in groups[g]
    ensures x !in groups[h]
  {
    assert FirstReached(nodes, adj, roots, g, x);
    assert !FirstReached(nodes, adj, roots, h, x);
  }

  lemma SameGroup<T(!new)>(nodes: set<T>, adj: (T, T) -> bool, leq: (T, T) -> bool, roots: seq<T>, groups: seq<set<T>>, g: nat, x: T, y: T)
    requires Rooted(nodes, adj, leq, roots, groups) && ReachSymmetric(nodes, adj)
    requires g < |groups| && x in groups[g]
    ensures y in groups[g] <==> Reaches(nodes, adj, x, y)
  {
    assert FirstReached(nodes, adj, roots, g, x);
    assert Reaches(nodes, adj, x, roots[g]);
    if y in groups[g] {
      assert FirstReached(nodes, adj, roots, g, y);
      ReachesThrough(nodes, adj, x, roots[g], y);
    }
    if Reaches(nodes, adj, x, y) {
      ReachesThrough(nodes, adj, roots[g], x, y);
      forall h | 0 <= h < g
        ensures !Reaches(nodes, adj, roots[h], y)
      {
        if Reaches(nodes, adj, roots[h], y) {
          ReachesThrough(nodes, adj, roots[h], y, x);
        }
      }
      assert FirstReached(nodes, adj, roots, g, y);
    }
  }

  lemma RootedClasses<T(!new)>(nodes: set<T>, adj: (T, T) -> bool, leq: (T, T) -> bool, roots: seq<T>, groups: seq<set<T>>)
    requires RootedGroups(nodes, adj, leq, roots, groups) && ReachSymmetric(nodes, adj)
    ensures Classes(nodes, adj, leq, groups)
  {
    forall x | x in nodes
      ensures exists g :: 0 <= g < |groups| && x in groups[g]
    {
      assert InSome(groups, x);
    }
    forall g, x, y | 0 <= g < |groups| && x in groups[g]
      ensures y in groups[g] <==> Reaches(nodes, adj, x, y)
    {
      SameGroup(nodes, adj, leq, roots, groups, g, x, y);
    }
    forall g, h, x | 0 <= g < h < |groups| && x in groups[g]
      ensures x !in groups[h]
    {
      OneGroupEach(nodes, adj, leq, roots, groups, g, h, x);
    }
    forall g, h | 0 <= g < h < |groups|
      ensures Leads(leq, groups[g], groups[h])
    {
      assert roots[g] in groups[g];
    }
    assert forall g :: 0 <= g < |groups| ==> roots[g] in groups[g];
  }

  // ---------- Choosing the least element ----------

  method Least(remaining: set<int>) returns (least: int)
    requires remaining != {}
    ensures least in remaining && forall x :: x in remaining ==> least <= x
  {
    ghost var present := Member(remaining);
    least :| least in remaining;
    var todo := remaining - {least};
    while todo != {}
      invariant least in remaining && todo <= remaining
      invariant forall x :: x in remaining && x !in todo ==> least <= x
      decreases todo
    {
      ghost var another := Member(todo);
      var x :| x in todo;
      if x < least {
        least := x;
      }
      todo := todo - {x};
    }
  }

  predicate IntLeq(a: int, b: int) { a <= b }

  function Indices(n: nat): (r: set<int>)
    ensures forall i :: i in r <==> 0 <= i < n
  {
    if n == 0 then {} else Indices(n - 1) + {n - 1}
  }
}
