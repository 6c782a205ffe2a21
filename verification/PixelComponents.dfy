/** Four-neighbour connected components of eligible pixels (plumegraph/science.py). */
module PixelComponents {
  import opened Prelude
  import opened Reachability

  type Coordinate = (int, int)

  datatype Pixel = Pixel(id: string, mirrorStep: int, xtrack: int)
  {
    function At(): Coordinate { (mirrorStep, xtrack) }
  }

  // Later pixels overwrite earlier ones that share a key, as in a dict comprehension.
  function ById(pixels: seq<Pixel>): map<string, Pixel>
  {
    if pixels == [] then map[] else ById(pixels[..|pixels| - 1])[pixels[|pixels| - 1].id := pixels[|pixels| - 1]]
  }

  function Coordinates(pixels: seq<Pixel>, eligible: set<string>): map<Coordinate, string>
  {
    if pixels == [] then map[]
    else
      var before, p := Coordinates(pixels[..|pixels| - 1], eligible), pixels[|pixels| - 1];
      if p.id in eligible then before[p.At() := p.id] else before
  }

  function Around(at: Coordinate): seq<Coordinate>
  {
    [(at.0 - 1, at.1), (at.0 + 1, at.1), (at.0, at.1 - 1), (at.0, at.1 + 1)]
  }

  predicate Beside(byId: map<string, Pixel>, coordinates: map<Coordinate, string>, p: string, q: string)
  {
    p in byId && exists at :: at in Around(byId[p].At()) && at in coordinates && coordinates[at] == q
  }

  function Adjacent(pixels: seq<Pixel>, eligible: set<string>): (string, string) -> bool
  {
    var byId, coordinates := ById(pixels), Coordinates(pixels, eligible);
    (p: string, q: string) => Beside(byId, coordinates, p, q)
  }

  ghost predicate DistinctIds(pixels: seq<Pixel>)
  {
    forall i, j :: 0 <= i < j < |pixels| ==> pixels[i].id != pixels[j].id
  }

  // ---------- When adjacency is symmetric ----------

  lemma {:induction false} ByIdAt(pixels: seq<Pixel>)
    requires DistinctIds(pixels)
    ensures forall i :: 0 <= i < |pixels| ==> pixels[i].id in ById(pixels) && ById(pixels)[pixels[i].id] == pixels[i]
    ensures forall id :: id in ById(pixels) ==> ById(pixels)[id].id == id && ById(pixels)[id] in pixels
  {
    if pixels != [] {
      var n := |pixels| - 1;
      ByIdAt(pixels[..n]);
      assert forall i :: 0 <= i < n ==> pixels[..n][i] == pixels[i];
    }
  }

  lemma {:induction false} CoordinateOwner(pixels: seq<Pixel>, eligible: set<string>)
    requires DistinctIds(pixels)
    ensures forall at :: at in Coordinates(pixels, eligible) ==>
      exists i :: 0 <= i < |pixels| && pixels[i].At() == at
                  && pixels[i].id == Coordinates(pixels, eligible)[at] && pixels[i].id in eligible
    ensures forall i :: 0 <= i < |pixels| && pixels[i].id in eligible ==> pixels[i].At() in Coordinates(pixels, eligible)
  {
    if pixels != [] {
      var n := |pixels| - 1;
      CoordinateOwner(pixels[..n], eligible);
      assert forall i :: 0 <= i < n ==> pixels[..n][i] == pixels[i];
    }
  }

  // A pixel whose coordinate was overwritten by a later one.
  ghost predicate Shadowed(pixels: seq<Pixel>, eligible: set<string>, p: string)
  {
    var byId, coordinates := ById(pixels), Coordinates(pixels, eligible);
    p in byId && byId[p].At() in coordinates && coordinates[byId[p].At()] != p
  }

  ghost predicate HasNeighbor(pixels: seq<Pixel>, eligible: set<string>, p: string)
  {
    p in ById(pixels) && exists at :: at in Around(ById(pixels)[p].At()) && at in Coordinates(pixels, eligible)
  }

  lemma {:induction false} OwnerFacts(pixels: seq<Pixel>, eligible: set<string>, at: Coordinate)
    requires DistinctIds(pixels)
    requires at in Coordinates(pixels, eligible)
    ensures var q := Coordinates(pixels, eligible)[at];
      q in eligible && q in ById(pixels) && ById(pixels)[q].At() == at
  {
    ByIdAt(pixels);
    CoordinateOwner(pixels, eligible);
    var i :| 0 <= i < |pixels| && pixels[i].At() == at
             && pixels[i].id == Coordinates(pixels, eligible)[at] && pixels[i].id in eligible;
  }

  // Whatever a neighbour lookup finds owns its coordinate.
  lemma FoundIsNotShadowed(pixels: seq<Pixel>, eligible: set<string>, p: string, q: string)
    requires DistinctIds(pixels)
    requires Adjacent(pixels, eligible)(p, q)
    ensures !Shadowed(pixels, eligible, q)
  {
    var byId, coordinates := ById(pixels), Coordinates(pixels, eligible);
    var at :| at in Around(byId[p].At()) && at in coordinates && coordinates[at] == q;
    OwnerFacts(pixels, eligible, at);
  }

  lemma {:induction false} OwnerIsFoundBack(pixels: seq<Pixel>, eligible: set<string>, p: string, q: string)
    requires DistinctIds(pixels)
    requires p in eligible && p in ById(pixels) && !Shadowed(pixels, eligible, p)
    requires Adjacent(pixels, eligible)(p, q)
    ensures Adjacent(pixels, eligible)(q, p)
  {
    var byId, coordinates := ById(pixels), Coordinates(pixels, eligible);
    var at :| at in Around(byId[p].At()) && at in coordinates && coordinates[at] == q;
    OwnerFacts(pixels, eligible, at);
    ByIdAt(pixels);
    CoordinateOwner(pixels, eligible);
    assert byId[p] in pixels;
    assert coordinates[byId[p].At()] == p;
    AroundBothWays(byId[p].At(), at);
  }

  // No eligible pixel that lost its coordinate to a later pixel has an eligible neighbour.
  ghost predicate ShadowedStandAlone(pixels: seq<Pixel>, eligible: set<string>)
  {
    forall p :: p in eligible && Shadowed(pixels, eligible, p) ==> !HasNeighbor(pixels, eligible, p)
  }

  /** Adjacency is symmetric exactly when no eligible pixel that lost its coordinate to
      a later pixel has an eligible neighbour. */
  lemma {:induction false} SymmetricExactlyWhenNoShadowedNeighbor(pixels: seq<Pixel>, eligible: set<string>)
    requires DistinctIds(pixels)
    requires forall p :: p in eligible ==> p in ById(pixels)
    ensures Symmetric(eligible, Adjacent(pixels, eligible)) <==> ShadowedStandAlone(pixels, eligible)
  {
    var adj := Adjacent(pixels, eligible);
    if Symmetric(eligible, adj) {
      forall p | p in eligible && Shadowed(pixels, eligible, p)
        ensures !HasNeighbor(pixels, eligible, p)
      {
        if at :| at in Around(ById(pixels)[p].At()) && at in Coordinates(pixels, eligible) {
          OwnerFacts(pixels, eligible, at);
          var q := Coordinates(pixels, eligible)[at];
          assert adj(p, q);
          FoundIsNotShadowed(pixels, eligible, q, p);
        }
      }
    }
    if ShadowedStandAlone(pixels, eligible) {
      forall p, q | p in eligible && q in eligible && adj(p, q)
        ensures adj(q, p)
      {
        assert HasNeighbor(pixels, eligible, p);
        OwnerIsFoundBack(pixels, eligible, p, q);
      }
    }
  }

  lemma AroundBothWays(a: Coordinate, b: Coordinate)
    requires b in Around(a)
    ensures a in Around(b)
  {
    var i :| 0 <= i < 4 && Around(a)[i] == b;
    assert Around(b)[if i % 2 == 0 then i + 1 else i - 1] == a;
  }

  /** Distinct coordinates are enough: nothing is then shadowed. */
  lemma {:induction false} DistinctCoordinatesSuffice(pixels: seq<Pixel>, eligible: set<string>)
    requires DistinctIds(pixels)
    requires forall p :: p in eligible ==> p in ById(pixels)
    requires forall i, j :: 0 <= i < j < |pixels| ==> pixels[i].At() != pixels[j].At()
    ensures Symmetric(eligible, Adjacent(pixels, eligible))
  {
    ByIdAt(pixels);
    CoordinateOwner(pixels, eligible);
    forall p | p in eligible
      ensures !Shadowed(pixels, eligible, p)
    {
      var at := ById(pixels)[p].At();
      if at in Coordinates(pixels, eligible) {
        OwnerFacts(pixels, eligible, at);
      }
    }
    SymmetricExactlyWhenNoShadowedNeighbor(pixels, eligible);
  }

  // ---------- When components are reachability classes ----------

  // No lookup finds a shadowed pixel, so only the empty walk ends in one.
  lemma ShadowedIsReachedByItselfOnly(pixels: seq<Pixel>, eligible: set<string>, p: string, q: string)
    requires DistinctIds(pixels)
    requires Shadowed(pixels, eligible, q)
    requires Reaches(eligible, Adjacent(pixels, eligible), p, q)
    ensures p == q
  {
    var adj := Adjacent(pixels, eligible);
    var path :| Joins(eligible, adj, path, p, q);
    if |path| > 1 {
      assert adj(path[|path| - 2], path[|path| - 1]);
      FoundIsNotShadowed(pixels, eligible, path[|path| - 2], q);
    }
  }

  /** Reaching goes both ways exactly when no shadowed eligible pixel has an eligible
      neighbour: it would reach that neighbour and never be reached back. */
  lemma {:induction false} ReachSymmetricExactlyWhenShadowedStandAlone(pixels: seq<Pixel>, eligible: set<string>)
    requires DistinctIds(pixels)
    requires forall p :: p in eligible ==> p in ById(pixels)
    ensures ReachSymmetric(eligible, Adjacent(pixels, eligible)) <==> ShadowedStandAlone(pixels, eligible)
  {
    var adj := Adjacent(pixels, eligible);
    SymmetricExactlyWhenNoShadowedNeighbor(pixels, eligible);
    if ShadowedStandAlone(pixels, eligible) {
      SymmetricReaches(eligible, adj);
    }
    if ReachSymmetric(eligible, adj) {
      forall p | p in eligible && Shadowed(pixels, eligible, p)
        ensures !HasNeighbor(pixels, eligible, p)
      {
        if at :| at in Around(ById(pixels)[p].At()) && at in Coordinates(pixels, eligible) {
          OwnerFacts(pixels, eligible, at);
          var q := Coordinates(pixels, eligible)[at];
          assert adj(p, q);
          FoundIsNotShadowed(pixels, eligible, p, q);
          ReachesItself(eligible, adj, p);
          ReachesNext(eligible, adj, p, p, q);
          ShadowedIsReachedByItselfOnly(pixels, eligible, q, p);
        }
      }
    }
  }

  /** A shadowed pixel joins no component but the one it starts itself. */
  lemma {:induction false} ShadowedIsItsOwnRoot(pixels: seq<Pixel>, eligible: set<string>, roots: seq<string>, components: seq<set<string>>,
                             g: nat, p: string)
    requires DistinctIds(pixels)
    requires RootedGroups(eligible, Adjacent(pixels, eligible), TextLeq, roots, components)
    requires g < |components| && p in components[g] && Shadowed(pixels, eligible, p)
    ensures roots[g] == p
    ensures forall q :: q in components[g] ==> TextLeq(p, q)
  {
    assert FirstReached(eligible, Adjacent(pixels, eligible), roots, g, p);
    ShadowedIsReachedByItselfOnly(pixels, eligible, roots[g], p);
  }

  // Two granules of one observation time cover the place (3, 4); the later row owns it.
  function TwoGranules(): seq<Pixel>
  {
    [Pixel("b", 3, 4), Pixel("c", 3, 4), Pixel("a", 3, 5)]
  }

  lemma TwoGranulesShadow()
    ensures DistinctIds(TwoGranules())
    ensures ById(TwoGranules()) == map["b" := Pixel("b", 3, 4), "c" := Pixel("c", 3, 4), "a" := Pixel("a", 3, 5)]
    ensures Coordinates(TwoGranules(), {"a", "b", "c"}) == map[(3, 4) := "c", (3, 5) := "a"]
  {
    var pixels := TwoGranules();
    assert pixels[..2][..1] == [pixels[0]] && pixels[..2][1] == pixels[1] && pixels[..2][..1][..0] == [];
    assert ById(pixels[..2][..1]) == map["b" := pixels[0]];
    assert Coordinates(pixels[..2][..1], {"a", "b", "c"}) == map[(3, 4) := "b"];
    assert ById(pixels[..2]) == map["b" := pixels[0], "c" := pixels[1]];
    assert Coordinates(pixels[..2], {"a", "b", "c"}) == map[(3, 4) := "c"];
  }

  lemma ShadowedBesideAnother()
    ensures Shadowed(TwoGranules(), {"a", "b", "c"}, "b")
    ensures HasNeighbor(TwoGranules(), {"a", "b", "c"}, "b")
    ensures Adjacent(TwoGranules(), {"a", "b", "c"})("b", "a")
  {
    TwoGranulesShadow();
    var beside := Around((3, 4))[3];
    assert beside in Around((3, 4)) && beside in Coordinates(TwoGranules(), {"a", "b", "c"});
  }

  /** Two retrievals of one place beside a third pixel: the shadowed retrieval is next to
      that pixel, yet every result of the search puts the two in different components. */
  lemma ShadowedPixelIsSplitOff(roots: seq<string>, components: seq<set<string>>)
    requires RootedGroups({"a", "b", "c"}, Adjacent(TwoGranules(), {"a", "b", "c"}), TextLeq, roots, components)
    ensures Adjacent(TwoGranules(), {"a", "b", "c"})("b", "a")
    ensures !ShadowedStandAlone(TwoGranules(), {"a", "b", "c"})
    ensures forall g :: 0 <= g < |components| && "b" in components[g] ==> "a" !in components[g]
    ensures !Classes({"a", "b", "c"}, Adjacent(TwoGranules(), {"a", "b", "c"}), TextLeq, components)
  {
    var pixels, eligible := TwoGranules(), {"a", "b", "c"};
    ShadowedBesideAnother();
    TwoGranulesShadow();
    forall g | 0 <= g < |components| && "b" in components[g]
      ensures "a" !in components[g]
    {
      ShadowedIsItsOwnRoot(pixels, eligible, roots, components, g, "b");
      assert !TextLeq("b", "a");
    }
    ReachSymmetricExactlyWhenShadowedStandAlone(pixels, eligible);
    ClassesExactlyWhenReachSymmetric(eligible, Adjacent(pixels, eligible), TextLeq, roots, components);
  }

  // ---------- The search ----------

  method LeastId(remaining: set<string>) returns (least: string)
    requires remaining != {}
    ensures least in remaining && forall x :: x in remaining ==> TextLeq(least, x)
  {
    ghost var present := Member(remaining);
    least :| least in remaining;
    TextLeqPreorder();
    var todo := remaining - {least};
    while todo != {}
      invariant least in remaining && todo <= remaining
      invariant forall x :: x in remaining && x !in todo ==> TextLeq(least, x)
      decreases todo
    {
      ghost var another := Member(todo);
      var x :| x in todo;
      if !TextLeq(least, x) {
        least := x;
      }
      todo := todo - {x};
    }
  }

  // One frontier step: the four neighbouring coordinates, in the source's order.
  method Visit(byId: map<string, Pixel>, coordinates: map<Coordinate, string>, current: string, unvisited: set<string>,
               frontier: seq<string>)
    returns (found: set<string>, next: seq<string>)
    requires current in byId
    ensures forall q :: q in found <==> q in unvisited && Beside(byId, coordinates, current, q)
    ensures forall x :: x in next <==> x in frontier || x in found
    ensures found == {} ==> next == frontier
  {
    found, next := {}, frontier;
    var around := Around(byId[current].At());
    for i := 0 to 4
      invariant forall q :: q in found <==>
        q in unvisited && exists j :: 0 <= j < i && around[j] in coordinates && coordinates[around[j]] == q
      invariant forall x :: x in next <==> x in frontier || x in found
      invariant found == {} ==> next == frontier
    {
      if around[i] in coordinates && coordinates[around[i]] in unvisited - found {
        var q := coordinates[around[i]];
        found, next := found + {q}, next + [q];
      }
    }
    forall q
      ensures q in found <==> q in unvisited && Beside(byId, coordinates, current, q)
    {
      if j :| 0 <= j < 4 && around[j] in coordinates && coordinates[around[j]] == q {
        assert around[j] in around;
      }
      if Beside(byId, coordinates, current, q) {
        var at :| at in around && at in coordinates && coordinates[at] == q;
        var j :| 0 <= j < 4 && around[j] == at;
      }
    }
  }

  /** Each component is what its root, the smallest identifier left, reaches through
      side-by-side eligible pixels and no earlier root did. The components are the pixels
      joined by chains exactly when no shadowed eligible pixel has an eligible neighbour. */
  method ConnectedComponents(pixels: seq<Pixel>, eligible: set<string>) returns (components: seq<set<string>>)
    requires forall p :: p in eligible ==> p in ById(pixels)
    ensures exists roots: seq<string> :: RootedGroups(eligible, Adjacent(pixels, eligible), TextLeq, roots, components)
    ensures Classes(eligible, Adjacent(pixels, eligible), TextLeq, components) <==> ReachSymmetric(eligible, Adjacent(pixels, eligible))
    ensures DistinctIds(pixels) ==>
      (Classes(eligible, Adjacent(pixels, eligible), TextLeq, components) <==> ShadowedStandAlone(pixels, eligible))
  {
    ghost var adj := Adjacent(pixels, eligible);
    var byId, coordinates := ById(pixels), Coordinates(pixels, eligible);
    var unvisited := eligible;
    components := [];
    ghost var settled: set<string>, roots: seq<string> := {}, [];
    while unvisited != {}
      invariant Grouping(eligible, adj, TextLeq, roots, components, settled, unvisited)
      decreases unvisited
    {
      ghost var before := unvisited;
      var root := LeastId(unvisited);
      StartSearch(eligible, adj, settled, unvisited, root);
      var component, frontier := {root}, [root];
      unvisited := unvisited - {root};
      while frontier != []
        invariant Searching(eligible, adj, settled, component, unvisited, frontier, root)
        invariant unvisited < before
        decreases unvisited, |frontier|
      {
        var current := frontier[|frontier| - 1];
        assert current in frontier && current in eligible;
        ghost var was := unvisited;
        var found, next := Visit(byId, coordinates, current, unvisited, frontier[..|frontier| - 1]);
        Absorb(eligible, adj, settled, component, unvisited, frontier, root, found, next);
        if found == {} {
          assert unvisited - found == was;
        } else {
          ghost var q := Member(found);
          assert q in was && q !in was - found;
        }
        component, unvisited := component + found, unvisited - found;
        frontier := next;
      }
      AddGroup(eligible, adj, TextLeq, roots, components, settled, before, component, unvisited, root);
      components := components + [component];
      settled, roots := settled + component, roots + [root];
    }
    AllGrouped(eligible, adj, TextLeq, roots, components, settled);
    ClassesExactlyWhenReachSymmetric(eligible, adj, TextLeq, roots, components);
    if DistinctIds(pixels) {
      ReachSymmetricExactlyWhenShadowedStandAlone(pixels, eligible);
    }
  }
}
