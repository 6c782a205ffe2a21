/** The validators every RiverPulse generation must pass (riverpulse/network.py), and why
    the corridor walk never fails them. */
module NetworkValidation {
  import opened Prelude
  import opened Mainstem

  datatype NetworkError =
    | BadReachIds | HasSelfEdge | DuplicateEdge | EdgeStartsOutside | EdgeEndsOutside | EdgeNotReciprocal
    | CorridorTooLong | AnchorsDiffer

  // ---------- What the validators accept ----------

  function Ids(reaches: seq<Reach>): (r: seq<string>)
    ensures |r| == |reaches| && forall i :: 0 <= i < |r| ==> r[i] == reaches[i].id
  {
    seq(|reaches|, i requires 0 <= i < |reaches| => reaches[i].id)
  }

  function CountOf(reaches: seq<Reach>, basin: string): nat
  {
    if reaches == [] then 0
    else CountOf(reaches[..|reaches| - 1], basin) + if reaches[|reaches| - 1].basin == basin then 1 else 0
  }

  // Anchors flagged in a basin, in row order.
  function AnchorsOf(reaches: seq<Reach>, basin: string): seq<string>
  {
    if reaches == [] then []
    else
      var last := reaches[|reaches| - 1];
      AnchorsOf(reaches[..|reaches| - 1], basin) + if last.isAnchor && last.basin == basin then [last.id] else []
  }

  ghost predicate HasPair(edges: seq<Edge>, start: string, end: string)
  {
    exists e :: e in edges && e.start == start && e.end == end
  }

  ghost predicate EdgeFits(ids: seq<string>, edges: seq<Edge>, e: Edge)
  {
    && e.start != e.end && e.start in ids
    && (!e.boundary ==> e.end in ids && HasPair(edges, e.end, e.start))
  }

  ghost predicate EdgesFit(ids: seq<string>, edges: seq<Edge>)
  {
    DistinctPairs(edges) && forall e :: e in edges ==> EdgeFits(ids, edges, e)
  }

  ghost predicate ValidNetwork(reaches: seq<Reach>, edges: seq<Edge>)
  {
    && reaches != [] && Distinct(Ids(reaches))
    && EdgesFit(Ids(reaches), edges)
    && forall basin :: CountOf(reaches, basin) <= 100
  }

  ghost predicate HasBasin(reaches: seq<Reach>, basin: string)
  {
    exists r :: r in reaches && r.basin == basin
  }

  ghost predicate ValidAnchors(reaches: seq<Reach>, anchors: map<string, string>)
  {
    && (forall b :: b in anchors <==> HasBasin(reaches, b))
    && (forall b :: b in anchors ==> AnchorsOf(reaches, b) == [anchors[b]])
  }

  // ---------- The validators ----------

  ghost predicate EdgeStartsWell(ids: seq<string>, e: Edge)
  {
    e.start != e.end && e.start in ids && (!e.boundary ==> e.end in ids)
  }

  ghost predicate AreThePairs(pairs: set<(string, string)>, edges: seq<Edge>)
  {
    forall s, t :: (s, t) in pairs <==> HasPair(edges, s, t)
  }

  lemma PairsSnoc(edges: seq<Edge>, i: nat, pairs: set<(string, string)>)
    requires i < |edges| && AreThePairs(pairs, edges[..i])
    ensures AreThePairs(pairs + {(edges[i].start, edges[i].end)}, edges[..i + 1])
    ensures DistinctPairs(edges[..i + 1]) <==> DistinctPairs(edges[..i]) && (edges[i].start, edges[i].end) !in pairs
  {
    var front, e, all := edges[..i], edges[i], edges[..i + 1];
    TakeSnoc(edges, i);
    forall s, t ensures (s, t) in pairs + {(e.start, e.end)} <==> HasPair(all, s, t) {
      if HasPair(all, s, t) {
        var f :| f in all && f.start == s && f.end == t;
        assert f in front || f == e;
      }
      if HasPair(front, s, t) {
        var f :| f in front && f.start == s && f.end == t;
        assert f in all;
      }
      assert e in all;
    }
    if DistinctPairs(all) {
      assert forall k :: 0 <= k < i ==> all[k] == front[k] && all[i] == e;
      assert !HasPair(front, e.start, e.end);
    }
    if DistinctPairs(front) && !HasPair(front, e.start, e.end) {
      forall h, k | 0 <= h < k < |all|
        ensures all[h].start != all[k].start || all[h].end != all[k].end
      {
        assert all[h] == front[h] && front[h] in front;
      }
    }
  }

  method CollectPairs(ids: seq<string>, edges: seq<Edge>) returns (r: Result<set<(string, string)>, NetworkError>)
    ensures r.Ok? <==> DistinctPairs(edges) && forall e :: e in edges ==> EdgeStartsWell(ids, e)
    ensures r.Ok? ==> AreThePairs(r.value, edges)
  {
    var pairs: set<(string, string)> := {};
    for i := 0 to |edges|
      invariant AreThePairs(pairs, edges[..i]) && DistinctPairs(edges[..i])
      invariant forall e :: e in edges[..i] ==> EdgeStartsWell(ids, e)
    {
      var e := edges[i];
      TakeSnoc(edges, i);
      PairsSnoc(edges, i, pairs);
      if e.start == e.end {
        return Err(HasSelfEdge);
      }
      if (e.start, e.end) in pairs {
        assert !DistinctPairs(edges) by {
          DistinctPairsOfPrefix(edges, i + 1);
        }
        return Err(DuplicateEdge);
      }
      pairs := pairs + {(e.start, e.end)};
      if e.start !in ids {
        return Err(EdgeStartsOutside);
      }
      if !e.boundary && e.end !in ids {
        return Err(EdgeEndsOutside);
      }
    }
    assert edges[..|edges|] == edges;
    r := Ok(pairs);
  }

  lemma DistinctPairsOfPrefix(edges: seq<Edge>, n: nat)
    requires n <= |edges|
    ensures DistinctPairs(edges) ==> DistinctPairs(edges[..n])
  {
  }

  // The first row with the pair.
  function RowOf(edges: seq<Edge>, start: string, end: string): (e: Edge)
    requires HasPair(edges, start, end)
    ensures e in edges && e.start == start && e.end == end
  {
    assert forall e :: e in edges <==> e == edges[0] || e in edges[1..];
    if edges[0].start == start && edges[0].end == end then edges[0] else RowOf(edges[1..], start, end)
  }

  lemma {:induction false} RowIsUnique(edges: seq<Edge>, e: Edge)
    requires DistinctPairs(edges) && e in edges
    ensures HasPair(edges, e.start, e.end) && RowOf(edges, e.start, e.end) == e
  {
    var f := RowOf(edges, e.start, e.end);
    var i :| 0 <= i < |edges| && edges[i] == e;
    var j :| 0 <= j < |edges| && edges[j] == f;
  }

  method CheckReciprocal(edges: seq<Edge>, pairs: set<(string, string)>) returns (ok: bool)
    requires DistinctPairs(edges) && AreThePairs(pairs, edges)
    ensures ok <==> forall e :: e in edges && !e.boundary ==> HasPair(edges, e.end, e.start)
  {
    var todo := pairs;
    while todo != {}
      invariant todo <= pairs
      invariant forall e :: e in edges && !e.boundary && (e.start, e.end) !in todo ==> HasPair(edges, e.end, e.start)
      decreases |todo|
    {
      ghost var some := Member(todo);
      var pair :| pair in todo;
      assert (pair.0, pair.1) in pairs;
      var row := RowOf(edges, pair.0, pair.1);
      if !row.boundary && (pair.1, pair.0) !in pairs {
        return false;
      }
      forall e | e in edges && e.start == pair.0 && e.end == pair.1
        ensures e == row
      {
        RowIsUnique(edges, e);
      }
      todo := todo - {pair};
    }
    forall e | e in edges
      ensures (e.start, e.end) in pairs
    {
      assert HasPair(edges, e.start, e.end);
    }
    ok := true;
  }

  method CountBasins(reaches: seq<Reach>) returns (counts: map<string, nat>)
    ensures forall b :: (if b in counts then counts[b] else 0) == CountOf(reaches, b)
  {
    counts := map[];
    for i := 0 to |reaches|
      invariant forall b :: (if b in counts then counts[b] else 0) == CountOf(reaches[..i], b)
    {
      var b := reaches[i].basin;
      assert reaches[..i + 1][..i] == reaches[..i];
      counts := counts[b := (if b in counts then counts[b] else 0) + 1];
    }
    assert reaches[..|reaches|] == reaches;
  }

  method ValidateNetworkTables(reaches: seq<Reach>, edges: seq<Edge>) returns (r: Result<(), NetworkError>)
    ensures r.Ok? <==> ValidNetwork(reaches, edges)
  {
    var ids := Ids(reaches);
    SetSizeFindsRepeats(ids);
    if reaches == [] || |ids| != |(set id | id in ids)| {
      return Err(BadReachIds);
    }
    var pairs := CollectPairs(ids, edges);
    if pairs.Err? {
      return Err(pairs.error);
    }
    var reciprocal := CheckReciprocal(edges, pairs.value);
    if !reciprocal {
      return Err(EdgeNotReciprocal);
    }
    var counts := CountBasins(reaches);
    if exists b | b in counts :: counts[b] > 100 {
      return Err(CorridorTooLong);
    }
    r := Ok(());
  }

  // A missing key reads as no anchor.
  function Found(actual: map<string, seq<string>>, b: string): seq<string>
  {
    if b in actual then actual[b] else []
  }

  method CollectAnchors(reaches: seq<Reach>) returns (actual: map<string, seq<string>>, basins: set<string>)
    ensures forall b :: b in basins <==> HasBasin(reaches, b)
    ensures forall b :: Found(actual, b) == AnchorsOf(reaches, b)
  {
    actual, basins := map[], {};
    for i := 0 to |reaches|
      invariant forall b :: b in basins <==> HasBasin(reaches[..i], b)
      invariant forall b :: Found(actual, b) == AnchorsOf(reaches[..i], b)
    {
      var row := reaches[i];
      TakeSnoc(reaches, i);
      HasBasinSnoc(reaches[..i], row);
      AnchorsOfSnoc(reaches[..i], row);
      if row.isAnchor {
        actual := actual[row.basin := Found(actual, row.basin) + [row.id]];
      }
      basins := basins + {row.basin};
    }
    assert reaches[..|reaches|] == reaches;
  }

  lemma {:induction false} AnchorsOfSnoc(front: seq<Reach>, row: Reach)
    ensures forall b :: AnchorsOf(front + [row], b) == AnchorsOf(front, b) + if row.isAnchor && row.basin == b then [row.id] else []
  {
    assert (front + [row])[..|front|] == front;
  }

  lemma HasBasinSnoc(front: seq<Reach>, row: Reach)
    ensures forall b :: HasBasin(front + [row], b) <==> HasBasin(front, b) || b == row.basin
  {
    var all := front + [row];
    assert row in all;
    forall b ensures HasBasin(all, b) <==> HasBasin(front, b) || b == row.basin {
      if HasBasin(front, b) {
        var r :| r in front && r.basin == b;
        assert r in all;
      }
      if HasBasin(all, b) {
        var r :| r in all && r.basin == b;
        assert r in front || r == row;
      }
    }
  }

  method ValidateResolvedAnchors(reaches: seq<Reach>, anchors: map<string, string>) returns (r: Result<(), NetworkError>)
    ensures r.Ok? <==> ValidAnchors(reaches, anchors)
  {
    var actual, basins := CollectAnchors(reaches);
    CollectedAnchorsDecide(reaches, anchors, actual, basins);
    if anchors.Keys != basins || (exists b | b in anchors :: b !in actual || actual[b] != [anchors[b]]) {
      return Err(AnchorsDiffer);
    }
    r := Ok(());
  }

  lemma {:induction false} CollectedAnchorsDecide(reaches: seq<Reach>, anchors: map<string, string>, actual: map<string, seq<string>>,
                               basins: set<string>)
    requires forall b :: b in basins <==> HasBasin(reaches, b)
    requires forall b :: Found(actual, b) == AnchorsOf(reaches, b)
    ensures ValidAnchors(reaches, anchors) <==>
      anchors.Keys == basins && forall b :: b in anchors ==> b in actual && actual[b] == [anchors[b]]
  {
    forall b | b in anchors
      ensures AnchorsOf(reaches, b) == [anchors[b]] <==> b in actual && actual[b] == [anchors[b]]
    {
      AnchorAgrees(actual, b, AnchorsOf(reaches, b), anchors[b]);
    }
    assert (forall b :: b in anchors <==> HasBasin(reaches, b)) <==> anchors.Keys == basins;
  }

  lemma AnchorAgrees(actual: map<string, seq<string>>, b: string, listed: seq<string>, anchor: string)
    requires Found(actual, b) == listed
    ensures listed == [anchor] <==> b in actual && actual[b] == [anchor]
  {
  }

  // ---------- A selection passes ----------

  lemma SelectionIdsAreTheWalk(byId: map<string, Record>, basin: string, limit: nat, s: Selection, walk: seq<string>)
    requires IsSelection(byId, basin, limit, s, walk)
    ensures Ids(s.reaches) == walk
  {
  }

  lemma SelectionEdgesFit(byId: map<string, Record>, basin: string, limit: nat, s: Selection, walk: seq<string>)
    requires IsSelection(byId, basin, limit, s, walk)
    ensures EdgesFit(walk, s.edges)
  {
    forall e | e in s.edges
      ensures EdgeFits(walk, s.edges, e)
    {
      assert e.start in walk && IsEdge(byId, walk, e);
      assert Passes(byId, walk, e.start);
      if !e.boundary {
        assert Reciprocal(byId, e.start, e.end);
        var back := Edge(e.end, e.start, false);
        assert IsEdge(byId, walk, back);
        assert back in s.edges;
      }
    }
  }

  lemma {:induction false} SelectionCounts(reaches: seq<Reach>, walk: seq<string>, basin: string, anchor: string, b: string)
    requires ReachesAlong(reaches, walk, basin, anchor)
    ensures CountOf(reaches, b) == if b == basin then |walk| else 0
    decreases |walk|
  {
    if walk != [] {
      SelectionCounts(reaches[..|walk| - 1], walk[..|walk| - 1], basin, anchor, b);
    }
  }

  lemma {:induction false} SelectionAnchors(reaches: seq<Reach>, walk: seq<string>, basin: string, anchor: string, b: string)
    requires ReachesAlong(reaches, walk, basin, anchor) && Distinct(walk)
    ensures AnchorsOf(reaches, b) == if b == basin && anchor in walk then [anchor] else []
    decreases |walk|
  {
    if walk != [] {
      var front := walk[..|walk| - 1];
      assert walk == front + [walk[|walk| - 1]];
      SelectionAnchors(reaches[..|walk| - 1], front, basin, anchor, b);
      assert walk[|walk| - 1] !in front;
    }
  }

  /** Whatever the walk selects, both validators accept. */
  lemma SelectionPassesValidators(byId: map<string, Record>, basin: string, limit: nat, s: Selection, walk: seq<string>)
    requires IsSelection(byId, basin, limit, s, walk) && limit <= 100
    ensures ValidNetwork(s.reaches, s.edges)
    ensures ValidAnchors(s.reaches, map[basin := s.anchor])
  {
    SelectionIdsAreTheWalk(byId, basin, limit, s, walk);
    SelectionEdgesFit(byId, basin, limit, s, walk);
    forall b ensures CountOf(s.reaches, b) <= 100 {
      SelectionCounts(s.reaches, walk, basin, s.anchor, b);
    }
    SelectionAnchors(s.reaches, walk, basin, s.anchor, basin);
    assert walk[0] in walk;
    assert s.reaches[0] in s.reaches;
    forall b ensures b == basin <==> HasBasin(s.reaches, b) {
      assert s.reaches[0].basin == basin;
    }
  }

  // ---------- Several basins ----------

  datatype Pilot = Pilot(basin: string, selection: Selection)

  ghost predicate PassesAlone(p: Pilot)
  {
    ValidNetwork(p.selection.reaches, p.selection.edges)
    && ValidAnchors(p.selection.reaches, map[p.basin := p.selection.anchor])
  }

  function AllReaches(pilots: seq<Pilot>): seq<Reach>
  {
    if pilots == [] then [] else AllReaches(pilots[..|pilots| - 1]) + pilots[|pilots| - 1].selection.reaches
  }

  function AllEdges(pilots: seq<Pilot>): seq<Edge>
  {
    if pilots == [] then [] else AllEdges(pilots[..|pilots| - 1]) + pilots[|pilots| - 1].selection.edges
  }

  function AllAnchors(pilots: seq<Pilot>): map<string, string>
  {
    if pilots == [] then map[]
    else AllAnchors(pilots[..|pilots| - 1])[pilots[|pilots| - 1].basin := pilots[|pilots| - 1].selection.anchor]
  }

  ghost predicate Disjoint(a: seq<string>, b: seq<string>)
  {
    forall x :: x in a ==> x !in b
  }

  // Distinct basin keys and no reach shared between two selections.
  ghost predicate Independent(pilots: seq<Pilot>)
  {
    forall i, j :: 0 <= i < j < |pilots| ==>
      pilots[i].basin != pilots[j].basin && Disjoint(Ids(pilots[i].selection.reaches), Ids(pilots[j].selection.reaches))
  }

  lemma {:induction false} CountOfJoin(a: seq<Reach>, b: seq<Reach>, basin: string)
    ensures CountOf(a + b, basin) == CountOf(a, basin) + CountOf(b, basin)
  {
    if b == [] {
      assert a + b == a;
    } else {
      assert (a + b)[..|a + b| - 1] == a + b[..|b| - 1];
      CountOfJoin(a, b[..|b| - 1], basin);
    }
  }

  lemma {:induction false} AnchorsOfJoin(a: seq<Reach>, b: seq<Reach>, basin: string)
    ensures AnchorsOf(a + b, basin) == AnchorsOf(a, basin) + AnchorsOf(b, basin)
  {
    if b == [] {
      assert a + b == a;
    } else {
      assert (a + b)[..|a + b| - 1] == a + b[..|b| - 1];
      AnchorsOfJoin(a, b[..|b| - 1], basin);
    }
  }

  lemma HasBasinJoin(a: seq<Reach>, b: seq<Reach>, basin: string)
    ensures HasBasin(a + b, basin) <==> HasBasin(a, basin) || HasBasin(b, basin)
  {
    assert forall r :: r in a + b <==> r in a || r in b;
  }

  lemma {:induction false} NoBasinNoCount(reaches: seq<Reach>, basin: string)
    requires !HasBasin(reaches, basin)
    ensures CountOf(reaches, basin) == 0 && AnchorsOf(reaches, basin) == []
  {
    if reaches != [] {
      var front, last := reaches[..|reaches| - 1], reaches[|reaches| - 1];
      assert reaches == front + [last];
      HasBasinSnoc(front, last);
      NoBasinNoCount(front, basin);
    }
  }

  lemma DistinctJoin(a: seq<string>, b: seq<string>)
    ensures Distinct(a + b) <==> Distinct(a) && Distinct(b) && Disjoint(a, b)
  {
    var all := a + b;
    if Distinct(a) && Distinct(b) && Disjoint(a, b) {
      forall i, j | 0 <= i < j < |all|
        ensures all[i] != all[j]
      {
        if i < |a| <= j {
          assert a[i] in a && b[j - |a|] in b;
        }
      }
    }
    if Distinct(all) {
      assert forall i :: 0 <= i < |a| ==> a[i] == all[i];
      assert forall i :: 0 <= i < |b| ==> b[i] == all[|a| + i];
      forall x | x in a
        ensures x !in b
      {
        var i :| 0 <= i < |a| && a[i] == x;
        assert all[i] == x;
      }
    }
  }

  lemma EdgesFitJoin(ia: seq<string>, ea: seq<Edge>, ib: seq<string>, eb: seq<Edge>)
    requires EdgesFit(ia, ea) && EdgesFit(ib, eb) && Disjoint(ia, ib)
    ensures EdgesFit(ia + ib, ea + eb)
  {
    var all := ea + eb;
    assert forall e :: e in all <==> e in ea || e in eb;
    forall i, j | 0 <= i < j < |all|
      ensures all[i].start != all[j].start || all[i].end != all[j].end
    {
      if i < |ea| <= j {
        assert EdgeFits(ia, ea, ea[i]) && EdgeFits(ib, eb, eb[j - |ea|]);
      }
    }
    forall e | e in all
      ensures EdgeFits(ia + ib, all, e)
    {
      if e in ea {
        assert EdgeFits(ia, ea, e);
      } else {
        assert EdgeFits(ib, eb, e);
      }
    }
  }

  lemma ValidJoin(ra: seq<Reach>, ea: seq<Edge>, anchors: map<string, string>, p: Pilot)
    requires ValidNetwork(ra, ea) && ValidAnchors(ra, anchors) && PassesAlone(p)
    requires p.basin !in anchors && Disjoint(Ids(ra), Ids(p.selection.reaches))
    ensures ValidNetwork(ra + p.selection.reaches, ea + p.selection.edges)
    ensures ValidAnchors(ra + p.selection.reaches, anchors[p.basin := p.selection.anchor])
  {
    var rb := p.selection.reaches;
    EdgesJoinValid(ra, ea, p);
    forall b ensures CountOf(ra + rb, b) <= 100 {
      BasinJoin(ra, anchors, p, b);
    }
    AnchorsJoinValid(ra, ea, anchors, p);
  }

  lemma EdgesJoinValid(ra: seq<Reach>, ea: seq<Edge>, p: Pilot)
    requires ValidNetwork(ra, ea) && PassesAlone(p) && Disjoint(Ids(ra), Ids(p.selection.reaches))
    ensures Distinct(Ids(ra + p.selection.reaches))
    ensures EdgesFit(Ids(ra + p.selection.reaches), ea + p.selection.edges)
  {
    var rb := p.selection.reaches;
    assert Ids(ra + rb) == Ids(ra) + Ids(rb);
    DistinctJoin(Ids(ra), Ids(rb));
    EdgesFitJoin(Ids(ra), ea, Ids(rb), p.selection.edges);
  }

  lemma AnchorsJoinValid(ra: seq<Reach>, ea: seq<Edge>, anchors: map<string, string>, p: Pilot)
    requires ValidNetwork(ra, ea) && ValidAnchors(ra, anchors) && PassesAlone(p) && p.basin !in anchors
    ensures ValidAnchors(ra + p.selection.reaches, anchors[p.basin := p.selection.anchor])
  {
    var all, reaches := anchors[p.basin := p.selection.anchor], ra + p.selection.reaches;
    forall b
      ensures b in all <==> HasBasin(reaches, b)
      ensures b in all ==> AnchorsOf(reaches, b) == [all[b]]
    {
      BasinJoin(ra, anchors, p, b);
    }
  }

  lemma {:induction false} BasinJoin(ra: seq<Reach>, anchors: map<string, string>, p: Pilot, b: string)
    requires ValidAnchors(ra, anchors) && PassesAlone(p) && p.basin !in anchors && CountOf(ra, b) <= 100
    ensures var all, rb := anchors[p.basin := p.selection.anchor], p.selection.reaches;
      && CountOf(ra + rb, b) <= 100
      && (b in all <==> HasBasin(ra + rb, b))
      && (b in all ==> AnchorsOf(ra + rb, b) == [all[b]])
  {
    var rb := p.selection.reaches;
    CountOfJoin(ra, rb, b);
    AnchorsOfJoin(ra, rb, b);
    HasBasinJoin(ra, rb, b);
    assert b in map[p.basin := p.selection.anchor] <==> HasBasin(rb, b);
    if b == p.basin {
      NoBasinNoCount(ra, b);
    } else {
      NoBasinNoCount(rb, b);
    }
  }

  lemma {:induction false} BasinsOfPilots(pilots: seq<Pilot>)
    ensures forall b :: b in AllAnchors(pilots) <==> exists i :: 0 <= i < |pilots| && pilots[i].basin == b
    ensures forall x :: x in Ids(AllReaches(pilots)) <==> exists i :: 0 <= i < |pilots| && x in Ids(pilots[i].selection.reaches)
  {
    if pilots != [] {
      var n := |pilots| - 1;
      var front, last := pilots[..n], pilots[n];
      BasinsOfPilots(front);
      assert forall i :: 0 <= i < n ==> front[i] == pilots[i];
      assert Ids(AllReaches(pilots)) == Ids(AllReaches(front)) + Ids(last.selection.reaches);
    }
  }

  lemma {:induction false} IndependentPilotsPass(pilots: seq<Pilot>)
    requires pilots != [] && (forall p :: p in pilots ==> PassesAlone(p)) && Independent(pilots)
    ensures ValidNetwork(AllReaches(pilots), AllEdges(pilots))
    ensures ValidAnchors(AllReaches(pilots), AllAnchors(pilots))
  {
    var n := |pilots| - 1;
    var front, last := pilots[..n], pilots[n];
    assert last in pilots && PassesAlone(last);
    if front == [] {
      assert AllReaches(front) == [] && AllEdges(front) == [] && AllAnchors(front) == map[];
      assert AllReaches(pilots) == last.selection.reaches;
      assert AllEdges(pilots) == last.selection.edges;
    } else {
      assert forall i :: 0 <= i < n ==> front[i] == pilots[i];
      IndependentPilotsPass(front);
      BasinsOfPilots(front);
      ValidJoin(AllReaches(front), AllEdges(front), AllAnchors(front), last);
    }
  }

  // What validity of a union says about any part of it.
  ghost predicate Unambiguous(pilots: seq<Pilot>)
  {
    Distinct(Ids(AllReaches(pilots))) && forall b :: |AnchorsOf(AllReaches(pilots), b)| <= 1
  }

  lemma {:induction false} EveryPilotHasAnAnchor(pilots: seq<Pilot>, i: nat)
    requires i < |pilots| && forall p :: p in pilots ==> PassesAlone(p)
    ensures AnchorsOf(AllReaches(pilots), pilots[i].basin) != []
  {
    var n := |pilots| - 1;
    AnchorsOfJoin(AllReaches(pilots[..n]), pilots[n].selection.reaches, pilots[i].basin);
    if i < n {
      EveryPilotHasAnAnchor(pilots[..n], i);
    } else {
      assert pilots[i] in pilots;
      PilotHasAnAnchor(pilots[i]);
    }
  }

  lemma PilotHasAnAnchor(p: Pilot)
    requires PassesAlone(p)
    ensures AnchorsOf(p.selection.reaches, p.basin) != []
  {
    assert p.basin in map[p.basin := p.selection.anchor];
  }

  lemma {:induction false} UnambiguousMeansIndependent(pilots: seq<Pilot>)
    requires (forall p :: p in pilots ==> PassesAlone(p)) && Unambiguous(pilots)
    ensures Independent(pilots)
  {
    if pilots != [] {
      var n := |pilots| - 1;
      var front, last := pilots[..n], pilots[n];
      var ra, rb := AllReaches(front), last.selection.reaches;
      assert last in pilots && PassesAlone(last);
      assert Ids(ra + rb) == Ids(ra) + Ids(rb);
      DistinctJoin(Ids(ra), Ids(rb));
      forall b ensures |AnchorsOf(ra, b)| <= 1 && |AnchorsOf(ra, b)| + |AnchorsOf(rb, b)| <= 1 {
        AnchorsOfJoin(ra, rb, b);
      }
      UnambiguousMeansIndependent(front);
      BasinsOfPilots(front);
      forall i | 0 <= i < n
        ensures pilots[i].basin != last.basin && Disjoint(Ids(pilots[i].selection.reaches), Ids(rb))
      {
        assert front[i] == pilots[i];
        EveryPilotHasAnAnchor(front, i);
        assert last.basin in map[last.basin := last.selection.anchor];
        assert |AnchorsOf(rb, last.basin)| == 1;
      }
      assert forall i :: 0 <= i < n ==> front[i] == pilots[i];
    }
  }

  /** Selections that each pass alone pass together exactly when there is at least one,
      their basins differ, and no reach was selected twice. */
  lemma {:induction false} UnionPassesExactlyWhenIndependent(pilots: seq<Pilot>)
    requires forall p :: p in pilots ==> PassesAlone(p)
    ensures ValidNetwork(AllReaches(pilots), AllEdges(pilots)) && ValidAnchors(AllReaches(pilots), AllAnchors(pilots))
       <==> pilots != [] && Independent(pilots)
  {
    if pilots != [] {
      if Independent(pilots) {
        IndependentPilotsPass(pilots);
      }
      if ValidNetwork(AllReaches(pilots), AllEdges(pilots)) && ValidAnchors(AllReaches(pilots), AllAnchors(pilots)) {
        forall b ensures |AnchorsOf(AllReaches(pilots), b)| <= 1 {
          if !HasBasin(AllReaches(pilots), b) {
            NoBasinNoCount(AllReaches(pilots), b);
          }
        }
        UnambiguousMeansIndependent(pilots);
      }
    }
  }

  // ---------- Row order ----------

  function IdOf(): Reach -> seq<string> { (r: Reach) => [r.id] }

  function InBasin(basin: string): Reach -> seq<string> { (r: Reach) => if r.basin == basin then [r.id] else [] }

  function AnchorIn(basin: string): Reach -> seq<string>
  {
    (r: Reach) => if r.isAnchor && r.basin == basin then [r.id] else []
  }

  function PairOf(): Edge -> seq<(string, string)> { (e: Edge) => [(e.start, e.end)] }

  lemma {:induction false} ReachColumns(reaches: seq<Reach>, basin: string)
    ensures Ids(reaches) == FlatMap(reaches, IdOf())
    ensures CountOf(reaches, basin) == |FlatMap(reaches, InBasin(basin))|
    ensures AnchorsOf(reaches, basin) == FlatMap(reaches, AnchorIn(basin))
  {
    if reaches != [] {
      var front, last := reaches[..|reaches| - 1], reaches[|reaches| - 1];
      assert reaches == front + [last];
      ReachColumns(front, basin);
      assert Ids(reaches) == Ids(front) + [last.id];
      FlatMapSnoc(front, last, IdOf());
      FlatMapSnoc(front, last, InBasin(basin));
      FlatMapSnoc(front, last, AnchorIn(basin));
    }
  }

  function Pairs(edges: seq<Edge>): (r: seq<(string, string)>)
    ensures |r| == |edges| && forall i :: 0 <= i < |r| ==> r[i] == (edges[i].start, edges[i].end)
  {
    seq(|edges|, i requires 0 <= i < |edges| => (edges[i].start, edges[i].end))
  }

  lemma {:induction false} EdgeColumns(edges: seq<Edge>)
    ensures Pairs(edges) == FlatMap(edges, PairOf())
  {
    if edges != [] {
      var front, last := edges[..|edges| - 1], edges[|edges| - 1];
      assert edges == front + [last];
      EdgeColumns(front);
      assert Pairs(edges) == Pairs(front) + [(last.start, last.end)];
      FlatMapSnoc(front, last, PairOf());
    }
  }

  lemma DistinctPermutation<T(!new)>(a: seq<T>, b: seq<T>)
    requires multiset(a) == multiset(b) && Distinct(a)
    ensures Distinct(b)
  {
    DistinctMultiset(a);
    CountsMakeDistinct(b);
  }

  lemma SameMembers<T(!new)>(a: seq<T>, b: seq<T>)
    requires multiset(a) == multiset(b)
    ensures forall x :: x in a <==> x in b
  {
    forall x ensures x in a <==> x in b {
      assert x in a <==> x in multiset(a);
      assert x in b <==> x in multiset(b);
    }
  }

  lemma {:induction false} ReachesPermuted(a: seq<Reach>, b: seq<Reach>, basin: string)
    requires multiset(a) == multiset(b)
    ensures multiset(Ids(a)) == multiset(Ids(b))
    ensures CountOf(a, basin) == CountOf(b, basin)
    ensures multiset(AnchorsOf(a, basin)) == multiset(AnchorsOf(b, basin))
  {
    ReachColumns(a, basin);
    ReachColumns(b, basin);
    FlatMapPermutation(a, b, IdOf());
    FlatMapPermutation(a, b, InBasin(basin));
    FlatMapPermutation(a, b, AnchorIn(basin));
    MultisetLength(FlatMap(a, InBasin(basin)), FlatMap(b, InBasin(basin)));
  }

  lemma EdgesPermuted(ids: seq<string>, ids': seq<string>, a: seq<Edge>, b: seq<Edge>)
    requires multiset(ids) == multiset(ids') && multiset(a) == multiset(b) && EdgesFit(ids, a)
    ensures EdgesFit(ids', b)
  {
    SameMembers(ids, ids');
    SameMembers(a, b);
    EdgeColumns(a);
    EdgeColumns(b);
    FlatMapPermutation(a, b, PairOf());
    assert Distinct(Pairs(a)) by {
      assert forall i, j :: 0 <= i < j < |a| ==> a[i].start != a[j].start || a[i].end != a[j].end;
    }
    DistinctPermutation(Pairs(a), Pairs(b));
    forall i, j | 0 <= i < j < |b|
      ensures b[i].start != b[j].start || b[i].end != b[j].end
    {
      assert Pairs(b)[i] != Pairs(b)[j];
    }
    forall e | e in b
      ensures EdgeFits(ids', b, e)
    {
      assert EdgeFits(ids, a, e);
    }
  }

  lemma ValidPermuted(ra: seq<Reach>, ea: seq<Edge>, anchors: map<string, string>, rb: seq<Reach>, eb: seq<Edge>)
    requires multiset(ra) == multiset(rb) && multiset(ea) == multiset(eb)
    ensures ValidNetwork(ra, ea) ==> ValidNetwork(rb, eb)
    ensures ValidAnchors(ra, anchors) ==> ValidAnchors(rb, anchors)
  {
    SameMembers(ra, rb);
    MultisetLength(ra, rb);
    forall basin
      ensures CountOf(ra, basin) == CountOf(rb, basin)
      ensures HasBasin(ra, basin) <==> HasBasin(rb, basin)
      ensures multiset(Ids(ra)) == multiset(Ids(rb))
      ensures multiset(AnchorsOf(ra, basin)) == multiset(AnchorsOf(rb, basin))
    {
      ReachesPermuted(ra, rb, basin);
    }
    if ValidNetwork(ra, ea) {
      ReachesPermuted(ra, rb, "");
      DistinctPermutation(Ids(ra), Ids(rb));
      EdgesPermuted(Ids(ra), Ids(rb), ea, eb);
    }
    if ValidAnchors(ra, anchors) {
      forall b | b in anchors
        ensures AnchorsOf(rb, b) == [anchors[b]]
      {
        OnlyMember(AnchorsOf(ra, b), AnchorsOf(rb, b));
      }
    }
  }

  lemma OnlyMember(a: seq<string>, b: seq<string>)
    requires multiset(a) == multiset(b) && |a| == 1
    ensures a == b
  {
    MultisetLength(a, b);
    assert a[0] in multiset(b);
  }

  /** Both validators judge the rows, not their order. */
  lemma ValidatorsIgnoreRowOrder(ra: seq<Reach>, ea: seq<Edge>, anchors: map<string, string>, rb: seq<Reach>, eb: seq<Edge>)
    requires multiset(ra) == multiset(rb) && multiset(ea) == multiset(eb)
    ensures ValidNetwork(ra, ea) <==> ValidNetwork(rb, eb)
    ensures ValidAnchors(ra, anchors) <==> ValidAnchors(rb, anchors)
  {
    ValidPermuted(ra, ea, anchors, rb, eb);
    ValidPermuted(rb, eb, anchors, ra, ea);
  }

  predicate ByBasinAndId(a: Reach, b: Reach)
  {
    if a.basin != b.basin then TextLeq(a.basin, b.basin) else TextLeq(a.id, b.id)
  }

  predicate ByEnds(a: Edge, b: Edge)
  {
    if a.start != b.start then TextLeq(a.start, b.start) else TextLeq(a.end, b.end)
  }

  // Reaches by basin and then identifier, edges by their start and then their end.
  ghost predicate AreOrdered(reaches: seq<Reach>, edges: seq<Edge>)
  {
    && (forall i, j :: 0 <= i < j < |reaches| ==>
          && TextLeq(reaches[i].basin, reaches[j].basin)
          && (reaches[i].basin == reaches[j].basin ==> TextLeq(reaches[i].id, reaches[j].id)))
    && forall i, j :: 0 <= i < j < |edges| ==>
         && TextLeq(edges[i].start, edges[j].start)
         && (edges[i].start == edges[j].start ==> TextLeq(edges[i].end, edges[j].end))
  }

  lemma {:induction false} PublishedTablesAreOrdered(reaches: seq<Reach>, edges: seq<Edge>)
    ensures AreOrdered(SortBy(reaches, ByBasinAndId), SortBy(edges, ByEnds))
  {
    var rs, es := SortBy(reaches, ByBasinAndId), SortBy(edges, ByEnds);
    TextLeqPreorder();
    TextLeqIsAntisymmetric();
    assert TotalPreorder(ByBasinAndId) && TotalPreorder(ByEnds);
    SortSorts(reaches, ByBasinAndId);
    SortSorts(edges, ByEnds);
    forall i, j | 0 <= i < j < |rs|
      ensures TextLeq(rs[i].basin, rs[j].basin)
      ensures rs[i].basin == rs[j].basin ==> TextLeq(rs[i].id, rs[j].id)
    {
      assert ByBasinAndId(rs[i], rs[j]);
    }
    forall i, j | 0 <= i < j < |es|
      ensures TextLeq(es[i].start, es[j].start)
      ensures es[i].start == es[j].start ==> TextLeq(es[i].end, es[j].end)
    {
      assert ByEnds(es[i], es[j]);
    }
  }

  /** The tables as they are published, sorted before they are validated. */
  lemma {:induction false} PublishedUnionPassesExactlyWhenIndependent(pilots: seq<Pilot>)
    requires forall p :: p in pilots ==> PassesAlone(p)
    ensures ValidNetwork(SortBy(AllReaches(pilots), ByBasinAndId), SortBy(AllEdges(pilots), ByEnds))
            && ValidAnchors(SortBy(AllReaches(pilots), ByBasinAndId), AllAnchors(pilots))
       <==> pilots != [] && Independent(pilots)
    ensures AreOrdered(SortBy(AllReaches(pilots), ByBasinAndId), SortBy(AllEdges(pilots), ByEnds))
  {
    PublishedTablesAreOrdered(AllReaches(pilots), AllEdges(pilots));
    ValidatorsIgnoreRowOrder(AllReaches(pilots), AllEdges(pilots), AllAnchors(pilots),
                             SortBy(AllReaches(pilots), ByBasinAndId), SortBy(AllEdges(pilots), ByEnds));
    UnionPassesExactlyWhenIndependent(pilots);
  }
}
