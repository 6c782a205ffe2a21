/** The RiverPulse corridor walk and the two validators that guard its publication
    (riverpulse/network.py). */
module Mainstem {
  import opened Prelude

  // One SWORD record; `geometry` and `centroid` are None when no form of them parses.
  datatype Record = Record(
    id: Option<string>, name: string, endReach: Option<real>, distOut: Option<real>, facc: Option<real>,
    up: seq<string>, down: seq<string>, geometry: Option<string>, centroid: Option<(real, real)>)

  datatype Reach = Reach(id: string, basin: string, isAnchor: bool)

  datatype Edge = Edge(start: string, end: string, boundary: bool)

  datatype Selection = Selection(reaches: seq<Reach>, edges: seq<Edge>, anchor: string)

  datatype SelectError =
    BadLimit | BadIds | UnknownAnchor | AnchorMismatch | NoReaches | NoGeometry | NoCentroid | SelfEdge | NotReciprocal

  // ---------- Records ----------

  const NULL_MARKERS := ["", "0", "-9999", "None", "nan"]

  // A text that names a reach; the data files fill empty columns with the others.
  ghost predicate NamesReach(n: string)
  {
    n != "" && n != "0" && n != "-9999" && n != "None" && n != "nan"
  }

  function NeighborIds(raw: seq<string>): (r: seq<string>)
    ensures forall n :: n in r <==> n in raw && NamesReach(n)
  {
    if raw == [] then []
    else
      assert forall n :: n in raw <==> n == raw[0] || n in raw[1..];
      if raw[0] in NULL_MARKERS then NeighborIds(raw[1..]) else [raw[0]] + NeighborIds(raw[1..])
  }

  // Every neighbour once, in text order.
  function Neighbors(r: Record): seq<string>
  {
    SortBy(Unique(NeighborIds(r.up) + NeighborIds(r.down)), TextLeq)
  }

  ghost predicate IsNeighbor(r: Record, n: string)
  {
    (n in r.up || n in r.down) && NamesReach(n)
  }

  lemma NeighborsAreASet(r: Record)
    ensures Distinct(Neighbors(r)) && forall n :: n in Neighbors(r) <==> IsNeighbor(r, n)
  {
    var u := Unique(NeighborIds(r.up) + NeighborIds(r.down));
    var s := Neighbors(r);
    DistinctMultiset(u);
    CountsMakeDistinct(s);
    forall n ensures n in s <==> IsNeighbor(r, n) {
      assert n in s <==> n in multiset(s);
      assert n in u <==> n in multiset(u);
    }
  }

  // Later records replace earlier ones, records without an identifier are skipped.
  function ById(records: seq<Record>): (m: map<string, Record>)
    ensures forall id :: id in m ==> m[id] in records && m[id].id == Some(id)
  {
    if records == [] then map[]
    else
      var front, last := records[..|records| - 1], records[|records| - 1];
      assert last in records && forall r :: r in front ==> r in records;
      if last.id.Some? then ById(front)[last.id.value := last] else ById(front)
  }

  ghost predicate Identified(records: seq<Record>)
  {
    (forall r :: r in records ==> r.id.Some?) && Distinct(Keys(records))
  }

  function Keys(records: seq<Record>): (r: seq<Option<string>>)
    ensures |r| == |records|
  {
    seq(|records|, i requires 0 <= i < |records| => records[i].id)
  }

  lemma KeysSnoc(front: seq<Record>, last: Record)
    ensures Keys(front + [last]) == Keys(front) + [last.id]
  {
  }

  lemma {:induction false} ByIdHasKeys(records: seq<Record>)
    ensures forall id :: id in ById(records) <==> Some(id) in Keys(records)
  {
    if records != [] {
      var front, last := records[..|records| - 1], records[|records| - 1];
      ByIdHasKeys(front);
      assert records == front + [last];
      KeysSnoc(front, last);
    }
  }

  lemma IdentifiedSnoc(front: seq<Record>, last: Record)
    ensures Identified(front + [last]) <==> Identified(front) && last.id.Some? && last.id !in Keys(front)
  {
    KeysSnoc(front, last);
    var all := front + [last];
    assert forall r :: r in all <==> r in front || r == last;
    DistinctSnoc(Keys(front), last.id);
  }

  /** Comparing the two lengths finds every missing and every repeated identifier. */
  lemma {:induction false} LengthsFindBadIds(records: seq<Record>)
    ensures |ById(records)| <= |records|
    ensures |ById(records)| == |records| <==> Identified(records)
  {
    if records == [] {
      assert Keys(records) == [];
    } else {
      var front, last := records[..|records| - 1], records[|records| - 1];
      LengthsFindBadIds(front);
      ByIdHasKeys(front);
      SizeAfter(records, front, last);
      IdentifiedAfter(records, front, last);
    }
  }

  lemma {:induction false} SizeAfter(records: seq<Record>, front: seq<Record>, last: Record)
    requires records != [] && front == records[..|records| - 1] && last == records[|records| - 1]
    ensures |ById(records)| == |ById(front)| + if last.id.Some? && last.id.value !in ById(front) then 1 else 0
  {
    if last.id.Some? {
      CardinalityOfUpdate(ById(front), last.id.value, last);
    }
  }

  lemma IdentifiedAfter(records: seq<Record>, front: seq<Record>, last: Record)
    requires records != [] && front == records[..|records| - 1] && last == records[|records| - 1]
    ensures Identified(records) <==> Identified(front) && last.id.Some? && last.id !in Keys(front)
  {
    assert records == front + [last];
    IdentifiedSnoc(front, last);
  }

  lemma CardinalityOfUpdate<V>(m: map<string, V>, k: string, v: V)
    ensures |m[k := v]| == if k in m then |m| else |m| + 1
  {
    assert (m[k := v]).Keys == m.Keys + {k};
    assert |m| == |m.Keys| && |m[k := v]| == |(m[k := v]).Keys|;
  }

  // ---------- Choosing by a key ----------

  // The first element no other precedes.
  function First<T>(s: seq<T>, leq: (T, T) -> bool): (r: T)
    requires s != []
    ensures r in s
  {
    if |s| == 1 then s[0]
    else
      var best, last := First(s[..|s| - 1], leq), s[|s| - 1];
      if leq(best, last) then best else last
  }

  lemma {:induction false} FirstIsLeast<T(!new)>(s: seq<T>, leq: (T, T) -> bool)
    requires s != [] && TotalPreorder(leq)
    ensures forall x :: x in s ==> leq(First(s, leq), x)
  {
    if |s| > 1 {
      var front, last := s[..|s| - 1], s[|s| - 1];
      FirstIsLeast(front, leq);
      forall x | x in s
        ensures leq(First(s, leq), x)
      {
        assert x in front || x == last;
        assert leq(First(s, leq), First(front, leq));
      }
    }
  }

  function IdText(r: Record): string { if r.id.Some? then r.id.value else "None" }

  // Nearest the outlet first; an unknown distance counts as infinite.
  predicate NearerOutlet(a: Record, b: Record)
  {
    match (a.distOut, b.distOut)
    case (Some(x), Some(y)) => x < y || (x == y && TextLeq(IdText(a), IdText(b)))
    case (Some(_), None) => true
    case (None, Some(_)) => false
    case (None, None) => TextLeq(IdText(a), IdText(b))
  }

  // Largest accumulation first, and the larger identifier among equals.
  predicate LargerFlow(a: Record, b: Record)
  {
    match (a.facc, b.facc)
    case (Some(x), Some(y)) => x > y || (x == y && TextLeq(IdText(b), IdText(a)))
    case (Some(_), None) => true
    case (None, Some(_)) => false
    case (None, None) => TextLeq(IdText(b), IdText(a))
  }

  /** The same in words of distances and accumulations: a known figure goes before an
      unknown one, and identifiers decide between equal or equally unknown ones. */
  lemma WhatKeysCompare(a: Record, b: Record)
    ensures NearerOutlet(a, b) <==>
      && (b.distOut.Some? ==> a.distOut.Some? && a.distOut.value <= b.distOut.value)
      && (a.distOut == b.distOut ==> TextLeq(IdText(a), IdText(b)))
    ensures LargerFlow(a, b) <==>
      && (b.facc.Some? ==> a.facc.Some? && b.facc.value <= a.facc.value)
      && (a.facc == b.facc ==> TextLeq(IdText(b), IdText(a)))
  {
  }

  lemma KeysArePreorders()
    ensures TotalPreorder(NearerOutlet) && TotalPreorder(LargerFlow)
  {
    TextLeqPreorder();
  }

  // ---------- The outlet anchor ----------

  predicate HasPart(text: string, part: string)
  {
    part <= text || (text != "" && HasPart(text[1..], part))
  }

  predicate Matches(r: Record, aliases: seq<string>)
  {
    exists alias | alias in aliases :: HasPart(r.name, alias)
  }

  function Filter(records: seq<Record>, keep: Record -> bool): (r: seq<Record>)
    ensures forall x :: x in r <==> x in records && keep(x)
  {
    if records == [] then []
    else
      assert forall x :: x in records <==> x == records[0] || x in records[1..];
      if keep(records[0]) then [records[0]] + Filter(records[1..], keep) else Filter(records[1..], keep)
  }

  function Candidates(records: seq<Record>, aliases: seq<string>): seq<Record>
  {
    Filter(records, (r: Record) => Matches(r, aliases))
  }

  function AnchorPool(candidates: seq<Record>): seq<Record>
  {
    var outlets := Filter(candidates, (r: Record) => r.endReach == Some(2.0));
    if outlets != [] then outlets else candidates
  }

  function ChooseAnchor(records: seq<Record>, aliases: seq<string>, reviewed: Option<string>): (r: Result<Record, SelectError>)
    ensures r.Err? ==> r.error in {UnknownAnchor, AnchorMismatch, NoReaches}
  {
    var byId, candidates := ById(records), Candidates(records, aliases);
    if reviewed.Some? && reviewed.value != "" then
      if reviewed.value !in byId then Err(UnknownAnchor)
      else if byId[reviewed.value] !in candidates then Err(AnchorMismatch)
      else Ok(byId[reviewed.value])
    else if AnchorPool(candidates) == [] then Err(NoReaches)
    else Ok(First(AnchorPool(candidates), NearerOutlet))
  }

  /** The river name contains one of the aliases. */
  ghost predicate IsNamed(r: Record, aliases: seq<string>)
  {
    exists alias, i, j :: alias in aliases && 0 <= i <= j <= |r.name| && r.name[i..j] == alias
  }

  lemma {:induction false} HasPartIsSubstring(text: string, part: string)
    ensures HasPart(text, part) <==> exists i, j :: 0 <= i <= j <= |text| && text[i..j] == part
  {
    if part <= text {
      assert text[0..|part|] == part;
    } else if text != "" {
      HasPartIsSubstring(text[1..], part);
      if i, j :| 0 <= i <= j <= |text[1..]| && text[1..][i..j] == part {
        assert text[i + 1..j + 1] == part;
      }
      if i, j :| 0 <= i <= j <= |text| && text[i..j] == part {
        assert text[..j] <= text;
        assert i > 0 && text[1..][i - 1..j - 1] == part;
      }
    } else {
      assert forall i, j :: 0 <= i <= j <= |text| ==> text[i..j] == "";
    }
  }

  lemma MatchesIsNamed(r: Record, aliases: seq<string>)
    ensures Matches(r, aliases) <==> IsNamed(r, aliases)
  {
    forall alias ensures HasPart(r.name, alias) <==> exists i, j :: 0 <= i <= j <= |r.name| && r.name[i..j] == alias {
      HasPartIsSubstring(r.name, alias);
    }
  }

  /** A matching record at an outlet, if the river has one, at the smallest known distance to
      the sea; an unknown distance counts as infinite, and the smaller identifier wins a tie. */
  ghost predicate IsNearestOutlet(records: seq<Record>, aliases: seq<string>, a: Record)
  {
    && a in records && IsNamed(a, aliases)
    && forall r :: r in records && IsNamed(r, aliases) ==>
         && (r.endReach == Some(2.0) ==> a.endReach == Some(2.0))
         && (a.endReach == Some(2.0) ==> r.endReach == Some(2.0) ==> PrecedesAsOutlet(a, r))
         && (a.endReach != Some(2.0) ==> PrecedesAsOutlet(a, r))
  }

  ghost predicate PrecedesAsOutlet(a: Record, r: Record)
  {
    && (r.distOut.Some? ==> a.distOut.Some? && a.distOut.value <= r.distOut.value)
    && (r.distOut == a.distOut && a.id.Some? && r.id.Some? ==> TextLeq(a.id.value, r.id.value))
  }

  /** The reviewed record if it is there and matches, and else the nearest outlet. */
  ghost predicate IsAnchorAnswer(records: seq<Record>, aliases: seq<string>, reviewed: Option<string>,
                                 r: Result<Record, SelectError>)
  {
    if reviewed.Some? && reviewed.value != "" then
      match r
      case Ok(a) => a in records && a.id == reviewed && IsNamed(a, aliases)
      case Err(e) =>
        if exists a :: a in records && a.id == reviewed
        then e == AnchorMismatch && forall a :: a in records && a.id == reviewed ==> !IsNamed(a, aliases)
        else e == UnknownAnchor
    else
      match r
      case Ok(a) => IsNearestOutlet(records, aliases, a)
      case Err(e) => e == NoReaches && forall a :: a in records ==> !IsNamed(a, aliases)
  }

  lemma AnchorIsNearestOutlet(records: seq<Record>, aliases: seq<string>)
    requires Candidates(records, aliases) != []
    ensures IsNearestOutlet(records, aliases, First(AnchorPool(Candidates(records, aliases)), NearerOutlet))
  {
    KeysArePreorders();
    var pool := AnchorPool(Candidates(records, aliases));
    FirstIsLeast(pool, NearerOutlet);
    var a := First(pool, NearerOutlet);
    forall r | r in records ensures Matches(r, aliases) <==> IsNamed(r, aliases) {
      MatchesIsNamed(r, aliases);
    }
    forall r | r in pool ensures PrecedesAsOutlet(a, r) {
      WhatKeysCompare(a, r);
    }
  }

  lemma IdentifiedOnce(records: seq<Record>, a: Record, b: Record)
    requires Identified(records) && a in records && b in records && a.id == b.id
    ensures a == b
  {
    var i :| 0 <= i < |records| && records[i] == a;
    var j :| 0 <= j < |records| && records[j] == b;
    assert Keys(records)[i] == Keys(records)[j];
  }

  lemma ChooseAnchorAnswers(records: seq<Record>, aliases: seq<string>, reviewed: Option<string>)
    requires Identified(records)
    ensures IsAnchorAnswer(records, aliases, reviewed, ChooseAnchor(records, aliases, reviewed))
  {
    forall r | r in records ensures Matches(r, aliases) <==> IsNamed(r, aliases) {
      MatchesIsNamed(r, aliases);
    }
    if reviewed.Some? && reviewed.value != "" {
      ReviewedAnchor(records, aliases, reviewed.value);
    } else if Candidates(records, aliases) != [] {
      AnchorIsNearestOutlet(records, aliases);
    } else {
      assert forall a :: a in records ==> a !in Candidates(records, aliases);
    }
  }

  lemma {:induction false} ReviewedAnchor(records: seq<Record>, aliases: seq<string>, reviewed: string)
    requires Identified(records)
    ensures reviewed in ById(records) <==> exists a :: a in records && a.id == Some(reviewed)
    ensures forall a :: a in records && a.id == Some(reviewed) ==> reviewed in ById(records) && ById(records)[reviewed] == a
  {
    ByIdHasKeys(records);
    forall a | a in records && a.id == Some(reviewed)
      ensures reviewed in ById(records) && ById(records)[reviewed] == a
    {
      var i :| 0 <= i < |records| && records[i] == a;
      assert Keys(records)[i] == Some(reviewed);
      IdentifiedOnce(records, a, ById(records)[reviewed]);
    }
  }

  // ---------- The walk ----------

  function Upstream(byId: map<string, Record>, r: Record): (u: seq<Record>)
    ensures forall x :: x in u ==> x in byId.Values
    ensures forall x :: x in u <==> exists n :: n in NeighborIds(r.up) && n in byId && byId[n] == x
  {
    UpstreamOf(byId, NeighborIds(r.up))
  }

  function UpstreamOf(byId: map<string, Record>, ids: seq<string>): (u: seq<Record>)
    ensures forall x :: x in u <==> exists n :: n in ids && n in byId && byId[n] == x
  {
    if ids == [] then []
    else
      var rest := UpstreamOf(byId, ids[1..]);
      assert forall n :: n in ids <==> n == ids[0] || n in ids[1..];
      if ids[0] in byId then [byId[ids[0]]] + rest else rest
  }

  ghost predicate Keyed(byId: map<string, Record>)
  {
    forall id :: id in byId ==> byId[id].id == Some(id)
  }

  function NextUp(byId: map<string, Record>, id: string): Option<string>
    requires id in byId
  {
    var upstream := Upstream(byId, byId[id]);
    if upstream == [] then None else Some(IdText(First(upstream, LargerFlow)))
  }

  ghost predicate IsUpstream(byId: map<string, Record>, id: string, n: string)
  {
    id in byId && n in byId && n in byId[id].up && NamesReach(n)
  }

  /** The upstream neighbour with the largest known accumulation: one that has none comes
      after all that have one, and the larger identifier wins a tie. */
  ghost predicate IsNextUp(byId: map<string, Record>, id: string, next: string)
  {
    && IsUpstream(byId, id, next)
    && forall n :: IsUpstream(byId, id, n) ==>
         && (byId[n].facc.Some? ==> byId[next].facc.Some? && byId[n].facc.value <= byId[next].facc.value)
         && (byId[n].facc == byId[next].facc ==> TextLeq(n, next))
  }

  lemma NextUpIsBest(byId: map<string, Record>, id: string)
    requires Keyed(byId) && id in byId
    ensures NextUp(byId, id).None? ==> forall n :: !IsUpstream(byId, id, n)
    ensures NextUp(byId, id).Some? ==> IsNextUp(byId, id, NextUp(byId, id).value)
  {
    var upstream := Upstream(byId, byId[id]);
    assert forall n :: IsUpstream(byId, id, n) ==> byId[n] in upstream;
    if upstream != [] {
      KeysArePreorders();
      FirstIsLeast(upstream, LargerFlow);
      var best := First(upstream, LargerFlow);
      var next :| next in NeighborIds(byId[id].up) && next in byId && byId[next] == best;
      assert best.id == Some(next);
      forall n | IsUpstream(byId, id, n)
        ensures byId[n].facc.Some? ==> best.facc.Some? && byId[n].facc.value <= best.facc.value
        ensures byId[n].facc == best.facc ==> TextLeq(n, next)
      {
        assert byId[n].id == Some(n);
        WhatKeysCompare(best, byId[n]);
      }
    }
  }

  lemma NextUpUnique(byId: map<string, Record>, id: string, m: string, n: string)
    requires IsNextUp(byId, id, m) && IsNextUp(byId, id, n)
    ensures m == n
  {
    assert byId[m].facc == byId[n].facc;
    TextLeqAntisymmetric(m, n);
  }

  // From the anchor always to the best upstream reach, never twice to the same.
  ghost predicate Climbs(byId: map<string, Record>, walk: seq<string>, anchor: string)
  {
    && walk != [] && walk[0] == anchor && Distinct(walk)
    && (forall id :: id in walk ==> id in byId)
    && (forall i, j :: 0 <= i < j < |walk| && j == i + 1 ==> IsNextUp(byId, walk[i], walk[j]))
  }

  /** A greedy walk, ended by the limit, by a headwater, or by meeting a reach already taken. */
  ghost predicate IsMainstem(byId: map<string, Record>, walk: seq<string>, anchor: string, limit: nat)
  {
    Climbs(byId, walk, anchor) && |walk| <= limit && (|walk| == limit || Stops(byId, walk))
  }

  ghost predicate Stops(byId: map<string, Record>, walk: seq<string>)
    requires walk != []
  {
    var last := walk[|walk| - 1];
    (forall n :: !IsUpstream(byId, last, n)) || exists n :: n in walk && IsNextUp(byId, last, n)
  }

  ghost predicate LeadsTo(byId: map<string, Record>, walk: seq<string>, current: string)
  {
    walk != [] && IsNextUp(byId, walk[|walk| - 1], current)
  }

  lemma ClimbOn(byId: map<string, Record>, walk: seq<string>, anchor: string, current: string)
    requires current in byId && current !in walk
    requires if walk == [] then current == anchor else Climbs(byId, walk, anchor) && LeadsTo(byId, walk, current)
    ensures Climbs(byId, walk + [current], anchor)
  {
    DistinctSnoc(walk, current);
  }

  method Walk(byId: map<string, Record>, anchor: string, limit: nat) returns (walk: seq<string>)
    requires Keyed(byId) && anchor in byId && limit > 0
    ensures IsMainstem(byId, walk, anchor, limit)
  {
    walk := [];
    var current := anchor;
    while current !in walk && |walk| < limit
      invariant |walk| <= limit && current in byId
      invariant if walk == [] then current == anchor else Climbs(byId, walk, anchor) && LeadsTo(byId, walk, current)
      decreases limit - |walk|
    {
      ClimbOn(byId, walk, anchor, current);
      walk := walk + [current];
      var next := NextUp(byId, current);
      NextUpIsBest(byId, current);
      if next.None? {
        break;
      }
      current := next.value;
    }
  }

  lemma {:induction false} MainstemsShareSteps(byId: map<string, Record>, a: seq<string>, b: seq<string>, anchor: string, limit: nat, k: nat)
    requires IsMainstem(byId, a, anchor, limit) && IsMainstem(byId, b, anchor, limit)
    requires k < |a| && k < |b|
    ensures a[k] == b[k]
  {
    if k > 0 {
      var h := k - 1;
      MainstemsShareSteps(byId, a, b, anchor, limit, h);
      assert k == h + 1 && IsNextUp(byId, a[h], a[k]) && IsNextUp(byId, b[h], b[k]);
      NextUpUnique(byId, a[h], a[k], b[k]);
    }
  }

  /** The rules leave no choice: there is one mainstem from an anchor. */
  lemma MainstemIsUnique(byId: map<string, Record>, a: seq<string>, b: seq<string>, anchor: string, limit: nat)
    requires IsMainstem(byId, a, anchor, limit) && IsMainstem(byId, b, anchor, limit)
    ensures a == b
  {
    forall k | 0 <= k < |a| && k < |b|
      ensures a[k] == b[k]
    {
      MainstemsShareSteps(byId, a, b, anchor, limit, k);
    }
    MainstemCannotContinue(byId, a, b, anchor, limit);
    MainstemCannotContinue(byId, b, a, anchor, limit);
  }

  lemma MainstemCannotContinue(byId: map<string, Record>, a: seq<string>, b: seq<string>, anchor: string, limit: nat)
    requires IsMainstem(byId, a, anchor, limit) && IsMainstem(byId, b, anchor, limit)
    requires forall k :: 0 <= k < |a| && k < |b| ==> a[k] == b[k]
    ensures |b| <= |a|
  {
    if |a| < |b| {
      var i, j := |a| - 1, |a|;
      assert j == i + 1 && IsNextUp(byId, b[i], b[j]);
      assert a[i] == b[i];
      if n :| n in a && IsNextUp(byId, a[i], n) {
        NextUpUnique(byId, a[i], n, b[j]);
      }
      NextIsFresh(a, b);
    }
  }

  lemma NextIsFresh(a: seq<string>, b: seq<string>)
    requires |a| < |b| && Distinct(b) && forall k :: 0 <= k < |a| && k < |b| ==> a[k] == b[k]
    ensures b[|a|] !in a
  {
  }

  // ---------- Reaches and edges of a walk ----------

  predicate Reciprocal(byId: map<string, Record>, a: string, b: string)
    ensures Reciprocal(byId, a, b) <==> b in byId && IsNeighbor(byId[b], a)
  {
    b in byId && (a in NeighborIds(byId[b].up) || a in NeighborIds(byId[b].down))
  }

  // A walked reach passes when it has a shape, is not its own neighbour, and its walked
  // neighbours name it back.
  ghost predicate Passes(byId: map<string, Record>, walk: seq<string>, id: string)
    requires id in byId
  {
    && byId[id].geometry.Some? && byId[id].centroid.Some?
    && !IsNeighbor(byId[id], id)
    && forall n :: n in walk && IsNeighbor(byId[id], n) ==> n in byId && IsNeighbor(byId[n], id)
  }

  ghost predicate IsEdge(byId: map<string, Record>, walk: seq<string>, e: Edge)
  {
    e.start in byId && IsNeighbor(byId[e.start], e.end) && e.boundary == (e.end !in walk)
  }

  ghost predicate DistinctPairs(edges: seq<Edge>)
  {
    forall i, j :: 0 <= i < j < |edges| ==> edges[i].start != edges[j].start || edges[i].end != edges[j].end
  }

  ghost predicate EdgesOfOne(edges: seq<Edge>, byId: map<string, Record>, walk: seq<string>, id: string)
  {
    DistinctPairs(edges) && forall e :: e in edges <==> e.start == id && IsEdge(byId, walk, e)
  }

  method EdgesFrom(byId: map<string, Record>, walk: seq<string>, id: string) returns (r: Result<seq<Edge>, SelectError>)
    requires id in byId
    requires byId[id].geometry.Some? && byId[id].centroid.Some?
    ensures r.Ok? <==> Passes(byId, walk, id)
    ensures r.Ok? ==> EdgesOfOne(r.value, byId, walk, id)
    ensures r.Err? ==> r.error in {SelfEdge, NotReciprocal}
  {
    var record := byId[id];
    var neighbors := Neighbors(record);
    NeighborsAreASet(record);
    var edges: seq<Edge> := [];
    for i := 0 to |neighbors|
      invariant |edges| == i
      invariant forall k :: 0 <= k < i ==> edges[k] == Edge(id, neighbors[k], neighbors[k] !in walk)
      invariant forall k :: 0 <= k < i ==> neighbors[k] != id && (neighbors[k] in walk ==> Reciprocal(byId, id, neighbors[k]))
    {
      var n := neighbors[i];
      assert IsNeighbor(record, n);
      if n == id {
        return Err(SelfEdge);
      }
      edges := edges + [Edge(id, n, n !in walk)];
      if n in walk && !Reciprocal(byId, id, n) {
        return Err(NotReciprocal);
      }
    }
    EdgesListed(edges, neighbors, byId, walk, id);
    r := Ok(edges);
  }

  lemma EdgesListed(edges: seq<Edge>, neighbors: seq<string>, byId: map<string, Record>, walk: seq<string>, id: string)
    requires id in byId && |edges| == |neighbors| && Distinct(neighbors)
    requires forall n :: n in neighbors <==> IsNeighbor(byId[id], n)
    requires forall k :: 0 <= k < |edges| ==> edges[k] == Edge(id, neighbors[k], neighbors[k] !in walk)
    ensures EdgesOfOne(edges, byId, walk, id)
  {
    forall e ensures e in edges <==> e.start == id && IsEdge(byId, walk, e) {
      if e.start == id && IsEdge(byId, walk, e) {
        var k :| 0 <= k < |neighbors| && neighbors[k] == e.end;
        assert edges[k] == e;
      }
      if e in edges {
        var k :| 0 <= k < |edges| && edges[k] == e;
        assert neighbors[k] in neighbors;
      }
    }
  }

  ghost predicate EdgesOfSome(edges: seq<Edge>, byId: map<string, Record>, walk: seq<string>, done: seq<string>)
  {
    DistinctPairs(edges) && forall e :: e in edges <==> e.start in done && IsEdge(byId, walk, e)
  }

  lemma EdgesJoin(edges: seq<Edge>, more: seq<Edge>, byId: map<string, Record>, walk: seq<string>, done: seq<string>, id: string)
    requires EdgesOfSome(edges, byId, walk, done) && EdgesOfOne(more, byId, walk, id) && id !in done
    ensures EdgesOfSome(edges + more, byId, walk, done + [id])
  {
    var all := edges + more;
    forall i, j | 0 <= i < j < |all|
      ensures all[i].start != all[j].start || all[i].end != all[j].end
    {
      if i < |edges| <= j {
        assert all[i] in edges && all[j] in more;
      }
    }
  }

  ghost predicate ReachesAlong(reaches: seq<Reach>, walk: seq<string>, basin: string, anchor: string)
  {
    |reaches| == |walk| && forall i :: 0 <= i < |walk| ==> reaches[i] == Reach(walk[i], basin, walk[i] == anchor)
  }

  method Collect(byId: map<string, Record>, walk: seq<string>, basin: string, anchor: string)
    returns (r: Result<(seq<Reach>, seq<Edge>), SelectError>)
    requires Distinct(walk) && forall id :: id in walk ==> id in byId
    ensures r.Ok? <==> forall id :: id in walk ==> Passes(byId, walk, id)
    ensures r.Ok? ==> ReachesAlong(r.value.0, walk, basin, anchor) && EdgesOfSome(r.value.1, byId, walk, walk)
    ensures r.Err? ==> r.error in {NoGeometry, NoCentroid, SelfEdge, NotReciprocal}
  {
    var reaches: seq<Reach> := [];
    var edges: seq<Edge> := [];
    for i := 0 to |walk|
      invariant ReachesAlong(reaches, walk[..i], basin, anchor)
      invariant EdgesOfSome(edges, byId, walk, walk[..i])
      invariant forall id :: id in walk[..i] ==> Passes(byId, walk, id)
    {
      var id := walk[i];
      TakeSnoc(walk, i);
      if byId[id].geometry.None? {
        return Err(NoGeometry);
      }
      if byId[id].centroid.None? {
        return Err(NoCentroid);
      }
      reaches := reaches + [Reach(id, basin, id == anchor)];
      var more := EdgesFrom(byId, walk, id);
      if more.Err? {
        return Err(more.error);
      }
      EdgesJoin(edges, more.value, byId, walk, walk[..i], id);
      edges := edges + more.value;
    }
    assert walk[..|walk|] == walk;
    r := Ok((reaches, edges));
  }

  // One edge per pair: a later edge takes the earlier one's place.
  function Dedupe(edges: seq<Edge>): seq<Edge>
  {
    if edges == [] then []
    else
      var front, last := Dedupe(edges[..|edges| - 1]), edges[|edges| - 1];
      if Position(front, last) < |front| then front[Position(front, last) := last] else front + [last]
  }

  function Position(edges: seq<Edge>, e: Edge): (k: nat)
    ensures k <= |edges|
    ensures k < |edges| ==> edges[k].start == e.start && edges[k].end == e.end
  {
    if edges == [] || (edges[0].start == e.start && edges[0].end == e.end) then 0 else 1 + Position(edges[1..], e)
  }

  /** Neighbours are already a set, so the final deduplication never drops an edge. */
  lemma {:induction false} DedupeKeepsDistinctPairs(edges: seq<Edge>)
    requires DistinctPairs(edges)
    ensures Dedupe(edges) == edges
  {
    if edges != [] {
      var front, last := edges[..|edges| - 1], edges[|edges| - 1];
      DedupeKeepsDistinctPairs(front);
      assert edges == front + [last];
    }
  }

  /** What a returned selection is. */
  ghost predicate IsSelection(byId: map<string, Record>, basin: string, limit: nat, s: Selection, walk: seq<string>)
  {
    && IsMainstem(byId, walk, s.anchor, limit)
    && ReachesAlong(s.reaches, walk, basin, s.anchor)
    && EdgesOfSome(s.edges, byId, walk, walk)
    && forall id :: id in walk ==> Passes(byId, walk, id)
  }

  // From the anchor to the finished selection.
  method Follow(byId: map<string, Record>, basin: string, limit: nat, anchor: string)
    returns (r: Result<Selection, SelectError>, ghost walk: seq<string>)
    requires Keyed(byId) && anchor in byId && limit > 0
    ensures IsMainstem(byId, walk, anchor, limit)
    ensures r.Ok? <==> forall id :: id in walk ==> Passes(byId, walk, id)
    ensures r.Ok? ==> r.value.anchor == anchor && IsSelection(byId, basin, limit, r.value, walk)
    ensures r.Err? ==> r.error in {NoGeometry, NoCentroid, SelfEdge, NotReciprocal}
  {
    var ids := Walk(byId, anchor, limit);
    walk := ids;
    var collected := Collect(byId, ids, basin, anchor);
    if collected.Err? {
      return Err(collected.error), ids;
    }
    DedupeKeepsDistinctPairs(collected.value.1);
    r := Ok(Selection(collected.value.0, Dedupe(collected.value.1), anchor));
  }

  method SelectMainstem(records: seq<Record>, basin: string, aliases: seq<string>, limit: int, reviewed: Option<string>)
    returns (r: Result<Selection, SelectError>, ghost walk: seq<string>)
    ensures r == Err(BadLimit) <==> !(1 <= limit <= 100)
    ensures r == Err(BadIds) <==> 1 <= limit <= 100 && !Identified(records)
    ensures 1 <= limit <= 100 && Identified(records) ==>
      IsAnchorAnswer(records, aliases, reviewed, ChooseAnchor(records, aliases, reviewed))
    ensures 1 <= limit <= 100 && Identified(records) ==>
      match ChooseAnchor(records, aliases, reviewed)
      case Err(e) => r == Err(e)
      case Ok(anchor) =>
        && IsMainstem(ById(records), walk, IdText(anchor), limit)
        && (r.Ok? <==> forall id :: id in walk ==> Passes(ById(records), walk, id))
        && (r.Ok? ==> r.value.anchor == IdText(anchor) && IsSelection(ById(records), basin, limit, r.value, walk))
  {
    if limit < 1 || limit > 100 {
      return Err(BadLimit), [];
    }
    var byId := ById(records);
    LengthsFindBadIds(records);
    if |byId| != |records| {
      return Err(BadIds), [];
    }
    var chosen := ChooseAnchor(records, aliases, reviewed);
    ChooseAnchorAnswers(records, aliases, reviewed);
    if chosen.Err? {
      return Err(chosen.error), [];
    }
    AnchorIsKnown(records, aliases, reviewed);
    r, walk := Follow(byId, basin, limit, IdText(chosen.value));
  }

  lemma {:induction false} AnchorIsKnown(records: seq<Record>, aliases: seq<string>, reviewed: Option<string>)
    requires Identified(records) && ChooseAnchor(records, aliases, reviewed).Ok?
    ensures IdText(ChooseAnchor(records, aliases, reviewed).value) in ById(records)
  {
    var a := ChooseAnchor(records, aliases, reviewed).value;
    assert a in records;
    ByIdHasKeys(records);
    var i :| 0 <= i < |records| && records[i] == a;
    assert Keys(records)[i] == a.id;
  }
}
