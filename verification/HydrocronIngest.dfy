/** RiverPulse identities (riverpulse/hydrocron.py) and the append-only tables a fetched
    response is committed to (riverpulse/collection.py). A digest stands for its parts. */
module HydrocronIngest {
  import opened Prelude

  datatype RequestId = RequestId(collection: string, reach: string, start: int, end: int, contract: string)

  datatype ObservationId = ObservationId(family: string, reach: string, time: int, cycle: int, pass_: int)

  datatype RevisionId = RevisionId(observation: ObservationId, crid: string, granule: string, canonical: string)

  // A response is named by its request and its body.
  datatype SnapshotId = SnapshotId(request: RequestId, body: string)

  // One parsed line; every other column is a function of `canonical`.
  datatype Row = Row(collection: string, reach: string, time: int, cycle: int, pass_: int,
                     crid: string, granule: string, canonical: string)

  // ---------- Identities ----------

  function WithoutSuffix(name: string): string
  {
    if |name| >= 2 && name[|name| - 2..] == "_D" then name[..|name| - 2] else name
  }

  function ObservationOf(r: Row): ObservationId
  {
    ObservationId(WithoutSuffix(r.collection), r.reach, r.time, r.cycle, r.pass_)
  }

  function RevisionOf(r: Row): RevisionId
  {
    RevisionId(ObservationOf(r), r.crid, r.granule, r.canonical)
  }

  lemma SuffixComesOff(name: string)
    ensures WithoutSuffix(name + "_D") == name
  {
    assert (name + "_D")[|name|..] == "_D";
    assert (name + "_D")[..|name|] == name;
  }

  /** The versioned name of a collection, ending in _D, names the same observations as its plain name. */
  lemma VersionedCollectionIsSameObservation(r: Row)
    requires WithoutSuffix(r.collection) == r.collection
    ensures ObservationOf(r.(collection := r.collection + "_D")) == ObservationOf(r)
  {
    SuffixComesOff(r.collection);
  }

  // The collection as named, without the version mark.
  ghost predicate IsFamily(family: string, collection: string)
  {
    collection == family + "_D" || (collection == family && forall base: string :: collection != base + "_D")
  }

  lemma OtherEnding(base: string, collection: string)
    requires |collection| < 2 || collection[|collection| - 2..] != "_D"
    ensures collection != base + "_D"
  {
    assert (base + "_D")[|base|..] == "_D";
  }

  lemma FamilyIs(family: string, collection: string)
    ensures WithoutSuffix(collection) == family <==> IsFamily(family, collection)
  {
    SuffixComesOff(family);
    var n := |collection|;
    if n >= 2 && collection[n - 2..] == "_D" {
      assert collection == collection[..n - 2] + "_D";
    } else {
      forall base: string ensures collection != base + "_D" {
        OtherEnding(base, collection);
      }
    }
  }

  ghost predicate SameFamily(a: string, b: string)
  {
    exists family :: IsFamily(family, a) && IsFamily(family, b)
  }

  /** Two lines name one observation exactly when they agree on family, reach, time, cycle and
      pass, and one revision of it exactly when they agree on release, granule and content too. */
  lemma SameRevisionExactlyWhen(a: Row, b: Row)
    ensures var o := ObservationOf(a);
      && IsFamily(o.family, a.collection) && o.reach == a.reach && o.time == a.time && o.cycle == a.cycle && o.pass_ == a.pass_
      && RevisionOf(a).observation == o && RevisionOf(a).crid == a.crid && RevisionOf(a).granule == a.granule
    ensures ObservationOf(a) == ObservationOf(b) <==>
      SameFamily(a.collection, b.collection) && a.reach == b.reach && a.time == b.time && a.cycle == b.cycle && a.pass_ == b.pass_
    ensures RevisionOf(a) == RevisionOf(b) <==>
      && SameFamily(a.collection, b.collection) && a.reach == b.reach && a.time == b.time && a.cycle == b.cycle && a.pass_ == b.pass_
      && a.crid == b.crid && a.granule == b.granule && a.canonical == b.canonical
  {
    forall family ensures WithoutSuffix(a.collection) == family <==> IsFamily(family, a.collection) {
      FamilyIs(family, a.collection);
    }
    assert IsFamily(WithoutSuffix(a.collection), a.collection);
    forall family ensures WithoutSuffix(b.collection) == family <==> IsFamily(family, b.collection) {
      FamilyIs(family, b.collection);
    }
  }

  // ---------- Discharge expansion ----------

  datatype Discharge = Discharge(algorithm: string, constrained: bool)

  const DISCHARGE_CODES := ["c", "gc", "m", "gm", "b", "gb", "h", "gh", "o", "go", "s", "gs", "i", "gi"]

  const ALGORITHMS := ["c", "m", "b", "h", "o", "s", "i"]

  function Expand(code: string): Discharge
  {
    if "g" <= code then Discharge(code[1..], true) else Discharge(code, false)
  }

  function Expanded(codes: seq<string>): (r: seq<Discharge>)
    ensures |r| == |codes| && forall i :: 0 <= i < |r| ==> r[i] == Expand(codes[i])
  {
    seq(|codes|, i requires 0 <= i < |codes| => Expand(codes[i]))
  }

  function Discharges(): seq<Discharge> { Expanded(DISCHARGE_CODES) }

  function Pairs(algorithms: seq<string>): seq<Discharge>
  {
    if algorithms == [] then []
    else [Discharge(algorithms[0], false), Discharge(algorithms[0], true)] + Pairs(algorithms[1..])
  }

  // The codes as the list above orders them: each algorithm, then its constrained form.
  function Codes(algorithms: seq<string>): seq<string>
  {
    if algorithms == [] then [] else [algorithms[0], "g" + algorithms[0]] + Codes(algorithms[1..])
  }

  lemma CodeExpands(a: string)
    requires |a| == 1 && a != "g"
    ensures Expand(a) == Discharge(a, false) && Expand("g" + a) == Discharge(a, true)
  {
    assert a == [a[0]];
    assert ("g" + a)[1..] == a;
  }

  lemma {:induction false} CodesExpandToPairs(algorithms: seq<string>)
    requires forall a :: a in algorithms ==> |a| == 1 && a != "g"
    ensures Expanded(Codes(algorithms)) == Pairs(algorithms)
  {
    if algorithms != [] {
      CodeExpands(algorithms[0]);
      CodesExpandToPairs(algorithms[1..]);
    }
  }

  lemma {:induction false} PairsAreDistinct(algorithms: seq<string>)
    requires Distinct(algorithms)
    ensures Distinct(Pairs(algorithms)) && |Pairs(algorithms)| == 2 * |algorithms|
    ensures forall d :: d in Pairs(algorithms) <==> d.algorithm in algorithms
  {
    if algorithms != [] {
      var a, rest := algorithms[0], algorithms[1..];
      PairsAreDistinct(rest);
      assert a !in rest;
      var head := [Discharge(a, false), Discharge(a, true)];
      forall d ensures d in Pairs(algorithms) <==> d.algorithm in algorithms {
        assert d in Pairs(algorithms) <==> d in head || d in Pairs(rest);
        assert d.algorithm in algorithms <==> d.algorithm == a || d.algorithm in rest;
      }
      assert forall i :: 0 <= i < |Pairs(rest)| ==> Pairs(rest)[i] in Pairs(rest);
    }
  }

  /** The fourteen codes are the seven algorithms, each unconstrained and constrained, once. */
  lemma FourteenDischarges()
    ensures Distinct(Discharges()) && |Discharges()| == 14
    ensures forall d :: d in Discharges() <==> d.algorithm in ALGORITHMS
  {
    AlgorithmsDistinct();
    CodesListed();
    CodesExpandToPairs(ALGORITHMS);
    PairsAreDistinct(ALGORITHMS);
  }

  lemma AlgorithmsDistinct()
    ensures Distinct(ALGORITHMS) && |ALGORITHMS| == 7
    ensures forall a :: a in ALGORITHMS ==> |a| == 1 && a != "g"
  {
    assert forall i :: 0 <= i < 7 ==> |ALGORITHMS[i]| == 1 && ALGORITHMS[i][0] == "cmbhosi"[i];
  }

  lemma {:induction false} CodesCons(a: string, rest: seq<string>)
    ensures Codes([a] + rest) == [a, "g" + a] + Codes(rest)
  {
    assert ([a] + rest)[1..] == rest;
  }

  lemma CodesListed()
    ensures Codes(ALGORITHMS) == DISCHARGE_CODES
  {
    CodesCons("i", []);
    CodesCons("s", ["i"]);
    CodesCons("o", ["s", "i"]);
    CodesCons("h", ["o", "s", "i"]);
    CodesCons("b", ["h", "o", "s", "i"]);
    CodesCons("m", ["b", "h", "o", "s", "i"]);
    CodesCons("c", ["m", "b", "h", "o", "s", "i"]);
    assert ["i"] + [] == ["i"] && ["s"] + ["i"] == ["s", "i"];
    assert "g" + "c" == "gc" && "g" + "m" == "gm" && "g" + "b" == "gb" && "g" + "h" == "gh"
        && "g" + "o" == "go" && "g" + "s" == "gs" && "g" + "i" == "gi";
  }

  // ---------- Tables ----------

  datatype DischargeKey = DischargeKey(revision: RevisionId, discharge: Discharge)

  // Rows map a key to the columns it does not fix: a row count, or the first body that held it.
  datatype Tables = Tables(
    snapshots: map<SnapshotId, nat>,
    observations: map<RevisionId, string>,
    discharges: map<DischargeKey, string>,
    links: set<(RevisionId, SnapshotId)>)

  const EMPTY := Tables(map[], map[], map[], {})

  function InsertDischarges(table: map<DischargeKey, string>, id: RevisionId, ds: seq<Discharge>, body: string): map<DischargeKey, string>
  {
    if ds == [] then table
    else InsertIfAbsent(InsertDischarges(table, id, ds[..|ds| - 1], body), DischargeKey(id, ds[|ds| - 1]), body)
  }

  function InsertRow(t: Tables, row: Row, snapshot: SnapshotId, ds: seq<Discharge>): Tables
  {
    var id := RevisionOf(row);
    t.(observations := InsertIfAbsent(t.observations, id, snapshot.body),
       discharges := InsertDischarges(t.discharges, id, ds, snapshot.body),
       links := t.links + {(id, snapshot)})
  }

  function InsertRows(t: Tables, rows: seq<Row>, snapshot: SnapshotId, ds: seq<Discharge>): Tables
  {
    if rows == [] then t
    else InsertRow(InsertRows(t, rows[..|rows| - 1], snapshot, ds), rows[|rows| - 1], snapshot, ds)
  }

  function Commit(t: Tables, snapshot: SnapshotId, rows: seq<Row>, ds: seq<Discharge>): Tables
  {
    InsertRows(t.(snapshots := InsertIfAbsent(t.snapshots, snapshot, |rows|)), rows, snapshot, ds)
  }

  // ---------- What a commit adds ----------

  ghost predicate HasRevision(rows: seq<Row>, id: RevisionId)
  {
    exists row :: row in rows && RevisionOf(row) == id
  }

  lemma HasRevisionSnoc(rows: seq<Row>, id: RevisionId)
    requires rows != []
    ensures HasRevision(rows, id) <==> HasRevision(rows[..|rows| - 1], id) || RevisionOf(rows[|rows| - 1]) == id
  {
    var front, last := rows[..|rows| - 1], rows[|rows| - 1];
    assert forall r :: r in rows <==> r in front || r == last;
  }

  lemma {:induction false} InsertDischargesAdds(table: map<DischargeKey, string>, id: RevisionId, ds: seq<Discharge>, body: string)
    ensures var r := InsertDischarges(table, id, ds, body);
      forall k ::
        && (k in r <==> k in table || (k.revision == id && k.discharge in ds))
        && (k in r ==> r[k] == if k in table then table[k] else body)
  {
    if ds != [] {
      var front, last := ds[..|ds| - 1], ds[|ds| - 1];
      InsertDischargesAdds(table, id, front, body);
      assert forall d :: d in ds <==> d in front || d == last;
    }
  }

  ghost predicate AddsObservations(t: map<RevisionId, string>, u: map<RevisionId, string>, rows: seq<Row>, body: string)
  {
    forall id ::
      && (id in u <==> id in t || HasRevision(rows, id))
      && (id in u ==> u[id] == if id in t then t[id] else body)
  }

  ghost predicate AddsDischarges(t: map<DischargeKey, string>, u: map<DischargeKey, string>, rows: seq<Row>, body: string, ds: seq<Discharge>)
  {
    forall k ::
      && (k in u <==> k in t || (HasRevision(rows, k.revision) && k.discharge in ds))
      && (k in u ==> u[k] == if k in t then t[k] else body)
  }

  ghost predicate AddsLinks(t: set<(RevisionId, SnapshotId)>, u: set<(RevisionId, SnapshotId)>, rows: seq<Row>, snapshot: SnapshotId)
  {
    forall id, s :: (id, s) in u <==> (id, s) in t || (s == snapshot && HasRevision(rows, id))
  }

  ghost predicate Adds(t: Tables, u: Tables, rows: seq<Row>, snapshot: SnapshotId, ds: seq<Discharge>)
  {
    && AddsObservations(t.observations, u.observations, rows, snapshot.body)
    && AddsDischarges(t.discharges, u.discharges, rows, snapshot.body, ds)
    && AddsLinks(t.links, u.links, rows, snapshot)
  }

  lemma {:induction false} InsertRowsAdds(t: Tables, rows: seq<Row>, snapshot: SnapshotId, ds: seq<Discharge>)
    ensures Adds(t, InsertRows(t, rows, snapshot, ds), rows, snapshot, ds)
    ensures InsertRows(t, rows, snapshot, ds).snapshots == t.snapshots
  {
    if rows != [] {
      var front, last := rows[..|rows| - 1], rows[|rows| - 1];
      InsertRowsAdds(t, front, snapshot, ds);
      InsertRowAdds(t, InsertRows(t, front, snapshot, ds), front, last, snapshot, ds);
      assert rows == front + [last];
    }
  }

  lemma InsertRowAdds(t: Tables, before: Tables, front: seq<Row>, last: Row, snapshot: SnapshotId, ds: seq<Discharge>)
    requires Adds(t, before, front, snapshot, ds)
    ensures Adds(t, InsertRow(before, last, snapshot, ds), front + [last], snapshot, ds)
  {
    var u, rows := InsertRow(before, last, snapshot, ds), front + [last];
    assert rows[..|rows| - 1] == front;
    forall id ensures HasRevision(rows, id) <==> HasRevision(front, id) || RevisionOf(last) == id {
      HasRevisionSnoc(rows, id);
    }
    InsertDischargesAdds(before.discharges, RevisionOf(last), ds, snapshot.body);
    assert AddsObservations(t.observations, u.observations, rows, snapshot.body);
    assert AddsDischarges(t.discharges, u.discharges, rows, snapshot.body, ds);
    assert AddsLinks(t.links, u.links, rows, snapshot);
  }

  lemma CommitAdds(t: Tables, snapshot: SnapshotId, rows: seq<Row>, ds: seq<Discharge>)
    ensures Adds(t, Commit(t, snapshot, rows, ds), rows, snapshot, ds)
    ensures Commit(t, snapshot, rows, ds).snapshots == InsertIfAbsent(t.snapshots, snapshot, |rows|)
  {
    InsertRowsAdds(t.(snapshots := InsertIfAbsent(t.snapshots, snapshot, |rows|)), rows, snapshot, ds);
  }

  // ---------- The tables as a function of what was committed ----------

  datatype Ingest = Ingest(snapshot: SnapshotId, noData: bool)

  // The rows of a response: none for a no-data answer or a body that does not parse.
  function RowsOf(parse: string -> Option<seq<Row>>, g: Ingest): seq<Row>
  {
    if g.noData || parse(g.snapshot.body).None? then [] else parse(g.snapshot.body).value
  }

  ghost predicate Holds(parse: string -> Option<seq<Row>>, committed: set<Ingest>, id: RevisionId, s: SnapshotId)
  {
    exists g :: g in committed && g.snapshot == s && HasRevision(RowsOf(parse, g), id)
  }

  ghost predicate IsCommitted(committed: set<Ingest>, s: SnapshotId)
  {
    exists g :: g in committed && g.snapshot == s
  }

  ghost predicate LinksDerived(t: Tables, parse: string -> Option<seq<Row>>, committed: set<Ingest>)
  {
    && (forall s :: s in t.snapshots <==> IsCommitted(committed, s))
    && (forall id, s :: (id, s) in t.links <==> Holds(parse, committed, id, s))
  }

  ghost predicate Linked(t: Tables, id: RevisionId)
  {
    exists s :: (id, s) in t.links
  }

  ghost predicate RowsDerived(t: Tables, ds: seq<Discharge>)
  {
    && (forall id :: id in t.observations <==> Linked(t, id))
    && (forall k :: k in t.discharges <==> k.revision in t.observations && k.discharge in ds)
  }

  /** Every key in every table is accounted for by the set of committed responses. */
  ghost predicate Derived(t: Tables, parse: string -> Option<seq<Row>>, committed: set<Ingest>, ds: seq<Discharge>)
  {
    LinksDerived(t, parse, committed) && RowsDerived(t, ds)
  }

  lemma EmptyIsDerived(parse: string -> Option<seq<Row>>, ds: seq<Discharge>)
    ensures Derived(EMPTY, parse, {}, ds)
  {
  }

  function CommitIngest(t: Tables, parse: string -> Option<seq<Row>>, g: Ingest, ds: seq<Discharge>): Tables
  {
    Commit(t, g.snapshot, RowsOf(parse, g), ds)
  }

  lemma HoldsGrows(parse: string -> Option<seq<Row>>, committed: set<Ingest>, g: Ingest, id: RevisionId, s: SnapshotId)
    ensures Holds(parse, committed + {g}, id, s)
       <==> Holds(parse, committed, id, s) || (s == g.snapshot && HasRevision(RowsOf(parse, g), id))
  {
    assert g in committed + {g};
  }

  lemma CommittedGrows(committed: set<Ingest>, g: Ingest, s: SnapshotId)
    ensures IsCommitted(committed + {g}, s) <==> IsCommitted(committed, s) || s == g.snapshot
  {
    assert g in committed + {g};
  }

  lemma AddsKeepsRowsDerived(t: Tables, u: Tables, rows: seq<Row>, snapshot: SnapshotId, ds: seq<Discharge>)
    requires RowsDerived(t, ds) && Adds(t, u, rows, snapshot, ds)
    ensures RowsDerived(u, ds)
  {
    forall id ensures id in u.observations <==> Linked(u, id) {
      if HasRevision(rows, id) {
        assert (id, snapshot) in u.links;
      }
      if Linked(t, id) {
        var s :| (id, s) in t.links;
        assert (id, s) in u.links;
      }
      if Linked(u, id) {
        var s :| (id, s) in u.links;
        assert (id, s) in t.links || HasRevision(rows, id);
      }
    }
  }

  lemma CommitKeepsDerived(t: Tables, parse: string -> Option<seq<Row>>, committed: set<Ingest>, g: Ingest, ds: seq<Discharge>)
    requires Derived(t, parse, committed, ds)
    ensures Derived(CommitIngest(t, parse, g, ds), parse, committed + {g}, ds)
  {
    var rows := RowsOf(parse, g);
    var u := CommitIngest(t, parse, g, ds);
    CommitAdds(t, g.snapshot, rows, ds);
    AddsKeepsRowsDerived(t, u, rows, g.snapshot, ds);
    forall id, s ensures (id, s) in u.links <==> Holds(parse, committed + {g}, id, s) {
      HoldsGrows(parse, committed, g, id, s);
    }
    forall s ensures s in u.snapshots <==> IsCommitted(committed + {g}, s) {
      CommittedGrows(committed, g, s);
    }
  }

  /** Replaying a committed response inserts nothing anywhere. */
  lemma ReplayChangesNothing(t: Tables, parse: string -> Option<seq<Row>>, committed: set<Ingest>, g: Ingest, ds: seq<Discharge>)
    requires Derived(t, parse, committed, ds) && g in committed
    ensures CommitIngest(t, parse, g, ds) == t
  {
    var rows := RowsOf(parse, g);
    var u := CommitIngest(t, parse, g, ds);
    CommitAdds(t, g.snapshot, rows, ds);
    assert IsCommitted(committed, g.snapshot);
    forall id | HasRevision(rows, id)
      ensures (id, g.snapshot) in t.links
    {
      assert Holds(parse, committed, id, g.snapshot);
    }
    NothingNew(t, u, rows, g.snapshot, ds);
  }

  lemma NothingNew(t: Tables, u: Tables, rows: seq<Row>, snapshot: SnapshotId, ds: seq<Discharge>)
    requires RowsDerived(t, ds) && Adds(t, u, rows, snapshot, ds)
    requires forall id :: HasRevision(rows, id) ==> (id, snapshot) in t.links
    ensures u.observations == t.observations && u.discharges == t.discharges && u.links == t.links
  {
    forall id | HasRevision(rows, id)
      ensures id in t.observations
    {
      assert Linked(t, id);
    }
    SameLinks(u.links, t.links);
  }

  ghost predicate SameKeys(a: Tables, b: Tables)
  {
    && a.snapshots.Keys == b.snapshots.Keys && a.observations.Keys == b.observations.Keys
    && a.discharges.Keys == b.discharges.Keys && a.links == b.links
  }

  lemma AddsTwice(t: Tables, ab: Tables, mid: Tables, a: seq<Row>, sa: SnapshotId, b: seq<Row>, sb: SnapshotId, ds: seq<Discharge>)
    requires Adds(t, mid, a, sa, ds) && Adds(mid, ab, b, sb, ds)
    ensures forall id :: id in ab.observations <==> id in t.observations || HasRevision(a, id) || HasRevision(b, id)
    ensures forall id :: id in ab.observations ==>
      ab.observations[id] == if id in t.observations then t.observations[id] else if HasRevision(a, id) then sa.body else sb.body
    ensures forall k :: k in ab.discharges <==>
      k in t.discharges || ((HasRevision(a, k.revision) || HasRevision(b, k.revision)) && k.discharge in ds)
    ensures forall id, s :: (id, s) in ab.links <==>
      (id, s) in t.links || (s == sa && HasRevision(a, id)) || (s == sb && HasRevision(b, id))
  {
  }

  lemma InsertsEitherOrder<V>(t: map<SnapshotId, V>, a: SnapshotId, x: V, b: SnapshotId, y: V)
    ensures InsertIfAbsent(InsertIfAbsent(t, a, x), b, y).Keys == InsertIfAbsent(InsertIfAbsent(t, b, y), a, x).Keys
  {
  }

  // Two orders disagree on a stamp exactly where the revision is new, both responses hold it
  // and their bodies differ; each then keeps the body that came first.
  ghost predicate StampsDifferExactlyWhereShared(t: Tables, ab: Tables, ba: Tables,
                                                 ra: seq<Row>, sa: SnapshotId, rb: seq<Row>, sb: SnapshotId)
    requires SameKeys(ab, ba)
  {
    forall id :: id in ab.observations ==>
      && (ab.observations[id] != ba.observations[id] <==>
            id !in t.observations && HasRevision(ra, id) && HasRevision(rb, id) && sa.body != sb.body)
      && (ab.observations[id] != ba.observations[id] ==> ab.observations[id] == sa.body && ba.observations[id] == sb.body)
  }

  /** Two responses committed in either order leave the same keys in every table; the stamps
      differ exactly on the new revisions that two different bodies share. */
  lemma OrderLeavesSameKeys(t: Tables, sa: SnapshotId, ra: seq<Row>, sb: SnapshotId, rb: seq<Row>, ds: seq<Discharge>)
    ensures var ab := Commit(Commit(t, sa, ra, ds), sb, rb, ds);
      var ba := Commit(Commit(t, sb, rb, ds), sa, ra, ds);
      SameKeys(ab, ba) && StampsDifferExactlyWhereShared(t, ab, ba, ra, sa, rb, sb)
  {
    var ta, tb := Commit(t, sa, ra, ds), Commit(t, sb, rb, ds);
    var ab, ba := Commit(ta, sb, rb, ds), Commit(tb, sa, ra, ds);
    CommitAdds(t, sa, ra, ds);
    CommitAdds(t, sb, rb, ds);
    CommitAdds(ta, sb, rb, ds);
    CommitAdds(tb, sa, ra, ds);
    InsertsEitherOrder(t.snapshots, sa, |ra|, sb, |rb|);
    AddsEitherOrder(t, ta, ab, tb, ba, ra, sa, rb, sb, ds);
  }

  lemma AddsEitherOrder(t: Tables, ta: Tables, ab: Tables, tb: Tables, ba: Tables,
                        ra: seq<Row>, sa: SnapshotId, rb: seq<Row>, sb: SnapshotId, ds: seq<Discharge>)
    requires Adds(t, ta, ra, sa, ds) && Adds(ta, ab, rb, sb, ds)
    requires Adds(t, tb, rb, sb, ds) && Adds(tb, ba, ra, sa, ds)
    requires ab.snapshots.Keys == ba.snapshots.Keys
    ensures SameKeys(ab, ba) && StampsDifferExactlyWhereShared(t, ab, ba, ra, sa, rb, sb)
  {
    AddsTwice(t, ab, ta, ra, sa, rb, sb, ds);
    AddsTwice(t, ba, tb, rb, sb, ra, sa, ds);
    SameLinks(ab.links, ba.links);
    assert forall id :: id in ab.observations <==> id in ba.observations;
    assert forall k :: k in ab.discharges <==> k in ba.discharges;
    assert ab.observations.Keys == ba.observations.Keys;
    assert ab.discharges.Keys == ba.discharges.Keys;
  }

  lemma SameLinks(a: set<(RevisionId, SnapshotId)>, b: set<(RevisionId, SnapshotId)>)
    requires forall id, s :: (id, s) in a <==> (id, s) in b
    ensures a == b
  {
    forall p ensures p in a <==> p in b {
      assert p == (p.0, p.1);
    }
  }

  function DischargesOf(t: Tables, id: RevisionId): set<DischargeKey>
  {
    set k | k in t.discharges && k.revision == id
  }

  lemma {:induction false} KeysOfDischarges(id: RevisionId, ds: seq<Discharge>) returns (keys: set<DischargeKey>)
    requires Distinct(ds)
    ensures |keys| == |ds| && forall k :: k in keys <==> k.revision == id && k.discharge in ds
  {
    if ds == [] {
      keys := {};
    } else {
      var front, last := ds[..|ds| - 1], ds[|ds| - 1];
      var rest := KeysOfDischarges(id, front);
      assert ds == front + [last];
      assert last !in front;
      keys := rest + {DischargeKey(id, last)};
    }
  }

  lemma DischargesCounted(t: Tables, id: RevisionId, ds: seq<Discharge>)
    requires RowsDerived(t, ds) && Distinct(ds)
    ensures |DischargesOf(t, id)| == if id in t.observations then |ds| else 0
  {
    if id in t.observations {
      var keys := KeysOfDischarges(id, ds);
      assert DischargesOf(t, id) == keys;
    } else {
      assert DischargesOf(t, id) == {};
    }
  }

  /** Every stored revision has exactly fourteen discharge rows, and a snapshot that held it. */
  lemma RevisionIsComplete(t: Tables, parse: string -> Option<seq<Row>>, committed: set<Ingest>, id: RevisionId)
    requires Derived(t, parse, committed, Discharges())
    ensures |DischargesOf(t, id)| == if id in t.observations then 14 else 0
    ensures id in t.observations <==> exists s :: s in t.snapshots && (id, s) in t.links
  {
    FourteenDischarges();
    DischargesCounted(t, id, Discharges());
    if id in t.observations {
      var s :| (id, s) in t.links;
      assert Holds(parse, committed, id, s);
      assert IsCommitted(committed, s);
    }
    if s :| s in t.snapshots && (id, s) in t.links {
      assert Linked(t, id);
    }
  }
}
