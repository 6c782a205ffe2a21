/** Planning, ingesting and retrying Hydrocron requests (riverpulse/collection.py). */
module HydrocronStore {
  import opened Prelude
  import opened HydrocronIngest

  datatype Status = Planned | Running(startedAt: int) | Failed | Success

  datatype FetchResult = FetchResult(body: string, noData: bool)

  datatype PersistError = BadBody | WrongReach | SnapshotMismatch | RolledBack

  datatype PlanError = EmptyRegistry | UnknownReach | NoReach

  datatype Counts = Counts(rows: nat, observations: nat, discharges: nat, links: nat)

  datatype IngestMetrics = IngestMetrics(succeeded: nat, noData: nat, failed: nat, counts: Counts)

  datatype DiscoveryMetrics = DiscoveryMetrics(reaches: nat, windows: nat, planned: nat, existing: nat)

  // A snapshot file: its path holds the request, the digest of the body and the extension.
  datatype FileId = FileId(snapshot: SnapshotId, noData: bool)

  const HOUR := 3600

  // Everything but a success and a run that started within the last hour.
  ghost predicate IsDue(status: Status, now: int)
  {
    status != Success && (status.Running? ==> now - status.startedAt > 3600)
  }

  predicate Offered(status: Status, now: int)
    ensures Offered(status, now) <==> IsDue(status, now)
  {
    match status
    case Planned => true
    case Failed => true
    case Running(startedAt) => startedAt < now - HOUR
    case Success => false
  }

  ghost predicate SuccessKept(before: map<RequestId, Status>, after: map<RequestId, Status>)
  {
    forall id :: id in before ==> id in after && (before[id] == Success ==> after[id] == Success)
  }

  ghost predicate ComesBefore(digest: RequestId -> string, a: RequestId, b: RequestId)
  {
    && a.start <= b.start
    && (a.start == b.start ==> TextLeq(a.reach, b.reach))
    && (a.start == b.start && a.reach == b.reach ==> TextLeq(digest(a), digest(b)))
  }

  // Oldest window first, then reach, then the text of the request's digest.
  function Earlier(digest: RequestId -> string): (RequestId, RequestId) -> bool
  {
    (a: RequestId, b: RequestId) =>
      if a.start != b.start then a.start < b.start
      else if a.reach != b.reach then TextLeq(a.reach, b.reach)
      else TextLeq(digest(a), digest(b))
  }

  ghost predicate Injective(digest: RequestId -> string)
  {
    forall a, b :: digest(a) == digest(b) ==> a == b
  }

  lemma EarlierIs(digest: RequestId -> string, a: RequestId, b: RequestId)
    ensures Earlier(digest)(a, b) <==> ComesBefore(digest, a, b)
  {
    TextLeqPreorder();
  }

  lemma EarlierPreorder(digest: RequestId -> string)
    ensures TotalPreorder(Earlier(digest))
  {
    TextLeqPreorder();
    forall a: RequestId, b: RequestId, c: RequestId | Earlier(digest)(a, b) && Earlier(digest)(b, c)
      ensures Earlier(digest)(a, c)
    {
      EarlierTransitive(digest, a, b, c);
    }
  }

  lemma EarlierTransitive(digest: RequestId -> string, a: RequestId, b: RequestId, c: RequestId)
    requires Earlier(digest)(a, b) && Earlier(digest)(b, c)
    ensures Earlier(digest)(a, c)
  {
    TextLeqPreorder();
    if a.start == b.start == c.start {
      if a.reach == c.reach && a.reach != b.reach {
        TextLeqAntisymmetric(a.reach, b.reach);
      }
    }
  }

  lemma EarlierAntisymmetric(digest: RequestId -> string)
    requires Injective(digest)
    ensures Antisymmetric(Earlier(digest))
  {
    forall a: RequestId, b: RequestId | Earlier(digest)(a, b) && Earlier(digest)(b, a)
      ensures a == b
    {
      if a.reach != b.reach {
        TextLeqAntisymmetric(a.reach, b.reach);
      } else {
        TextLeqAntisymmetric(digest(a), digest(b));
      }
    }
  }

  function Ingested(request: RequestId, result: FetchResult): Ingest
  {
    Ingest(SnapshotId(request, result.body), result.noData)
  }

  function FileOf(g: Ingest): FileId { FileId(g.snapshot, g.noData) }

  predicate AllFrom(rows: seq<Row>, reach: string)
  {
    forall row | row in rows :: row.reach == reach
  }

  // When a response is accepted, apart from the transaction itself: it says there is no data,
  // or it parses and every line is of the reach asked for.
  ghost predicate Accepts(parse: string -> Option<seq<Row>>, request: RequestId, result: FetchResult)
  {
    || result.noData
    || (parse(result.body).Some? && forall row :: row in parse(result.body).value ==> row.reach == request.reach)
  }

  /** Reported insertions are exactly the growth of each table. */
  ghost predicate Grew(t: Tables, u: Tables, c: Counts)
  {
    && |u.observations| == |t.observations| + c.observations
    && |u.discharges| == |t.discharges| + c.discharges
    && |u.links| == |t.links| + c.links
  }

  function AddCounts(a: Counts, b: Counts): Counts
  {
    Counts(a.rows + b.rows, a.observations + b.observations, a.discharges + b.discharges, a.links + b.links)
  }

  lemma GrowthAdds(t: Tables, u: Tables, v: Tables, a: Counts, b: Counts)
    requires Grew(t, u, a) && Grew(u, v, b)
    ensures Grew(t, v, AddCounts(a, b))
  {
  }

  lemma NoGrowth(t: Tables, c: Counts)
    requires Grew(t, t, c)
    ensures c == Counts(c.rows, 0, 0, 0)
  {
  }

  lemma InsertGrows<K, V>(table: map<K, V>, key: K, value: V)
    ensures |InsertIfAbsent(table, key, value)| == if key in table then |table| else |table| + 1
  {
    var after := InsertIfAbsent(table, key, value);
    assert after.Keys == table.Keys + {key};
    assert |after| == |after.Keys| && |table| == |table.Keys|;
  }

  /** What the tables gain from a response that is accepted: its snapshot, under the request
      and the body, and of the lines it holds, none when it says there is no data, what is new. */
  lemma ResponseAdds(t: Tables, parse: string -> Option<seq<Row>>, request: RequestId, result: FetchResult, ds: seq<Discharge>)
    requires Accepts(parse, request, result)
    ensures var u := CommitIngest(t, parse, Ingested(request, result), ds);
      var rows := if result.noData then [] else parse(result.body).value;
      var snapshot := SnapshotId(request, result.body);
      && Adds(t, u, rows, snapshot, ds)
      && (forall s :: s in u.snapshots <==> s in t.snapshots || s == snapshot)
      && forall s :: s in u.snapshots ==> u.snapshots[s] == if s in t.snapshots then t.snapshots[s] else |rows|
  {
    CommitAdds(t, SnapshotId(request, result.body), if result.noData then [] else parse(result.body).value, ds);
  }

  ghost predicate FilesSound(files: map<FileId, string>, committed: set<Ingest>)
  {
    && (forall f :: f in files ==> files[f] == f.snapshot.body)
    && (forall g :: g in committed ==> FileOf(g) in files)
  }

  ghost predicate HasSnapshot(committed: set<Ingest>, id: RequestId)
  {
    exists g :: g in committed && g.snapshot.request == id
  }

  ghost predicate SuccessHasSnapshot(requests: map<RequestId, Status>, committed: set<Ingest>)
  {
    forall id :: id in requests && requests[id] == Success ==> HasSnapshot(committed, id)
  }

  /** Keys follow from the committed responses, files hold the bodies they are named by,
      every committed response has its file and every success its snapshot. */
  ghost predicate Sound(t: Tables, parse: string -> Option<seq<Row>>, committed: set<Ingest>,
                        files: map<FileId, string>, requests: map<RequestId, Status>)
  {
    Derived(t, parse, committed, Discharges()) && FilesSound(files, committed) && SuccessHasSnapshot(requests, committed)
  }

  lemma FilesHoldBodies(t: Tables, parse: string -> Option<seq<Row>>, committed: set<Ingest>, files: map<FileId, string>,
                        requests: map<RequestId, Status>)
    requires Sound(t, parse, committed, files, requests)
    ensures forall f :: f in files ==> files[f] == f.snapshot.body
  {
  }

  lemma FilesGrow(t: Tables, parse: string -> Option<seq<Row>>, committed: set<Ingest>, files: map<FileId, string>,
                  more: map<FileId, string>, requests: map<RequestId, Status>, g: Ingest)
    requires Sound(t, parse, committed, files, requests)
    requires more == files || more == files[FileOf(g) := g.snapshot.body]
    ensures Sound(t, parse, committed, more, requests)
  {
  }

  function Succeeded(requests: map<RequestId, Status>, request: RequestId): map<RequestId, Status>
  {
    if request in requests then requests[request := Success] else requests
  }

  lemma CommitKeepsSound(t: Tables, parse: string -> Option<seq<Row>>, committed: set<Ingest>,
                         files: map<FileId, string>, requests: map<RequestId, Status>, g: Ingest)
    requires Sound(t, parse, committed, files, requests) && FileOf(g) in files
    ensures Sound(CommitIngest(t, parse, g, Discharges()), parse, committed + {g}, files, Succeeded(requests, g.snapshot.request))
  {
    CommitKeepsDerived(t, parse, committed, g, Discharges());
    SuccessKeepsSnapshot(requests, committed, g);
  }

  lemma SuccessKeepsSnapshot(requests: map<RequestId, Status>, committed: set<Ingest>, g: Ingest)
    requires SuccessHasSnapshot(requests, committed)
    ensures SuccessHasSnapshot(Succeeded(requests, g.snapshot.request), committed + {g})
  {
    assert g in committed + {g};
    forall id | HasSnapshot(committed, id)
      ensures HasSnapshot(committed + {g}, id)
    {
      var h :| h in committed && h.snapshot.request == id;
      assert h in committed + {g};
    }
  }

  // The reaches a discovery covers: the caller's, each once, or every registered one.
  function Registered(available: seq<string>, chosen: Option<seq<string>>): (r: seq<string>)
    ensures forall reach :: reach in r <==> IsCovered(available, chosen, reach)
    ensures if chosen.Some? then Distinct(r) else r == available
  {
    if chosen.Some? then Unique(chosen.value) else available
  }

  ghost predicate IsCovered(available: seq<string>, chosen: Option<seq<string>>, reach: string)
  {
    if chosen.Some? then reach in chosen.value else reach in available
  }

  // A request for one of the reaches and one of the windows.
  ghost predicate IsWanted(id: RequestId, reaches: seq<string>, windows: seq<(int, int)>, collection: string, contract: string)
  {
    id.reach in reaches && (id.start, id.end) in windows && id.collection == collection && id.contract == contract
  }

  lemma RequestsAreWanted(reach: string, windows: seq<(int, int)>, collection: string, contract: string, id: RequestId)
    ensures id in RequestsOf(reach, windows, collection, contract) <==> IsWanted(id, [reach], windows, collection, contract)
  {
    if IsWanted(id, [reach], windows, collection, contract) {
      var i :| 0 <= i < |windows| && windows[i] == (id.start, id.end);
      assert RequestsOf(reach, windows, collection, contract)[i] == id;
    }
  }

  lemma {:induction false} PlanIsWanted(reaches: seq<string>, windows: seq<(int, int)>, collection: string, contract: string, id: RequestId)
    ensures id in PlanOf(reaches, windows, collection, contract) <==> IsWanted(id, reaches, windows, collection, contract)
  {
    if reaches != [] {
      var front, last := reaches[..|reaches| - 1], reaches[|reaches| - 1];
      PlanIsWanted(front, windows, collection, contract, id);
      RequestsAreWanted(last, windows, collection, contract, id);
      assert reaches == front + [last];
    }
  }

  /** Exactly the requests that are wanted and absent are added, as planned. */
  ghost predicate Plans(before: map<RequestId, Status>, after: map<RequestId, Status>, reaches: seq<string>,
                        windows: seq<(int, int)>, collection: string, contract: string)
  {
    && (forall id :: id in after <==> id in before || IsWanted(id, reaches, windows, collection, contract))
    && (forall id :: id in before ==> after[id] == before[id])
    && (forall id :: id in after && id !in before ==> after[id] == Planned)
  }

  lemma {:induction false} PlannedIsWanted(before: map<RequestId, Status>, after: map<RequestId, Status>, reaches: seq<string>,
                        windows: seq<(int, int)>, collection: string, contract: string)
    requires AddsPlanned(before, after, PlanOf(reaches, windows, collection, contract))
    ensures Plans(before, after, reaches, windows, collection, contract)
  {
    forall id ensures id in after <==> id in before || IsWanted(id, reaches, windows, collection, contract) {
      PlanIsWanted(reaches, windows, collection, contract, id);
    }
  }

  function RequestsOf(reach: string, windows: seq<(int, int)>, collection: string, contract: string): (r: seq<RequestId>)
    ensures |r| == |windows|
  {
    seq(|windows|, i requires 0 <= i < |windows| => RequestId(collection, reach, windows[i].0, windows[i].1, contract))
  }

  function PlanOf(reaches: seq<string>, windows: seq<(int, int)>, collection: string, contract: string): seq<RequestId>
  {
    if reaches == [] then []
    else PlanOf(reaches[..|reaches| - 1], windows, collection, contract)
         + RequestsOf(reaches[|reaches| - 1], windows, collection, contract)
  }

  lemma {:induction false} PlanSnoc(reaches: seq<string>, i: nat, windows: seq<(int, int)>, collection: string, contract: string)
    requires i < |reaches|
    ensures PlanOf(reaches[..i + 1], windows, collection, contract)
         == PlanOf(reaches[..i], windows, collection, contract) + RequestsOf(reaches[i], windows, collection, contract)
  {
    assert reaches[..i + 1][..i] == reaches[..i];
  }

  function Product(a: nat, b: nat): nat { a * b }

  lemma ProductSnoc(a: nat, b: nat)
    ensures Product(a + 1, b) == Product(a, b) + b
  {
  }

  /** Planning the same requests again adds nothing. */
  lemma ReplanAddsNothing(before: map<RequestId, Status>, planned: map<RequestId, Status>, after: map<RequestId, Status>, ids: seq<RequestId>)
    requires AddsPlanned(before, planned, ids) && AddsPlanned(planned, after, ids)
    ensures after == planned
  {
  }

  // Requests after the absent ones among `ids` have been planned.
  ghost predicate AddsPlanned(before: map<RequestId, Status>, after: map<RequestId, Status>, ids: seq<RequestId>)
  {
    && (forall id :: id in after <==> id in before || id in ids)
    && (forall id :: id in after ==> after[id] == if id in before then before[id] else Planned)
  }

  lemma PlannedJoin(a: map<RequestId, Status>, b: map<RequestId, Status>, c: map<RequestId, Status>, first: seq<RequestId>, second: seq<RequestId>)
    requires AddsPlanned(a, b, first) && AddsPlanned(b, c, second)
    ensures AddsPlanned(a, c, first + second)
  {
  }

  lemma PlanningKeepsSound(t: Tables, parse: string -> Option<seq<Row>>, committed: set<Ingest>, files: map<FileId, string>,
                           before: map<RequestId, Status>, after: map<RequestId, Status>, ids: seq<RequestId>)
    requires Sound(t, parse, committed, files, before) && AddsPlanned(before, after, ids)
    ensures Sound(t, parse, committed, files, after) && SuccessKept(before, after)
  {
  }

  class Store {
    const parse: string -> Option<seq<Row>>
    const digest: RequestId -> string
    var requests: map<RequestId, Status>
    var files: map<FileId, string>
    var snapshots: map<SnapshotId, nat>
    var observations: map<RevisionId, string>
    var discharges: map<DischargeKey, string>
    var links: set<(RevisionId, SnapshotId)>
    ghost var committed: set<Ingest>

    ghost function Rows(): Tables
      reads this`snapshots, this`observations, this`discharges, this`links
    {
      Tables(snapshots, observations, discharges, links)
    }

    ghost predicate Valid()
      reads this
    {
      Sound(Rows(), parse, committed, files, requests)
    }

    constructor (parse: string -> Option<seq<Row>>, digest: RequestId -> string)
      ensures Valid() && requests == map[] && Rows() == EMPTY && this.parse == parse && this.digest == digest
    {
      this.parse, this.digest := parse, digest;
      requests, files, snapshots, observations, discharges, links := map[], map[], map[], map[], map[], {};
      committed := {};
      new;
      EmptyIsDerived(parse, Discharges());
    }

    // ---------- Planning ----------

    // One reach, window by window.
    method PlanReach(reach: string, windows: seq<(int, int)>, collection: string, contract: string) returns (inserted: nat)
      modifies this`requests
      ensures AddsPlanned(old(requests), requests, RequestsOf(reach, windows, collection, contract))
      ensures |requests| == |old(requests)| + inserted && inserted <= |windows|
    {
      var ids := RequestsOf(reach, windows, collection, contract);
      inserted := 0;
      for i := 0 to |ids|
        invariant AddsPlanned(old(requests), requests, ids[..i])
        invariant |requests| == |old(requests)| + inserted && inserted <= i
      {
        TakeSnoc(ids, i);
        InsertGrows(requests, ids[i], Planned);
        inserted := inserted + if ids[i] in requests then 0 else 1;
        requests := InsertIfAbsent(requests, ids[i], Planned);
      }
      assert ids[..|ids|] == ids;
    }

    // Every reach in turn.
    method PlanAll(registered: seq<string>, windows: seq<(int, int)>, collection: string, contract: string) returns (inserted: nat)
      modifies this`requests
      ensures AddsPlanned(old(requests), requests, PlanOf(registered, windows, collection, contract))
      ensures |requests| == |old(requests)| + inserted && inserted <= Product(|registered|, |windows|)
    {
      ghost var before := requests;
      inserted := 0;
      for i := 0 to |registered|
        invariant AddsPlanned(before, requests, PlanOf(registered[..i], windows, collection, contract))
        invariant |requests| == |before| + inserted && inserted <= Product(i, |windows|)
      {
        ghost var middle := requests;
        var more := PlanReach(registered[i], windows, collection, contract);
        PlanSnoc(registered, i, windows, collection, contract);
        PlannedJoin(before, middle, requests, PlanOf(registered[..i], windows, collection, contract),
                    RequestsOf(registered[i], windows, collection, contract));
        ProductSnoc(i, |windows|);
        inserted := inserted + more;
      }
      assert registered[..|registered|] == registered;
    }

    /** Requests are only ever added, each as planned; the two figures reported are the rows
        added and the rows found already there. */
    method PlanSourceRequests(available: seq<string>, chosen: Option<seq<string>>, windows: seq<(int, int)>,
                              collection: string, contract: string)
      returns (r: Result<DiscoveryMetrics, PlanError>)
      requires Valid()
      modifies this`requests
      ensures Valid() && SuccessKept(old(requests), requests)
      ensures r.Err? ==> requests == old(requests)
      ensures r.Ok? <==>
        && available != [] && (exists reach :: IsCovered(available, chosen, reach))
        && forall reach :: IsCovered(available, chosen, reach) ==> reach in available
      ensures r.Ok? ==>
        && Plans(old(requests), requests, Registered(available, chosen), windows, collection, contract)
        && AddsPlanned(old(requests), requests, PlanOf(Registered(available, chosen), windows, collection, contract))
        && r.value.reaches == |Registered(available, chosen)| && r.value.windows == |windows|
        && |requests| == |old(requests)| + r.value.planned
        && r.value.planned + r.value.existing == r.value.reaches * r.value.windows
    {
      if available == [] {
        return Err(EmptyRegistry);
      }
      var registered := Registered(available, chosen);
      if exists reach | reach in registered :: reach !in available {
        return Err(UnknownReach);
      }
      if registered == [] {
        return Err(NoReach);
      }
      ghost var before := requests;
      assert registered[0] in registered;
      var inserted := PlanAll(registered, windows, collection, contract);
      PlannedIsWanted(before, requests, registered, windows, collection, contract);
      PlanningKeepsSound(Rows(), parse, committed, files, before, requests, PlanOf(registered, windows, collection, contract));
      var total := Product(|registered|, |windows|);
      r := Ok(DiscoveryMetrics(|registered|, |windows|, inserted, total - inserted));
    }

    // ---------- Persisting one response ----------

    /** Reported insertions are exactly the growth of the two tables. */
    method InsertObservation(row: Row, body: string, catalog: seq<Discharge>) returns (obs: nat, dis: nat)
      modifies this`observations, this`discharges
      ensures observations == InsertIfAbsent(old(observations), RevisionOf(row), body)
      ensures discharges == InsertDischarges(old(discharges), RevisionOf(row), catalog, body)
      ensures |observations| == |old(observations)| + obs && |discharges| == |old(discharges)| + dis
    {
      var id := RevisionOf(row);
      obs := if id in observations then 0 else 1;
      InsertGrows(observations, id, body);
      observations := InsertIfAbsent(observations, id, body);
      dis := 0;
      for i := 0 to |catalog|
        invariant discharges == InsertDischarges(old(discharges), id, catalog[..i], body)
        invariant |discharges| == |old(discharges)| + dis
        invariant observations == InsertIfAbsent(old(observations), id, body)
      {
        var key := DischargeKey(id, catalog[i]);
        assert catalog[..i + 1][..i] == catalog[..i];
        InsertGrows(discharges, key, body);
        dis := dis + if key in discharges then 0 else 1;
        discharges := InsertIfAbsent(discharges, key, body);
      }
      assert catalog[..|catalog|] == catalog;
    }

    method InsertAll(rows: seq<Row>, snapshot: SnapshotId, catalog: seq<Discharge>) returns (c: Counts)
      modifies this`observations, this`discharges, this`links
      ensures Rows() == InsertRows(old(Rows()), rows, snapshot, catalog)
      ensures c.rows == |rows| && Grew(old(Rows()), Rows(), c)
    {
      c := Counts(|rows|, 0, 0, 0);
      ghost var start := Rows();
      for i := 0 to |rows|
        invariant Rows() == InsertRows(start, rows[..i], snapshot, catalog)
        invariant c.rows == |rows| && Grew(start, Rows(), c)
      {
        var link := (RevisionOf(rows[i]), snapshot);
        var added := if link in links then 0 else 1;
        assert rows[..i + 1][..i] == rows[..i];
        var obs, dis := InsertObservation(rows[i], snapshot.body, catalog);
        LinkGrows(links, link);
        links := links + {link};
        c := c.(observations := c.observations + obs, discharges := c.discharges + dis, links := c.links + added);
      }
      assert rows[..|rows|] == rows;
    }

    /** Writes the file under a private name and renames it; a file already there must agree. */
    method AtomicSnapshot(file: FileId, body: string) returns (ok: bool)
      modifies this`files
      ensures ok <==> file in old(files) ==> old(files)[file] == body
      ensures files == if ok then old(files)[file := body] else old(files)
    {
      if file in files {
        assert files[file] == body ==> files[file := body] == files;
        return files[file] == body;
      }
      files := files[file := body];
      ok := true;
    }

    // The file and the transaction, whatever the tables hold.
    method Persist(request: RequestId, result: FetchResult, fault: bool) returns (r: Result<Counts, PersistError>)
      requires forall f :: f in files ==> files[f] == f.snapshot.body
      modifies this`files, this`snapshots, this`observations, this`discharges, this`links, this`requests
      ensures r.Ok? <==> Accepts(parse, request, result) && !fault
      ensures r.Err? ==> r.error != SnapshotMismatch && Rows() == old(Rows()) && requests == old(requests)
      ensures files == old(files) || files == old(files)[FileOf(Ingested(request, result)) := result.body]
      ensures r.Ok? ==>
        var g := Ingested(request, result);
        && FileOf(g) in files
        && Rows() == CommitIngest(old(Rows()), parse, g, Discharges())
        && requests == Succeeded(old(requests), request)
        && r.value.rows == |RowsOf(parse, g)| && Grew(old(Rows()), Rows(), r.value)
    {
      if !result.noData && parse(result.body).None? {
        return Err(BadBody);
      }
      var g := Ingested(request, result);
      var rows := RowsOf(parse, g);
      if !AllFrom(rows, request.reach) {
        return Err(WrongReach);
      }
      var written := AtomicSnapshot(FileOf(g), result.body);
      if !written {
        return Err(SnapshotMismatch);
      }
      r := CommitTransaction(request, g.snapshot, rows, fault);
    }

    /** One response. `fault` says whether the transaction raises before it commits: tables
        and request are then as before, and only the snapshot file has been written. */
    method PersistFetchResult(request: RequestId, result: FetchResult, fault: bool) returns (r: Result<Counts, PersistError>)
      requires Valid()
      modifies this
      ensures Valid()
      ensures r.Ok? <==> Accepts(parse, request, result) && !fault
      ensures r.Err? ==> r.error != SnapshotMismatch
      ensures r.Err? ==> Rows() == old(Rows()) && requests == old(requests) && committed == old(committed)
      ensures r.Ok? ==>
        var g := Ingested(request, result);
        && Rows() == CommitIngest(old(Rows()), parse, g, Discharges())
        && committed == old(committed) + {g}
        && requests == Succeeded(old(requests), request)
        && r.value.rows == |RowsOf(parse, g)| && Grew(old(Rows()), Rows(), r.value)
      ensures r.Ok? && Ingested(request, result) in old(committed) ==>
        Rows() == old(Rows()) && r.value == Counts(r.value.rows, 0, 0, 0)
    {
      ghost var t, before, held, g := Rows(), requests, committed, Ingested(request, result);
      FilesHoldBodies(t, parse, committed, files, requests);
      r := Persist(request, result, fault);
      FilesGrow(t, parse, held, old(files), files, before, g);
      if r.Ok? {
        CommitKeepsSound(t, parse, held, files, before, g);
        if g in held {
          ReplayChangesNothing(t, parse, held, g, Discharges());
          NoGrowth(t, r.value);
        }
        committed := committed + {g};
      }
    }

    method InsertResponse(snapshot: SnapshotId, rows: seq<Row>, catalog: seq<Discharge>) returns (c: Counts)
      modifies this`snapshots, this`observations, this`discharges, this`links
      ensures Rows() == Commit(old(Rows()), snapshot, rows, catalog)
      ensures c.rows == |rows| && Grew(old(Rows()), Rows(), c)
    {
      snapshots := InsertIfAbsent(snapshots, snapshot, |rows|);
      c := InsertAll(rows, snapshot, catalog);
    }

    // BEGIN to COMMIT or ROLLBACK.
    method CommitTransaction(request: RequestId, snapshot: SnapshotId, rows: seq<Row>, fault: bool) returns (r: Result<Counts, PersistError>)
      modifies this`snapshots, this`observations, this`discharges, this`links, this`requests
      ensures r.Ok? <==> !fault
      ensures r.Err? ==> r.error == RolledBack && Rows() == old(Rows()) && requests == old(requests)
      ensures r.Ok? ==>
        && Rows() == Commit(old(Rows()), snapshot, rows, Discharges())
        && requests == Succeeded(old(requests), request)
        && r.value.rows == |rows| && Grew(old(Rows()), Rows(), r.value)
    {
      var saved := (snapshots, observations, discharges, links);
      var counts := InsertResponse(snapshot, rows, Discharges());
      if fault {
        snapshots, observations, discharges, links := saved.0, saved.1, saved.2, saved.3;
        return Err(RolledBack);
      }
      if request in requests {
        requests := requests[request := Success];
      }
      r := Ok(counts);
    }

    // ---------- Running what is pending ----------

    method PendingRequests(now: int, limit: Option<nat>) returns (r: seq<RequestId>)
      ensures IsPending(digest, r, requests, now, limit)
    {
      var offered := set id | id in requests && Offered(requests[id], now);
      var todo, listed: seq<RequestId> := offered, [];
      while todo != {}
        invariant todo <= offered && IsListing(listed, offered - todo)
        decreases |todo|
      {
        ghost var some := Member(todo);
        var id :| id in todo;
        listed := listed + [id];
        todo := todo - {id};
      }
      assert offered - todo == offered;
      SortedListing(digest, listed, offered);
      r := SortBy(listed, Earlier(digest));
      forall i, j | 0 <= i < j < |r| ensures ComesBefore(digest, r[i], r[j]) {
        EarlierIs(digest, r[i], r[j]);
      }
      if limit.Some? && limit.value < |r| {
        TakeIsPending(digest, r, limit.value, requests, now);
        r := r[..limit.value];
      }
    }

    // Marks a request as started or as failed.
    method Mark(id: RequestId, status: Status)
      requires Valid() && status != Success
      modifies this`requests
      ensures Valid() && requests == old(requests)[id := status]
    {
      StatusKeepsSound(Rows(), parse, committed, files, requests, id, status);
      requests := requests[id := status];
    }

    /** One pending request from started to success or failure. `fetch` is None where the
        provider raised. */
    method RunRequest(id: RequestId, now: int, fetch: Option<FetchResult>, fault: bool) returns (r: Option<Counts>)
      requires Valid() && id in requests
      modifies this
      ensures Valid()
      ensures requests == old(requests)[id := if r.Some? then Success else Failed]
      ensures r.Some? <==> fetch.Some? && Accepts(parse, id, fetch.value) && !fault
      ensures if r.Some? then Grew(old(Rows()), Rows(), r.value) else Rows() == old(Rows())
      ensures committed == if r.Some? then old(committed) + {Ingested(id, fetch.value)} else old(committed)
      ensures r.Some? ==> r.value.rows == |RowsOf(parse, Ingested(id, fetch.value))|
    {
      ghost var before := requests;
      Mark(id, Running(now));
      r := None;
      if fetch.Some? {
        var persisted := PersistFetchResult(id, fetch.value, fault);
        if persisted.Ok? {
          assert requests == before[id := Success];
          return Some(persisted.value);
        }
      }
      Mark(id, Failed);
      assert requests == before[id := Failed];
    }

    /** Every pending request ends as success or failure, failures never stop the others, a
        request fails exactly when its fetch raised, its response was refused or its transaction
        rolled back, the committed responses are those of the others, the counters count the
        requests of each outcome and the lines, and the reported insertions are exactly the
        growth of the tables. */
    method SyncPendingRequests(now: int, limit: Option<nat>, fetch: RequestId -> Option<FetchResult>, fault: RequestId -> bool)
      returns (m: IngestMetrics, failedIds: seq<RequestId>, ghost ran: seq<RequestId>)
      requires Valid()
      modifies this
      ensures Valid() && SuccessKept(old(requests), requests)
      ensures IsPending(digest, ran, old(requests), now, limit)
      ensures forall id :: id in ran ==> (id in failedIds <==> !Goes(parse, id, fetch, fault))
      ensures committed == old(committed) + ResponsesOf(parse, ran, fetch, fault)
      ensures Swept(old(requests), requests, ran, failedIds)
      ensures AreFigures(m, ran, failedIds, parse, fetch, fault)
      ensures Grew(old(Rows()), Rows(), m.counts)
    {
      var pending := PendingRequests(now, limit);
      ran := pending;
      ghost var before, start, held := requests, Rows(), committed;
      m, failedIds := SyncAll(pending, now, fetch, fault);
      WhatProgressSays(digest, before, requests, held, committed, start, Rows(), pending, failedIds, m, parse, fetch, fault, now, limit);
    }

    // The loop over the listed requests.
    method SyncAll(pending: seq<RequestId>, now: int, fetch: RequestId -> Option<FetchResult>, fault: RequestId -> bool)
      returns (m: IngestMetrics, failedIds: seq<RequestId>)
      requires Valid() && AreDistinct(pending, requests)
      modifies this
      ensures Valid()
      ensures Progress(old(requests), requests, old(committed), committed, old(Rows()), Rows(), pending, failedIds, m, parse, fetch, fault)
    {
      m, failedIds := IngestMetrics(0, 0, 0, Counts(0, 0, 0, 0)), [];
      ghost var before, start, held := requests, Rows(), committed;
      assert pending[..0] == [];
      NoProgress(before, held, start, m, parse, fetch, fault);
      for i := 0 to |pending|
        invariant Valid()
        invariant Progress(before, requests, held, committed, start, Rows(), pending[..i], failedIds, m, parse, fetch, fault)
      {
        NextIsNew(pending, before, i);
        TakeSnoc(pending, i);
        m, failedIds := SyncNext(pending[i], pending[..i], now, fetch, fault, m, failedIds, before, start, held);
      }
      assert pending[..|pending|] == pending;
    }

    // One turn of the loop.
    method SyncNext(id: RequestId, ghost done: seq<RequestId>, now: int, fetch: RequestId -> Option<FetchResult>, fault: RequestId -> bool,
                    m: IngestMetrics, failed: seq<RequestId>, ghost before: map<RequestId, Status>, ghost start: Tables,
                    ghost held: set<Ingest>)
      returns (n: IngestMetrics, failedIds: seq<RequestId>)
      requires Valid() && id in before && id !in done
      requires Progress(before, requests, held, committed, start, Rows(), done, failed, m, parse, fetch, fault)
      modifies this
      ensures Valid()
      ensures Progress(before, requests, held, committed, start, Rows(), done + [id], failedIds, n, parse, fetch, fault)
    {
      ghost var middle, table, was := requests, Rows(), committed;
      Known(before, middle, held, was, start, table, done, failed, m, parse, fetch, fault, id);
      var result := fetch(id);
      var counts := RunRequest(id, now, result, fault(id));
      ProgressSnoc(before, middle, held, was, start, table, done, failed, m, parse, fetch, fault, id, Rows(), counts);
      if counts.Some? {
        n := m.(succeeded := m.succeeded + 1, noData := m.noData + if result.value.noData then 1 else 0,
                counts := AddCounts(m.counts, counts.value));
        failedIds := failed;
      } else {
        n := m.(failed := m.failed + 1);
        failedIds := failed + [id];
      }
    }
  }

  // Known requests, none of them twice.
  ghost predicate AreDistinct(pending: seq<RequestId>, requests: map<RequestId, Status>) {
    (forall id :: id in pending ==> id in requests) && forall i, j :: 0 <= i < j < |pending| ==> pending[i] != pending[j]
  }

  lemma NextIsNew(pending: seq<RequestId>, requests: map<RequestId, Status>, i: nat)
    requires AreDistinct(pending, requests) && i < |pending|
    ensures pending[i] in requests && pending[i] !in pending[..i]
  {
  }

  // Where the loop stands after the requests in `done`.
  ghost predicate Progress(before: map<RequestId, Status>, after: map<RequestId, Status>, held: set<Ingest>, committed: set<Ingest>,
                           start: Tables, table: Tables, done: seq<RequestId>, failed: seq<RequestId>, m: IngestMetrics,
                           parse: string -> Option<seq<Row>>, fetch: RequestId -> Option<FetchResult>, fault: RequestId -> bool)
  {
    && Synced(before, after, held, committed, done, failed, parse, fetch, fault)
    && AreFigures(m, done, failed, parse, fetch, fault)
    && Grew(start, table, m.counts)
  }

  lemma NoProgress(requests: map<RequestId, Status>, held: set<Ingest>, table: Tables, m: IngestMetrics,
                   parse: string -> Option<seq<Row>>, fetch: RequestId -> Option<FetchResult>, fault: RequestId -> bool)
    requires m == IngestMetrics(0, 0, 0, Counts(0, 0, 0, 0))
    ensures Progress(requests, requests, held, held, table, table, [], [], m, parse, fetch, fault)
  {
    assert ResponsesOf(parse, [], fetch, fault) == {} && WithoutData(fetch, [], []) == {};
  }

  lemma WhatProgressSays(digest: RequestId -> string, before: map<RequestId, Status>, after: map<RequestId, Status>,
                         held: set<Ingest>, committed: set<Ingest>, start: Tables, table: Tables, ran: seq<RequestId>,
                         failed: seq<RequestId>, m: IngestMetrics, parse: string -> Option<seq<Row>>,
                         fetch: RequestId -> Option<FetchResult>, fault: RequestId -> bool, now: int, limit: Option<nat>)
    requires Progress(before, after, held, committed, start, table, ran, failed, m, parse, fetch, fault)
    requires IsPending(digest, ran, before, now, limit)
    ensures SuccessKept(before, after) && Swept(before, after, ran, failed)
    ensures forall id :: id in ran ==> (id in failed <==> !Goes(parse, id, fetch, fault))
    ensures committed == held + ResponsesOf(parse, ran, fetch, fault)
    ensures AreFigures(m, ran, failed, parse, fetch, fault) && Grew(start, table, m.counts)
  {
    SweptKeepsSuccess(digest, before, after, ran, failed, now, limit);
  }

  lemma Known(before: map<RequestId, Status>, after: map<RequestId, Status>, held: set<Ingest>, committed: set<Ingest>,
              start: Tables, table: Tables, done: seq<RequestId>, failed: seq<RequestId>, m: IngestMetrics,
              parse: string -> Option<seq<Row>>, fetch: RequestId -> Option<FetchResult>, fault: RequestId -> bool, id: RequestId)
    requires Progress(before, after, held, committed, start, table, done, failed, m, parse, fetch, fault) && id in before
    ensures id in after
  {
  }

  // One request more: it goes through with these counts, or fails.
  lemma ProgressSnoc(before: map<RequestId, Status>, after: map<RequestId, Status>, held: set<Ingest>, committed: set<Ingest>,
                     start: Tables, table: Tables, done: seq<RequestId>, failed: seq<RequestId>, m: IngestMetrics,
                     parse: string -> Option<seq<Row>>, fetch: RequestId -> Option<FetchResult>, fault: RequestId -> bool,
                     id: RequestId, grown: Tables, counts: Option<Counts>)
    requires Progress(before, after, held, committed, start, table, done, failed, m, parse, fetch, fault)
    requires id in before && id !in done && (counts.Some? <==> Goes(parse, id, fetch, fault))
    requires if counts.Some? then Grew(table, grown, counts.value) else grown == table
    requires counts.Some? ==> counts.value.rows == |RowsOf(parse, Ingested(id, fetch(id).value))|
    ensures if counts.Some?
            then Progress(before, after[id := Success], held, committed + {Ingested(id, fetch(id).value)}, start, grown, done + [id], failed,
                          m.(succeeded := m.succeeded + 1, noData := m.noData + if fetch(id).value.noData then 1 else 0,
                             counts := AddCounts(m.counts, counts.value)), parse, fetch, fault)
            else Progress(before, after[id := Failed], held, committed, start, grown, done + [id], failed + [id],
                          m.(failed := m.failed + 1), parse, fetch, fault)
  {
    assert id !in failed;
    SyncedSnoc(before, after, held, committed, done, failed, parse, fetch, fault, id);
    FiguresSnoc(m, done, failed, parse, fetch, fault, id);
    if counts.Some? {
      GrowthAdds(start, table, grown, m.counts, counts.value);
      SameFigures(AfterOne(m, parse, fetch, fault, id),
                  m.(succeeded := m.succeeded + 1, noData := m.noData + if fetch(id).value.noData then 1 else 0,
                     counts := AddCounts(m.counts, counts.value)), done + [id], failed, parse, fetch, fault);
    }
  }

  // What the figures of a sweep say: how many requests went through, how many of those without
  // data, how many failed, and how many lines there were.
  ghost predicate AreFigures(m: IngestMetrics, done: seq<RequestId>, failed: seq<RequestId>, parse: string -> Option<seq<Row>>,
                             fetch: RequestId -> Option<FetchResult>, fault: RequestId -> bool)
  {
    && m.failed == |failed| && m.succeeded == |done| - |failed|
    && m.noData == |WithoutData(fetch, done, failed)|
    && m.counts.rows == LinesOf(parse, done, fetch, fault)
  }

  // The figures after one more request, but for the growth of the tables.
  ghost function AfterOne(m: IngestMetrics, parse: string -> Option<seq<Row>>, fetch: RequestId -> Option<FetchResult>,
                          fault: RequestId -> bool, id: RequestId): IngestMetrics
  {
    if !Goes(parse, id, fetch, fault) then m.(failed := m.failed + 1)
    else
      m.(succeeded := m.succeeded + 1, noData := m.noData + if fetch(id).value.noData then 1 else 0,
         counts := m.counts.(rows := m.counts.rows + |RowsOf(parse, Ingested(id, fetch(id).value))|))
  }

  lemma SameFigures(m: IngestMetrics, n: IngestMetrics, done: seq<RequestId>, failed: seq<RequestId>,
                    parse: string -> Option<seq<Row>>, fetch: RequestId -> Option<FetchResult>, fault: RequestId -> bool)
    requires AreFigures(m, done, failed, parse, fetch, fault)
    requires n.succeeded == m.succeeded && n.failed == m.failed && n.noData == m.noData && n.counts.rows == m.counts.rows
    ensures AreFigures(n, done, failed, parse, fetch, fault)
  {
  }

  lemma FiguresSnoc(m: IngestMetrics, done: seq<RequestId>, failed: seq<RequestId>, parse: string -> Option<seq<Row>>,
                    fetch: RequestId -> Option<FetchResult>, fault: RequestId -> bool, id: RequestId)
    requires AreFigures(m, done, failed, parse, fetch, fault) && id !in done && id !in failed
    ensures AreFigures(AfterOne(m, parse, fetch, fault, id), done + [id],
                       if Goes(parse, id, fetch, fault) then failed else failed + [id], parse, fetch, fault)
  {
    WithoutDataSnoc(fetch, done, failed, id);
    LinesSnoc(parse, done, id, fetch, fault);
  }

  // The lines of the responses of all requests that went through.
  ghost function LinesOf(parse: string -> Option<seq<Row>>, done: seq<RequestId>, fetch: RequestId -> Option<FetchResult>,
                         fault: RequestId -> bool): nat
  {
    if done == [] then 0
    else
      var last := done[|done| - 1];
      LinesOf(parse, done[..|done| - 1], fetch, fault)
      + if Goes(parse, last, fetch, fault) && !fetch(last).value.noData then |parse(fetch(last).value.body).value| else 0
  }

  lemma {:induction false} LinesSnoc(parse: string -> Option<seq<Row>>, done: seq<RequestId>, id: RequestId, fetch: RequestId -> Option<FetchResult>,
                  fault: RequestId -> bool)
    ensures LinesOf(parse, done + [id], fetch, fault) == LinesOf(parse, done, fetch, fault)
      + if Goes(parse, id, fetch, fault) then |RowsOf(parse, Ingested(id, fetch(id).value))| else 0
  {
    assert (done + [id])[..|done|] == done;
  }

  // The requests that went through with an answer that says there is no data.
  ghost function WithoutData(fetch: RequestId -> Option<FetchResult>, done: seq<RequestId>, failed: seq<RequestId>): set<RequestId>
  {
    set id | id in done && id !in failed && fetch(id).Some? && fetch(id).value.noData
  }

  lemma WithoutDataSnoc(fetch: RequestId -> Option<FetchResult>, done: seq<RequestId>, failed: seq<RequestId>, id: RequestId)
    requires id !in done && id !in failed
    ensures |WithoutData(fetch, done + [id], failed + [id])| == |WithoutData(fetch, done, failed)|
    ensures |WithoutData(fetch, done + [id], failed)| ==
      |WithoutData(fetch, done, failed)| + if fetch(id).Some? && fetch(id).value.noData then 1 else 0
  {
    assert WithoutData(fetch, done + [id], failed + [id]) == WithoutData(fetch, done, failed);
    assert WithoutData(fetch, done + [id], failed) ==
      WithoutData(fetch, done, failed) + if fetch(id).Some? && fetch(id).value.noData then {id} else {};
  }

  // A request that is fetched, accepted and committed.
  ghost predicate Goes(parse: string -> Option<seq<Row>>, id: RequestId, fetch: RequestId -> Option<FetchResult>, fault: RequestId -> bool)
  {
    fetch(id).Some? && Accepts(parse, id, fetch(id).value) && !fault(id)
  }

  ghost function ResponsesOf(parse: string -> Option<seq<Row>>, ran: seq<RequestId>, fetch: RequestId -> Option<FetchResult>,
                       fault: RequestId -> bool): set<Ingest>
  {
    set id | id in ran && Goes(parse, id, fetch, fault) ::
      Ingest(SnapshotId(id, fetch(id).value.body), fetch(id).value.noData)
  }

  lemma ResponsesSnoc(parse: string -> Option<seq<Row>>, done: seq<RequestId>, id: RequestId,
                      fetch: RequestId -> Option<FetchResult>, fault: RequestId -> bool)
    ensures ResponsesOf(parse, done + [id], fetch, fault) == ResponsesOf(parse, done, fetch, fault)
      + if Goes(parse, id, fetch, fault) then {Ingested(id, fetch(id).value)} else {}
  {
    assert forall x :: x in done + [id] <==> x in done || x == id;
  }

  // What a sweep over the requests in `done` leaves.
  ghost predicate Synced(before: map<RequestId, Status>, after: map<RequestId, Status>, start: set<Ingest>, committed: set<Ingest>,
                         done: seq<RequestId>, failed: seq<RequestId>, parse: string -> Option<seq<Row>>,
                         fetch: RequestId -> Option<FetchResult>, fault: RequestId -> bool)
  {
    && Swept(before, after, done, failed)
    && (forall id :: id in done ==> (id in failed <==> !Goes(parse, id, fetch, fault)))
    && committed == start + ResponsesOf(parse, done, fetch, fault)
  }

  lemma SyncedSnoc(before: map<RequestId, Status>, after: map<RequestId, Status>, start: set<Ingest>, committed: set<Ingest>,
                   done: seq<RequestId>, failed: seq<RequestId>, parse: string -> Option<seq<Row>>,
                   fetch: RequestId -> Option<FetchResult>, fault: RequestId -> bool, id: RequestId)
    requires Synced(before, after, start, committed, done, failed, parse, fetch, fault) && id in before && id !in done
    ensures if Goes(parse, id, fetch, fault)
            then Synced(before, after[id := Success], start, committed + {Ingested(id, fetch(id).value)}, done + [id], failed,
                        parse, fetch, fault)
            else Synced(before, after[id := Failed], start, committed, done + [id], failed + [id], parse, fetch, fault)
  {
    var ok := Goes(parse, id, fetch, fault);
    SweptSnoc(before, after, done, failed, id, ok);
    ResponsesSnoc(parse, done, id, fetch, fault);
    forall x | x in done + [id]
      ensures x in (if ok then failed else failed + [id]) <==> !Goes(parse, x, fetch, fault)
    {
      assert x in done || x == id;
    }
  }

  // Statuses after the requests in `done` have run and those in `failed` have failed.
  ghost predicate Swept(before: map<RequestId, Status>, after: map<RequestId, Status>, done: seq<RequestId>, failed: seq<RequestId>)
  {
    && before.Keys == after.Keys
    && (forall id :: id in failed ==> id in done)
    && (forall id :: id in before && id !in done ==> after[id] == before[id])
    && (forall id :: id in done ==> id in after && after[id] == if id in failed then Failed else Success)
  }

  /** A success is never offered, so no sweep can take it back. */
  lemma SweptKeepsSuccess(digest: RequestId -> string, before: map<RequestId, Status>, after: map<RequestId, Status>,
                          ran: seq<RequestId>, failed: seq<RequestId>, now: int, limit: Option<nat>)
    requires IsPending(digest, ran, before, now, limit) && Swept(before, after, ran, failed)
    ensures SuccessKept(before, after)
  {
  }

  lemma SweptSnoc(before: map<RequestId, Status>, after: map<RequestId, Status>, done: seq<RequestId>, failed: seq<RequestId>,
                  id: RequestId, ok: bool)
    requires Swept(before, after, done, failed) && id in before && id !in done
    ensures if ok then Swept(before, after[id := Success], done + [id], failed)
            else Swept(before, after[id := Failed], done + [id], failed + [id])
  {
    assert id !in failed;
    assert forall x :: x in done + [id] <==> x in done || x == id;
    assert forall x :: x in failed + [id] <==> x in failed || x == id;
  }

  // A status other than success may replace any other.
  lemma StatusKeepsSound(t: Tables, parse: string -> Option<seq<Row>>, committed: set<Ingest>,
                         files: map<FileId, string>, requests: map<RequestId, Status>, id: RequestId, status: Status)
    requires Sound(t, parse, committed, files, requests) && status != Success
    ensures Sound(t, parse, committed, files, requests[id := status])
  {
  }

  // The offered requests, oldest first, cut at a limit.
  ghost predicate IsPending(digest: RequestId -> string, r: seq<RequestId>, requests: map<RequestId, Status>, now: int,
                            limit: Option<nat>)
  {
    && Distinct(r) && (forall i, j :: 0 <= i < j < |r| ==> ComesBefore(digest, r[i], r[j]))
    && (forall id :: id in r ==> id in requests && IsDue(requests[id], now))
    && (limit.Some? ==> |r| <= limit.value)
    && (forall id :: id in requests && IsDue(requests[id], now) && id !in r ==>
          limit.Some? && |r| == limit.value && forall k :: 0 <= k < |r| ==> ComesBefore(digest, r[k], id))
  }

  lemma TakeIsPending(digest: RequestId -> string, all: seq<RequestId>, n: nat, requests: map<RequestId, Status>, now: int)
    requires IsPending(digest, all, requests, now, None) && n <= |all|
    ensures IsPending(digest, all[..n], requests, now, Some(n))
  {
    var r := all[..n];
    assert forall k :: 0 <= k < n ==> all[k] == r[k] && all[k] in r;
    forall id | id in requests && IsDue(requests[id], now) && id !in r
      ensures forall k :: 0 <= k < |r| ==> ComesBefore(digest, r[k], id)
    {
      assert id in all;
      var j :| 0 <= j < |all| && all[j] == id;
    }
  }

  function OfferedIn(requests: map<RequestId, Status>, now: int): set<RequestId>
  {
    set id | id in requests && Offered(requests[id], now)
  }

  // A pending list is the front of the sorted listing of everything offered.
  lemma PendingIsFront(digest: RequestId -> string, r: seq<RequestId>, requests: map<RequestId, Status>, now: int,
                       limit: Option<nat>) returns (rest: seq<RequestId>)
    requires IsPending(digest, r, requests, now, limit)
    ensures IsListing(r + rest, OfferedIn(requests, now)) && SortedBy(r + rest, Earlier(digest))
    ensures rest != [] ==> limit == Some(|r|)
  {
    var members := OfferedIn(requests, now) - (set id | id in r);
    var listing := ListingOf(members);
    SortedListing(digest, listing, members);
    rest := SortBy(listing, Earlier(digest));
    assert forall x :: x in r + rest <==> x in r || x in rest;
    forall i, j | 0 <= i < j < |r + rest|
      ensures (r + rest)[i] != (r + rest)[j] && Earlier(digest)((r + rest)[i], (r + rest)[j])
    {
      EarlierIs(digest, (r + rest)[i], (r + rest)[j]);
      if i < |r| <= j {
        assert rest[j - |r|] in members && r[i] in r;
      }
    }
    if rest != [] {
      assert rest[0] in members;
    }
  }

  /** The pending list is determined: requests of one window and reach are told apart by
      their digests. */
  lemma PendingIsUnique(digest: RequestId -> string, a: seq<RequestId>, b: seq<RequestId>, requests: map<RequestId, Status>,
                        now: int, limit: Option<nat>)
    requires Injective(digest)
    requires IsPending(digest, a, requests, now, limit) && IsPending(digest, b, requests, now, limit)
    ensures a == b
  {
    var ra := PendingIsFront(digest, a, requests, now, limit);
    var rb := PendingIsFront(digest, b, requests, now, limit);
    EarlierAntisymmetric(digest);
    ListingsArePermutations(a + ra, b + rb, OfferedIn(requests, now));
    MultisetLength(a + ra, b + rb);
    SortedListsAgree(a + ra, b + rb, Earlier(digest));
    assert a == (a + ra)[..|a|] && b == (b + rb)[..|b|];
  }

  lemma {:induction false} SortedListing(digest: RequestId -> string, s: seq<RequestId>, members: set<RequestId>)
    requires IsListing(s, members)
    ensures IsListing(SortBy(s, Earlier(digest)), members) && SortedBy(SortBy(s, Earlier(digest)), Earlier(digest))
  {
    var r := SortBy(s, Earlier(digest));
    EarlierPreorder(digest);
    SortSorts(s, Earlier(digest));
    DistinctMultiset(s);
    CountsMakeDistinct(r);
    forall x ensures x in r <==> x in members {
      assert x in r <==> x in multiset(r);
      assert x in s <==> x in multiset(s);
    }
  }

  lemma LinkGrows(links: set<(RevisionId, SnapshotId)>, link: (RevisionId, SnapshotId))
    ensures |links + {link}| == |links| + if link in links then 0 else 1
  {
    if link in links {
      assert links + {link} == links;
    }
  }
}
