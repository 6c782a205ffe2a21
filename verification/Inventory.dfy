/** The reproduction inventory that readiness.py publishes and preflight.py consumes. */
module Inventory {
  import opened Prelude

  // A URL as urlsplit reads it; `signed` and `credentials` flag what must not be persisted.
  datatype Url = Url(scheme: string, netloc: string, rest: string, fragment: string, credentials: bool, signed: bool)

  // A timestamp field: unreadable, without a zone, or an instant.
  datatype Stamp = Malformed | Naive | At(micros: int)

  datatype Evidence = Evidence(url: Url, retrievedAt: Stamp, sha: string)

  datatype Outcome = Resolved | OperatorInputRequired | TransientError | DefinitivelyUnavailable | NotRequired

  datatype Exactness = Exact | ProviderReprocessed | MethodEquivalent | Unavailable

  datatype Object = Object(
    id: string, url: Url, providerId: string, revision: string, size: Option<int>, upper: Option<int>,
    checksumAlgorithm: string, checksum: string, sourceRevision: string, sourceTime: Stamp)

  // One inventory source; None stands for a value outside the enumeration.
  datatype Source = Source(
    id: string, outcome: Option<Outcome>, exactness: Option<Exactness>, evidence: seq<Evidence>,
    objects: seq<Object>, gaugePriors: bool)

  datatype Contract = Contract(
    id: string, url: Url, required: bool, exactness: Exactness, fallbacks: set<Exactness>,
    checksumAlgorithm: string, checksum: string, cutoff: Option<Stamp>)

  const MAX_BIGINT: int := 9_223_372_036_854_775_807

  // An absolute web address.
  ghost predicate IsWebAddress(u: Url)
  {
    u.netloc != "" && (u.scheme == "http" || u.scheme == "https")
  }

  predicate IsHttp(u: Url)
    ensures IsHttp(u) <==> IsWebAddress(u)
  {
    u.scheme in ["http", "https"] && u.netloc != ""
  }

  predicate IsBlank(u: Url)
    ensures IsBlank(u) ==> !IsWebAddress(u)
    ensures IsBlank(u) <==> forall part :: part in {u.scheme, u.netloc, u.rest, u.fragment} ==> |part| == 0
  {
    u.scheme == "" && u.netloc == "" && u.rest == "" && u.fragment == ""
  }

  // Sixty-four lower-case hexadecimal digits.
  ghost predicate IsHexDigest(s: string)
  {
    |s| == 64 && forall i :: 0 <= i < |s| ==> '0' <= s[i] <= '9' || 'a' <= s[i] <= 'f'
  }

  lemma DigestIsHex(s: string)
    ensures IsDigest(s) <==> IsHexDigest(s)
  {
    var hex := "0123456789abcdef";
    forall c: char ensures c in hex <==> '0' <= c <= '9' || 'a' <= c <= 'f' {
      HexDigits(c);
    }
    assert forall i :: 0 <= i < |s| ==> s[i] in s;
  }

  lemma HexDigits(c: char)
    ensures c in "0123456789abcdef" <==> '0' <= c <= '9' || 'a' <= c <= 'f'
  {
    var hex := "0123456789abcdef";
    assert hex[0] == '0' && hex[1] == '1' && hex[2] == '2' && hex[3] == '3' && hex[4] == '4' && hex[5] == '5';
    assert hex[6] == '6' && hex[7] == '7' && hex[8] == '8' && hex[9] == '9' && hex[10] == 'a' && hex[11] == 'b';
    assert hex[12] == 'c' && hex[13] == 'd' && hex[14] == 'e' && hex[15] == 'f';
  }

  predicate IsDigest(s: string)
  {
    |s| == 64 && forall c | c in s :: c in "0123456789abcdef"
  }

  predicate FitsBigint(v: Option<int>)
  {
    v.Some? ==> 0 <= v.value <= MAX_BIGINT
  }

  // Each figure given is a non-negative 64-bit number, and the bound is no less than the size.
  ghost predicate AreSizes(size: Option<int>, upper: Option<int>)
  {
    && (size.Some? ==> 0 <= size.value < 0x8000_0000_0000_0000)
    && (upper.Some? ==> 0 <= upper.value < 0x8000_0000_0000_0000)
    && (size.Some? && upper.Some? ==> size.value <= upper.value)
  }

  predicate SizesFit(size: Option<int>, upper: Option<int>)
    ensures SizesFit(size, upper) <==> AreSizes(size, upper)
  {
    FitsBigint(size) && FitsBigint(upper) && (size.Some? && upper.Some? ==> size.value <= upper.value)
  }

  // ---------- Profiles ----------

  function ContractIds(contracts: seq<Contract>): (r: seq<string>)
    ensures |r| == |contracts| && forall i :: 0 <= i < |r| ==> r[i] == contracts[i].id
  {
    seq(|contracts|, i requires 0 <= i < |contracts| => contracts[i].id)
  }

  // What loading a profile guarantees about its source contracts.
  ghost predicate ProfileLoads(contracts: seq<Contract>)
  {
    && Distinct(ContractIds(contracts))
    && forall c :: c in contracts ==>
         c.id != "" && !IsBlank(c.url) && c.exactness != Unavailable && c.fallbacks <= {ProviderReprocessed, MethodEquivalent}
  }

  function SourceIds(sources: seq<Source>): (r: seq<string>)
    ensures |r| == |sources| && forall i :: 0 <= i < |r| ==> r[i] == sources[i].id
  {
    seq(|sources|, i requires 0 <= i < |sources| => sources[i].id)
  }

  function ObjectIds(objects: seq<Object>): (r: seq<string>)
    ensures |r| == |objects| && forall i :: 0 <= i < |r| ==> r[i] == objects[i].id
  {
    seq(|objects|, i requires 0 <= i < |objects| => objects[i].id)
  }

  function Find(sources: seq<Source>, id: string): (r: Option<Source>)
    ensures r.Some? ==> r.value in sources && r.value.id == id
    ensures r.None? <==> id !in SourceIds(sources)
  {
    if sources == [] then None
    else
      var front, last := sources[..|sources| - 1], sources[|sources| - 1];
      assert SourceIds(sources) == SourceIds(front) + [last.id];
      if last.id == id then Some(last) else Find(front, id)
  }

  function FindContract(contracts: seq<Contract>, id: string): (r: Option<Contract>)
    ensures r.Some? ==> r.value in contracts && r.value.id == id
    ensures r.None? <==> id !in ContractIds(contracts)
  {
    if contracts == [] then None
    else
      var front, last := contracts[..|contracts| - 1], contracts[|contracts| - 1];
      assert ContractIds(contracts) == ContractIds(front) + [last.id];
      if last.id == id then Some(last) else FindContract(front, id)
  }

  // ---------- Byte accounting ----------

  datatype Tally = Tally(count: int, total: int, planned: int, unknown: int, unbounded: int)

  const ZERO := Tally(0, 0, 0, 0, 0)

  function Add(a: Tally, b: Tally): Tally
  {
    Tally(a.count + b.count, a.total + b.total, a.planned + b.planned, a.unknown + b.unknown, a.unbounded + b.unbounded)
  }

  function One(o: Object): Tally
  {
    if o.size.Some? then Tally(1, o.size.value, o.size.value, 0, 0)
    else if o.upper.Some? then Tally(1, 0, o.upper.value, 1, 0)
    else Tally(1, 0, 0, 1, 1)
  }

  function TallyOf(objects: seq<Object>): Tally
  {
    if objects == [] then ZERO else Add(TallyOf(objects[..|objects| - 1]), One(objects[|objects| - 1]))
  }

  function AllObjects(sources: seq<Source>): seq<Object>
  {
    if sources == [] then [] else AllObjects(sources[..|sources| - 1]) + sources[|sources| - 1].objects
  }

  lemma {:induction false} TallyJoin(a: seq<Object>, b: seq<Object>)
    ensures TallyOf(a + b) == Add(TallyOf(a), TallyOf(b))
  {
    if b == [] {
      assert a + b == a;
    } else {
      assert (a + b)[..|a + b| - 1] == a + b[..|b| - 1];
      TallyJoin(a, b[..|b| - 1]);
    }
  }

  lemma {:induction false} TallyPermutation(a: seq<Object>, b: seq<Object>)
    requires multiset(a) == multiset(b)
    ensures TallyOf(a) == TallyOf(b)
    decreases |a|
  {
    if a == [] {
      OnlyEmptyIsEmpty(a, b);
    } else {
      var front, rest := SplitAtHead(a, b);
      TallyPermutation(a[1..], front + rest);
      TallyHead(a);
      TallyAround(front, a[0], rest);
    }
  }

  // Where the head of one arrangement sits in another.
  lemma SplitAtHead(a: seq<Object>, b: seq<Object>) returns (front: seq<Object>, rest: seq<Object>)
    requires a != [] && multiset(a) == multiset(b)
    ensures b == front + ([a[0]] + rest)
    ensures multiset(a[1..]) == multiset(front + rest)
  {
    var i := RemoveHead(a, b);
    front, rest := b[..i], b[i + 1..];
  }

  lemma {:induction false} TallyAround(front: seq<Object>, o: Object, rest: seq<Object>)
    ensures TallyOf(front + ([o] + rest)) == Add(One(o), TallyOf(front + rest))
  {
    TallyJoin(front, [o] + rest);
    TallyJoin([o], rest);
    TallySingle(o);
    TallyJoin(front, rest);
    AddCommutes(One(o), TallyOf(front), TallyOf(rest));
  }

  lemma {:induction false} TallyHead(a: seq<Object>)
    requires a != []
    ensures TallyOf(a) == Add(One(a[0]), TallyOf(a[1..]))
  {
    TallyJoin([a[0]], a[1..]);
    assert a == [a[0]] + a[1..];
    TallySingle(a[0]);
  }

  lemma TallySingle(o: Object)
    ensures TallyOf([o]) == One(o)
  {
    assert [o][..0] == [];
    AddZero(One(o));
  }

  lemma AddZero(t: Tally)
    ensures Add(ZERO, t) == t
  {
  }

  lemma {:induction false} TallyCounts(objects: seq<Object>)
    requires forall o :: o in objects ==> SizesFit(o.size, o.upper)
    ensures var t := TallyOf(objects);
      && t.count == |objects| && 0 <= t.total <= t.planned
      && (t.unbounded == 0 <==> forall o :: o in objects ==> o.size.Some? || o.upper.Some?)
      && 0 <= t.unbounded <= t.unknown <= t.count
  {
    if objects != [] {
      var front, last := objects[..|objects| - 1], objects[|objects| - 1];
      assert forall o :: o in objects <==> o in front || o == last;
      TallyCounts(front);
    }
  }

  // What one contract's completeness row adds up to.
  function RowTally(c: Contract, sources: seq<Source>): Tally
  {
    TallyFound(Find(sources, c.id))
  }

  function TallyFound(found: Option<Source>): Tally
  {
    if found.Some? then TallyOf(found.value.objects) else ZERO
  }

  function RowsTally(contracts: seq<Contract>, sources: seq<Source>): Tally
  {
    if contracts == [] then ZERO
    else Add(RowsTally(contracts[..|contracts| - 1], sources), RowTally(contracts[|contracts| - 1], sources))
  }

  lemma {:induction false} FindSnoc(sources: seq<Source>, s: Source, id: string)
    ensures Find(sources + [s], id) == if s.id == id then Some(s) else Find(sources, id)
  {
    assert (sources + [s])[..|sources|] == sources;
  }

  lemma ContractSnoc(contracts: seq<Contract>)
    requires contracts != [] && Distinct(ContractIds(contracts))
    ensures var front, last := contracts[..|contracts| - 1], contracts[|contracts| - 1];
      && Distinct(ContractIds(front)) && last.id !in ContractIds(front)
      && forall id :: id in ContractIds(contracts) <==> id in ContractIds(front) || id == last.id
  {
    var front, last := contracts[..|contracts| - 1], contracts[|contracts| - 1];
    assert ContractIds(contracts) == ContractIds(front) + [last.id];
    assert forall i :: 0 <= i < |front| ==> ContractIds(contracts)[i] == ContractIds(front)[i];
  }

  lemma RowGainsSource(c: Contract, sources: seq<Source>, s: Source)
    requires s.id !in SourceIds(sources)
    ensures RowTally(c, sources + [s]) == if s.id == c.id then Add(RowTally(c, sources), TallyOf(s.objects)) else RowTally(c, sources)
  {
    FindSnoc(sources, s, c.id);
    FoundGains(Find(sources, c.id), s, TallyOf(s.objects));
  }

  lemma FoundGains(found: Option<Source>, s: Source, t: Tally)
    requires t == TallyOf(s.objects)
    ensures found.None? ==> TallyFound(Some(s)) == Add(TallyFound(found), t)
  {
  }

  lemma AddCommutes(a: Tally, b: Tally, c: Tally)
    ensures Add(Add(a, b), c) == Add(Add(a, c), b) == Add(a, Add(b, c)) == Add(b, Add(a, c))
  {
  }

  lemma {:induction false} RowsGainSource(contracts: seq<Contract>, sources: seq<Source>, s: Source)
    requires Distinct(ContractIds(contracts)) && s.id !in SourceIds(sources)
    ensures RowsTally(contracts, sources + [s])
         == if s.id in ContractIds(contracts) then Add(RowsTally(contracts, sources), TallyOf(s.objects))
            else RowsTally(contracts, sources)
  {
    if contracts != [] {
      var front, last := contracts[..|contracts| - 1], contracts[|contracts| - 1];
      ContractSnoc(contracts);
      RowsGainSource(front, sources, s);
      RowGainsSource(last, sources, s);
      AddCommutes(RowsTally(front, sources), RowTally(last, sources), TallyOf(s.objects));
    }
  }

  lemma {:induction false} NoSourcesNoBytes(contracts: seq<Contract>)
    ensures RowsTally(contracts, []) == ZERO
  {
    if contracts != [] {
      NoSourcesNoBytes(contracts[..|contracts| - 1]);
    }
  }

  /** Bytes are conserved: summed object by object or row by row, in whatever order the
      inventory and the profile list their sources, the tallies agree. */
  lemma {:induction false} BytesAreConserved(contracts: seq<Contract>, sources: seq<Source>)
    requires Distinct(ContractIds(contracts)) && Distinct(SourceIds(sources))
    requires forall s :: s in sources ==> s.id in ContractIds(contracts)
    ensures RowsTally(contracts, sources) == TallyOf(AllObjects(sources))
  {
    if sources == [] {
      NoSourcesNoBytes(contracts);
    } else {
      var front, last := sources[..|sources| - 1], sources[|sources| - 1];
      assert sources == front + [last];
      assert forall i :: 0 <= i < |front| ==> SourceIds(sources)[i] == SourceIds(front)[i];
      assert SourceIds(sources)[|front|] == last.id;
      BytesAreConserved(contracts, front);
      RowsGainSource(contracts, front, last);
      TallyJoin(AllObjects(front), last.objects);
    }
  }
}
