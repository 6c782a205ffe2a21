/** The preflight gate (reproductions/preflight.py): structural checks that raise, byte
    accounting, and the blockers that decide whether a reproduction is ready. */
module Preflight {
  import opened Prelude
  import opened Inventory

  datatype Mode = Production | Synthetic

  datatype PreflightError =
    | UnknownSource | DuplicateSource | BadExactness | BadOutcome | NoEvidence | BadEvidence | StrayObjects
    | BadObject | RelativeUrl | NoProviderIdentity | RepeatedObject | BadSize | ChecksumMismatch | TooManyBytes

  datatype Reason = Unresolved | MisclassifiedAsNotRequired | OutcomeIs(outcome: Outcome) | NoProviderObjects
                  | NoObjects | ExactnessNotAllowed

  datatype Blocker = SourceBlocked(id: string, reason: Reason) | GaugeEvidenceMissing | ObjectBudget | StorageBudget
                   | StorageUnbounded | StorageUnverified

  datatype Row = Row(id: string, exactness: Exactness, outcome: Option<Outcome>, tally: Tally, reason: Option<Reason>)

  datatype Options = Options(exactMode: bool, maxObjects: Option<int>, maxBytes: Option<int>)

  datatype Assessment = Assessment(rows: seq<Row>, objects: seq<Object>, blockers: seq<Blocker>)

  // ---------- What raises ----------

  // A record that names where and when it was retrieved, and the digest of what was.
  ghost predicate IsRecord(e: Evidence)
  {
    IsWebAddress(e.url) && IsHexDigest(e.sha) && e.retrievedAt.At?
  }

  predicate EvidenceOk(e: Evidence)
    ensures EvidenceOk(e) <==> IsRecord(e)
  {
    DigestIsHex(e.sha);
    IsHttp(e.url) && IsDigest(e.sha) && e.retrievedAt.At?
  }

  ghost predicate ObjectOk(mode: Mode, o: Object)
  {
    && o.id != "" && (o.url.scheme != "" || o.url.netloc != "" || o.url.rest != "" || o.url.fragment != "")
    && (mode == Production ==> IsWebAddress(o.url) && o.providerId != "" && o.revision != "")
    && AreSizes(o.size, o.upper)
  }

  predicate MatchesPin(c: Contract, o: Object)
  {
    c.checksum == "" || (o.checksumAlgorithm == c.checksumAlgorithm && o.checksum == c.checksum)
  }

  ghost predicate HeaderOk(mode: Mode, s: Source)
  {
    && s.exactness.Some?
    && (mode == Production ==>
          && s.outcome.Some? && s.evidence != []
          && (forall e :: e in s.evidence ==> IsRecord(e))
          && (s.outcome != Some(Resolved) ==> s.objects == []))
  }

  ghost predicate ObjectsOk(mode: Mode, objects: seq<Object>)
  {
    Distinct(ObjectIds(objects)) && forall o :: o in objects ==> ObjectOk(mode, o)
  }

  ghost predicate SourceOk(mode: Mode, contracts: seq<Contract>, s: Source)
  {
    var c := FindContract(contracts, s.id);
    && c.Some? && HeaderOk(mode, s) && ObjectsOk(mode, s.objects)
    && forall o :: o in s.objects ==> CarriesPin(c.value, o)
  }

  // A pinned checksum is stated as pinned.
  ghost predicate CarriesPin(c: Contract, o: Object)
  {
    c.checksum != "" ==> o.checksumAlgorithm == c.checksumAlgorithm && o.checksum == c.checksum
  }

  // Everything the walk over the inventory's sources checks.
  ghost predicate SourcesOk(mode: Mode, contracts: seq<Contract>, sources: seq<Source>)
  {
    Distinct(SourceIds(sources)) && forall s :: s in sources ==> SourceOk(mode, contracts, s)
  }

  // ---------- What blocks ----------

  function Allowed(c: Contract, exactMode: bool): set<Exactness>
  {
    if exactMode then {c.exactness} else {c.exactness} + c.fallbacks
  }

  function ProductionReason(c: Contract, outcome: Option<Outcome>, count: int): Option<Reason>
  {
    if outcome.None? then Some(Unresolved)
    else if outcome.value == NotRequired && c.required then Some(MisclassifiedAsNotRequired)
    else if outcome.value != Resolved && c.required then Some(OutcomeIs(outcome.value))
    else if outcome.value == Resolved && count == 0 then Some(NoProviderObjects)
    else None
  }

  /** Why a contract blocks: in production an unresolved source, a required one that is not
      resolved, or a resolved one without objects; otherwise a required one without objects;
      and after all that a required one of an exactness that is not asked for. */
  ghost predicate IsReason(mode: Mode, exactMode: bool, c: Contract, found: Option<Source>, reason: Option<Reason>)
  {
    var outcome := if found.Some? then found.value.outcome else None;
    var empty := found.None? || found.value.objects == [];
    var exactness := if found.Some? && found.value.exactness.Some? then found.value.exactness.value else Unavailable;
    var asked := exactness == c.exactness || (!exactMode && exactness in c.fallbacks);
    match reason
    case Some(Unresolved) => mode == Production && outcome.None?
    case Some(MisclassifiedAsNotRequired) => mode == Production && c.required && outcome == Some(NotRequired)
    case Some(OutcomeIs(o)) => mode == Production && c.required && outcome == Some(o) && o != NotRequired && o != Resolved
    case Some(NoProviderObjects) => mode == Production && outcome == Some(Resolved) && empty
    case Some(NoObjects) => mode == Synthetic && c.required && empty
    case Some(ExactnessNotAllowed) =>
      c.required && !empty && !asked && (mode == Production ==> outcome == Some(Resolved))
    case None =>
      && (c.required ==> !empty && asked && (mode == Production ==> outcome == Some(Resolved)))
      && (mode == Production ==> outcome.Some? && (outcome == Some(Resolved) ==> !empty))
  }

  function ReasonFor(mode: Mode, exactMode: bool, c: Contract, found: Option<Source>): (reason: Option<Reason>)
    ensures IsReason(mode, exactMode, c, found, reason)
  {
    var exactness := if found.Some? && found.value.exactness.Some? then found.value.exactness.value else Unavailable;
    var outcome := if found.Some? then found.value.outcome else None;
    var count := if found.Some? then |found.value.objects| else 0;
    var reason := if mode == Production then ProductionReason(c, outcome, count) else None;
    if reason.None? && c.required && count == 0 then Some(NoObjects)
    else if reason.None? && c.required && exactness !in Allowed(c, exactMode) then Some(ExactnessNotAllowed)
    else reason
  }

  function RowFor(mode: Mode, exactMode: bool, c: Contract, sources: seq<Source>): Row
  {
    var found := Find(sources, c.id);
    Row(c.id,
        if found.Some? && found.value.exactness.Some? then found.value.exactness.value else Unavailable,
        if found.Some? then found.value.outcome else None,
        RowTally(c, sources),
        ReasonFor(mode, exactMode, c, found))
  }

  function RowsFor(mode: Mode, exactMode: bool, contracts: seq<Contract>, sources: seq<Source>): (r: seq<Row>)
    ensures |r| == |contracts|
  {
    seq(|contracts|, i requires 0 <= i < |contracts| => RowFor(mode, exactMode, contracts[i], sources))
  }

  function RowBlockers(rows: seq<Row>): seq<Blocker>
  {
    if rows == [] then []
    else
      var last := rows[|rows| - 1];
      RowBlockers(rows[..|rows| - 1]) + if last.reason.Some? then [SourceBlocked(last.id, last.reason.value)] else []
  }

  const L4 := "swot_l4_sos_paper_snapshot"
  const GRDC := "grdc_gauge_fallback"

  // In production the L4 snapshot has no place, embeds gauge priors, or comes with gauges.
  ghost predicate IsGaugeRuleMet(mode: Mode, sources: seq<Source>)
  {
    var snapshot, gauges := Find(sources, "swot_l4_sos_paper_snapshot"), Find(sources, "grdc_gauge_fallback");
    || mode == Synthetic || snapshot.None? || snapshot.value.gaugePriors
    || (gauges.Some? && gauges.value.outcome == Some(Resolved) && |gauges.value.objects| > 0)
  }

  // The pinned L4 objects either embed gauge priors or need the gauge source resolved.
  predicate GaugeRuleHolds(mode: Mode, sources: seq<Source>)
    ensures GaugeRuleHolds(mode, sources) <==> IsGaugeRuleMet(mode, sources)
  {
    var l4, grdc := Find(sources, L4), Find(sources, GRDC);
    mode == Production && l4.Some? && !l4.value.gaugePriors ==>
      grdc.Some? && grdc.value.outcome == Some(Resolved) && grdc.value.objects != []
  }

  predicate Within(value: int, limit: Option<int>)
  {
    limit.Some? ==> value <= limit.value
  }

  function BudgetBlockers(mode: Mode, options: Options, tally: Tally): seq<Blocker>
  {
    (if Within(tally.count, options.maxObjects) then [] else [ObjectBudget])
    + (if Within(tally.planned, options.maxBytes) then [] else [StorageBudget])
    + (if mode == Production && tally.unbounded != 0 then [StorageUnbounded]
       else if options.maxBytes.Some? && tally.unbounded != 0 then [StorageUnverified]
       else [])
  }

  function Blockers(mode: Mode, options: Options, contracts: seq<Contract>, sources: seq<Source>): seq<Blocker>
  {
    RowBlockers(RowsFor(mode, options.exactMode, contracts, sources))
    + (if GaugeRuleHolds(mode, sources) then [] else [GaugeEvidenceMissing])
    + BudgetBlockers(mode, options, TallyOf(AllObjects(sources)))
  }

  // ---------- The gate ----------

  method CheckObjects(mode: Mode, objects: seq<Object>) returns (r: Result<Tally, PreflightError>)
    ensures r.Ok? <==> ObjectsOk(mode, objects)
    ensures r.Ok? ==> r.value == TallyOf(objects)
    ensures r.Err? ==> r.error != TooManyBytes
  {
    var seen: set<string>, tally := {}, ZERO;
    for i := 0 to |objects|
      invariant ObjectsOk(mode, objects[..i])
      invariant forall id :: id in seen <==> id in ObjectIds(objects[..i])
      invariant tally == TallyOf(objects[..i])
    {
      var o := objects[i];
      ObjectsSnoc(mode, objects, i);
      if o.id == "" || IsBlank(o.url) {
        return Err(BadObject);
      }
      if mode == Production && !IsHttp(o.url) {
        return Err(RelativeUrl);
      }
      if mode == Production && (o.providerId == "" || o.revision == "") {
        return Err(NoProviderIdentity);
      }
      if o.id in seen {
        return Err(RepeatedObject);
      }
      seen := seen + {o.id};
      if !SizesFit(o.size, o.upper) {
        return Err(BadSize);
      }
      tally := Account(tally, o);
    }
    assert objects[..|objects|] == objects;
    r := Ok(tally);
  }

  // The byte counters after one more object.
  method Account(t: Tally, o: Object) returns (u: Tally)
    ensures u == Add(t, One(o))
  {
    u := t.(count := t.count + 1);
    if o.size.None? {
      u := u.(unknown := u.unknown + 1);
      if o.upper.None? {
        u := u.(unbounded := u.unbounded + 1);
      } else {
        u := u.(planned := u.planned + o.upper.value);
      }
    } else {
      u := u.(total := u.total + o.size.value, planned := u.planned + o.size.value);
    }
  }

  lemma ObjectsSnoc(mode: Mode, objects: seq<Object>, i: nat)
    requires i < |objects|
    ensures ObjectIds(objects[..i + 1]) == ObjectIds(objects[..i]) + [objects[i].id]
    ensures ObjectsOk(mode, objects[..i + 1])
       <==> ObjectsOk(mode, objects[..i]) && ObjectOk(mode, objects[i]) && objects[i].id !in ObjectIds(objects[..i])
    ensures TallyOf(objects[..i + 1]) == Add(TallyOf(objects[..i]), One(objects[i]))
    ensures ObjectsOk(mode, objects) ==> ObjectsOk(mode, objects[..i + 1])
  {
    var front, all := objects[..i], objects[..i + 1];
    TakeSnoc(objects, i);
    assert all[..i] == front;
    DistinctSnoc(ObjectIds(front), objects[i].id);
    assert ObjectIds(all) == ObjectIds(front) + [objects[i].id];
    if ObjectsOk(mode, objects) {
      assert forall k :: 0 <= k <= i ==> ObjectIds(objects)[k] == ObjectIds(all)[k];
    }
  }

  method CheckSource(mode: Mode, c: Contract, s: Source) returns (r: Result<Tally, PreflightError>)
    ensures r.Ok? <==> HeaderOk(mode, s) && ObjectsOk(mode, s.objects) && forall o :: o in s.objects ==> CarriesPin(c, o)
    ensures r.Ok? ==> r.value == TallyOf(s.objects)
    ensures r.Err? ==> r.error != TooManyBytes
  {
    if s.exactness.None? {
      return Err(BadExactness);
    }
    if mode == Production {
      if s.outcome.None? {
        return Err(BadOutcome);
      }
      if s.evidence == [] {
        return Err(NoEvidence);
      }
      if exists e | e in s.evidence :: !EvidenceOk(e) {
        return Err(BadEvidence);
      }
      if s.outcome != Some(Resolved) && s.objects != [] {
        return Err(StrayObjects);
      }
    }
    r := CheckObjects(mode, s.objects);
    if r.Ok? && c.checksum != "" && exists o | o in s.objects :: !MatchesPin(c, o) {
      return Err(ChecksumMismatch);
    }
  }

  // The walk over the sources: every check, every object, and a tally per source.
  method ReadSources(mode: Mode, contracts: seq<Contract>, sources: seq<Source>)
    returns (r: Result<seq<Object>, PreflightError>, tallies: map<string, Tally>)
    ensures r.Ok? <==> SourcesOk(mode, contracts, sources)
    ensures r.Ok? ==> r.value == AllObjects(sources)
    ensures r.Err? ==> r.error != TooManyBytes
    ensures r.Ok? ==> forall id :: (if id in tallies then tallies[id] else ZERO) == TallyFound(Find(sources, id))
  {
    tallies := map[];
    var objects: seq<Object> := [];
    for i := 0 to |sources|
      invariant SourcesOk(mode, contracts, sources[..i])
      invariant objects == AllObjects(sources[..i])
      invariant forall id :: id in tallies <==> id in SourceIds(sources[..i])
      invariant forall id :: (if id in tallies then tallies[id] else ZERO) == TallyFound(Find(sources[..i], id))
    {
      var s := sources[i];
      SourcesSnoc(mode, contracts, sources, i);
      var c := FindContract(contracts, s.id);
      if c.None? {
        return Err(UnknownSource), tallies;
      }
      if s.id in tallies {
        return Err(DuplicateSource), tallies;
      }
      var checked := CheckSource(mode, c.value, s);
      if checked.Err? {
        return Err(checked.error), tallies;
      }
      objects := objects + s.objects;
      tallies := tallies[s.id := checked.value];
    }
    assert sources[..|sources|] == sources;
    r := Ok(objects);
  }

  lemma SourcesSnoc(mode: Mode, contracts: seq<Contract>, sources: seq<Source>, i: nat)
    requires i < |sources|
    ensures SourceIds(sources[..i + 1]) == SourceIds(sources[..i]) + [sources[i].id]
    ensures SourcesOk(mode, contracts, sources[..i + 1])
       <==> (SourcesOk(mode, contracts, sources[..i]) && SourceOk(mode, contracts, sources[i])
             && sources[i].id !in SourceIds(sources[..i]))
    ensures SourcesOk(mode, contracts, sources) ==> SourcesOk(mode, contracts, sources[..i + 1])
    ensures AllObjects(sources[..i + 1]) == AllObjects(sources[..i]) + sources[i].objects
    ensures forall id :: Find(sources[..i + 1], id) == if sources[i].id == id then Some(sources[i]) else Find(sources[..i], id)
  {
    var front, all := sources[..i], sources[..i + 1];
    TakeSnoc(sources, i);
    assert all[..i] == front;
    assert SourceIds(all) == SourceIds(front) + [sources[i].id];
    forall id ensures Find(all, id) == if sources[i].id == id then Some(sources[i]) else Find(front, id) {
      FindSnoc(front, sources[i], id);
    }
    DistinctSnoc(SourceIds(front), sources[i].id);
    if SourcesOk(mode, contracts, sources) {
      assert forall k :: 0 <= k <= i ==> SourceIds(sources)[k] == SourceIds(all)[k];
    }
  }

  // Completeness rows with their blockers, and the planned bytes they add up to.
  method Complete(mode: Mode, exactMode: bool, contracts: seq<Contract>, sources: seq<Source>, tallies: map<string, Tally>)
    returns (rows: seq<Row>, blockers: seq<Blocker>, sums: Tally)
    requires forall id :: (if id in tallies then tallies[id] else ZERO) == TallyFound(Find(sources, id))
    ensures rows == RowsFor(mode, exactMode, contracts, sources)
    ensures blockers == RowBlockers(rows)
    ensures sums == RowsTally(contracts, sources)
  {
    rows, blockers, sums := [], [], ZERO;
    for i := 0 to |contracts|
      invariant rows == RowsFor(mode, exactMode, contracts[..i], sources)
      invariant blockers == RowBlockers(rows)
      invariant sums == RowsTally(contracts[..i], sources)
    {
      var c := contracts[i];
      var found := Find(sources, c.id);
      var tally := if c.id in tallies then tallies[c.id] else ZERO;
      var exactness := if found.Some? && found.value.exactness.Some? then found.value.exactness.value else Unavailable;
      var reason := ReasonFor(mode, exactMode, c, found);
      var row := Row(c.id, exactness, if found.Some? then found.value.outcome else None, tally, reason);
      CompleteSnoc(mode, exactMode, contracts, sources, i);
      BlockersSnoc(rows, row);
      rows := rows + [row];
      if reason.Some? {
        blockers := blockers + [SourceBlocked(c.id, reason.value)];
      }
      sums := Add(sums, tally);
    }
    assert contracts[..|contracts|] == contracts;
  }

  lemma {:induction false} CompleteSnoc(mode: Mode, exactMode: bool, contracts: seq<Contract>, sources: seq<Source>, i: nat)
    requires i < |contracts|
    ensures RowsFor(mode, exactMode, contracts[..i + 1], sources)
         == RowsFor(mode, exactMode, contracts[..i], sources) + [RowFor(mode, exactMode, contracts[i], sources)]
    ensures RowsTally(contracts[..i + 1], sources) == Add(RowsTally(contracts[..i], sources), RowTally(contracts[i], sources))
  {
    assert contracts[..i + 1][..i] == contracts[..i];
  }

  lemma {:induction false} BlockersSnoc(rows: seq<Row>, row: Row)
    ensures RowBlockers(rows + [row]) == RowBlockers(rows) + if row.reason.Some? then [SourceBlocked(row.id, row.reason.value)] else []
  {
    assert (rows + [row])[..|rows|] == rows;
  }

  // What the gate lets through: sound sources whose planned bytes fit the warehouse.
  ghost predicate GateAccepts(mode: Mode, contracts: seq<Contract>, sources: seq<Source>)
  {
    SourcesOk(mode, contracts, sources) && TallyOf(AllObjects(sources)).planned <= MAX_BIGINT
  }

  method ValidateInventory(mode: Mode, contracts: seq<Contract>, sources: seq<Source>, options: Options)
    returns (r: Result<Assessment, PreflightError>)
    requires Distinct(ContractIds(contracts))
    ensures r.Ok? <==> GateAccepts(mode, contracts, sources)
    ensures r == Err(TooManyBytes) <==> SourcesOk(mode, contracts, sources) && TallyOf(AllObjects(sources)).planned > MAX_BIGINT
    ensures r.Ok? ==> r.value == Assessment(RowsFor(mode, options.exactMode, contracts, sources), AllObjects(sources),
                                            Blockers(mode, options, contracts, sources))
  {
    var read, tallies := ReadSources(mode, contracts, sources);
    if read.Err? {
      return Err(read.error);
    }
    var rows, blockers, sums := Complete(mode, options.exactMode, contracts, sources, tallies);
    RowsSumToObjects(mode, contracts, sources, read.value, sums);
    r := Settle(mode, sources, options, read.value, rows, blockers, sums);
  }

  // The gauge rule, the warehouse limit and the budgets, after the completeness rows.
  method Settle(mode: Mode, sources: seq<Source>, options: Options, objects: seq<Object>,
                rows: seq<Row>, rowBlockers: seq<Blocker>, sums: Tally) returns (r: Result<Assessment, PreflightError>)
    requires sums.count == |objects|
    ensures r == if sums.planned > MAX_BIGINT then Err(TooManyBytes)
                 else Ok(Assessment(rows, objects, rowBlockers + (if GaugeRuleHolds(mode, sources) then [] else [GaugeEvidenceMissing])
                                                   + BudgetBlockers(mode, options, sums)))
  {
    var blockers := rowBlockers;
    if !GaugeRuleHolds(mode, sources) {
      blockers := blockers + [GaugeEvidenceMissing];
    }
    if sums.planned > MAX_BIGINT {
      return Err(TooManyBytes);
    }
    assert rowBlockers + [] == rowBlockers;
    var over := CheckBudgets(mode, options, |objects|, sums);
    r := Ok(Assessment(rows, objects, blockers + over));
  }

  method CheckBudgets(mode: Mode, options: Options, count: nat, sums: Tally) returns (blockers: seq<Blocker>)
    requires count == sums.count
    ensures blockers == BudgetBlockers(mode, options, sums)
  {
    blockers := [];
    if options.maxObjects.Some? && count > options.maxObjects.value {
      blockers := blockers + [ObjectBudget];
    }
    if options.maxBytes.Some? && sums.planned > options.maxBytes.value {
      blockers := blockers + [StorageBudget];
    }
    if mode == Production && sums.unbounded != 0 {
      blockers := blockers + [StorageUnbounded];
    } else if options.maxBytes.Some? && sums.unbounded != 0 {
      blockers := blockers + [StorageUnverified];
    }
  }

  // ---------- Conservation ----------

  lemma {:induction false} ObjectsOfSource(sources: seq<Source>, o: Object)
    ensures o in AllObjects(sources) <==> exists s :: s in sources && o in s.objects
  {
    if sources != [] {
      var front, last := sources[..|sources| - 1], sources[|sources| - 1];
      ObjectsOfSource(front, o);
      assert forall s :: s in sources <==> s in front || s == last;
    }
  }

  /** The totals over objects are the sums over completeness rows, and exact bytes never
      exceed planned bytes. */
  lemma {:induction false} Conservation(mode: Mode, contracts: seq<Contract>, sources: seq<Source>)
    requires Distinct(ContractIds(contracts)) && SourcesOk(mode, contracts, sources)
    ensures RowsTally(contracts, sources) == TallyOf(AllObjects(sources))
    ensures var t := TallyOf(AllObjects(sources));
      && t.count == |AllObjects(sources)| && 0 <= t.total <= t.planned && 0 <= t.unbounded <= t.unknown
      && (t.unbounded == 0 <==> forall o :: o in AllObjects(sources) ==> o.size.Some? || o.upper.Some?)
  {
    BytesAreConserved(contracts, sources);
    forall o | o in AllObjects(sources)
      ensures SizesFit(o.size, o.upper)
    {
      ObjectsOfSource(sources, o);
      var s :| s in sources && o in s.objects;
      assert SourceOk(mode, contracts, s);
      assert ObjectOk(mode, o);
    }
    TallyCounts(AllObjects(sources));
  }

  lemma {:induction false} RowsSumToObjects(mode: Mode, contracts: seq<Contract>, sources: seq<Source>, objects: seq<Object>, sums: Tally)
    requires Distinct(ContractIds(contracts)) && SourcesOk(mode, contracts, sources)
    requires objects == AllObjects(sources) && sums == RowsTally(contracts, sources)
    ensures sums == TallyOf(objects) && sums.count == |objects|
  {
    Conservation(mode, contracts, sources);
  }

  // ---------- Readiness ----------

  lemma {:induction false} NoRowBlocks(rows: seq<Row>)
    ensures RowBlockers(rows) == [] <==> forall i :: 0 <= i < |rows| ==> rows[i].reason.None?
  {
    if rows != [] {
      NoRowBlocks(rows[..|rows| - 1]);
    }
  }

  // What a single contract needs of the inventory.
  ghost predicate ContractMet(mode: Mode, exactMode: bool, c: Contract, found: Option<Source>)
  {
    && (mode == Production ==> found.Some? && found.value.outcome.Some?
                               && (found.value.outcome == Some(Resolved) ==> found.value.objects != []))
    && (c.required ==>
          && found.Some? && found.value.objects != []
          && (mode == Production ==> found.value.outcome == Some(Resolved))
          && found.value.exactness.Some? && (found.value.exactness.value == c.exactness
              || (!exactMode && found.value.exactness.value in c.fallbacks)))
  }

  lemma ReasonMeansUnmet(mode: Mode, exactMode: bool, c: Contract, found: Option<Source>)
    requires c.exactness != Unavailable && Unavailable !in c.fallbacks
    ensures ReasonFor(mode, exactMode, c, found).None? <==> ContractMet(mode, exactMode, c, found)
  {
  }

  ghost predicate ContractsMet(mode: Mode, exactMode: bool, contracts: seq<Contract>, sources: seq<Source>)
  {
    forall c :: c in contracts ==> ContractMet(mode, exactMode, c, Find(sources, c.id))
  }

  ghost predicate SizesSettled(mode: Mode, options: Options, objects: seq<Object>)
  {
    mode == Production || options.maxBytes.Some? ==> forall o :: o in objects ==> o.size.Some? || o.upper.Some?
  }

  lemma RowsMeetContracts(mode: Mode, exactMode: bool, contracts: seq<Contract>, sources: seq<Source>)
    requires ProfileLoads(contracts)
    ensures RowBlockers(RowsFor(mode, exactMode, contracts, sources)) == [] <==> ContractsMet(mode, exactMode, contracts, sources)
  {
    var rows := RowsFor(mode, exactMode, contracts, sources);
    NoRowBlocks(rows);
    forall i | 0 <= i < |contracts|
      ensures rows[i].reason.None? <==> ContractMet(mode, exactMode, contracts[i], Find(sources, contracts[i].id))
    {
      assert contracts[i] in contracts;
      ReasonMeansUnmet(mode, exactMode, contracts[i], Find(sources, contracts[i].id));
    }
  }

  /** Ready means exactly this: every contract is met, with every required source present,
      non-empty and of an allowed exactness (and resolved, in production), the gauge rule
      holds, both budgets hold, and every size that must be bounded is. */
  lemma {:induction false} ReadyExactlyWhen(mode: Mode, options: Options, contracts: seq<Contract>, sources: seq<Source>)
    requires ProfileLoads(contracts) && SourcesOk(mode, contracts, sources)
    ensures var objects := AllObjects(sources);
      Blockers(mode, options, contracts, sources) == [] <==>
        && ContractsMet(mode, options.exactMode, contracts, sources)
        && IsGaugeRuleMet(mode, sources)
        && (options.maxObjects.Some? ==> |objects| <= options.maxObjects.value)
        && (options.maxBytes.Some? ==> TallyOf(objects).planned <= options.maxBytes.value)
        && SizesSettled(mode, options, objects)
  {
    RowsMeetContracts(mode, options.exactMode, contracts, sources);
    Conservation(mode, contracts, sources);
  }

  // `b` asks no more than `a`: exactness relaxed or kept, budgets raised, kept or dropped.
  ghost predicate Relaxes(a: Options, b: Options)
  {
    && (b.exactMode ==> a.exactMode)
    && (b.maxObjects.Some? ==> a.maxObjects.Some? && a.maxObjects.value <= b.maxObjects.value)
    && (b.maxBytes.Some? ==> a.maxBytes.Some? && a.maxBytes.value <= b.maxBytes.value)
  }

  /** Ready stays ready when the options ask less. */
  lemma ReadyIsMonotone(mode: Mode, a: Options, b: Options, contracts: seq<Contract>, sources: seq<Source>)
    requires ProfileLoads(contracts) && SourcesOk(mode, contracts, sources) && Relaxes(a, b)
    requires Blockers(mode, a, contracts, sources) == []
    ensures Blockers(mode, b, contracts, sources) == []
  {
    ReadyExactlyWhen(mode, a, contracts, sources);
    ReadyExactlyWhen(mode, b, contracts, sources);
    forall c | c in contracts
      ensures ContractMet(mode, b.exactMode, c, Find(sources, c.id))
    {
      assert ContractMet(mode, a.exactMode, c, Find(sources, c.id));
    }
  }
}
