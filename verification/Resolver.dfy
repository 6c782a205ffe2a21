/** The reproduction resolver (reproductions/readiness.py): local evidence and provider
    answers in, a production inventory out; and what preflight can still hold against it. */
module Resolver {
  import opened Prelude
  import opened Inventory
  import opened Preflight

  // One source of the operator's evidence bundle.
  datatype SourceEvidence = SourceEvidence(
    id: string, outcome: Option<Outcome>, evidence: seq<Evidence>, gaugePriors: bool)

  // An object as a provider or an operator states it; empty text stands for a missing field.
  datatype RawObject = RawObject(
    id: string, url: Url, providerId: string, revision: string, sourceRevision: string, sourceTime: Stamp,
    etag: string, checksumAlgorithm: string, checksum: string, size: Option<int>, upper: Option<int>)

  // How the access method of a source ends.
  datatype Reply = FileMissing | HttpStatus(code: int) | Incomplete | TimedOut | Refused | Objects(items: seq<RawObject>)

  datatype ResolveError = BadEvidenceSource | RepeatedSource | NoRecords | BadRecord | UnknownEvidence
                        | ProviderRefused | InvalidObject | ConflictingIds | ConflictingRevisions
                        | BadCutoff | PastCutoff | NoRevisionIdentity

  // ---------- Evidence ----------

  // A web address that gives nothing away.
  ghost predicate IsPublicAddress(u: Url)
  {
    IsWebAddress(u) && !(u.credentials || u.signed)
  }

  predicate CanPersist(u: Url)
    ensures CanPersist(u) <==> IsPublicAddress(u)
  {
    IsHttp(u) && !u.credentials && !u.signed
  }

  predicate RecordOk(e: Evidence)
    ensures RecordOk(e) <==> IsRecord(e) && IsPublicAddress(e.url)
  {
    DigestIsHex(e.sha);
    CanPersist(e.url) && e.retrievedAt.At? && IsDigest(e.sha)
  }

  ghost predicate EvidenceSourceOk(s: SourceEvidence)
  {
    && s.id != "" && s.outcome.Some? && s.evidence != []
    && forall e :: e in s.evidence ==> IsRecord(e) && IsPublicAddress(e.url)
  }

  function EvidenceIds(sources: seq<SourceEvidence>): (r: seq<string>)
    ensures |r| == |sources| && forall i :: 0 <= i < |r| ==> r[i] == sources[i].id
  {
    seq(|sources|, i requires 0 <= i < |sources| => sources[i].id)
  }

  // The bundle by identifier, the last entry of an identifier winning.
  function IndexOf(sources: seq<SourceEvidence>): map<string, SourceEvidence>
  {
    if sources == [] then map[]
    else IndexOf(sources[..|sources| - 1])[sources[|sources| - 1].id := sources[|sources| - 1]]
  }

  lemma {:induction false} IndexOfIndexes(sources: seq<SourceEvidence>)
    ensures Indexes(IndexOf(sources), sources)
  {
    if sources != [] {
      IndexOfIndexes(sources[..|sources| - 1]);
      assert sources[..|sources| - 1] + [sources[|sources| - 1]] == sources;
      EvidenceSnoc(sources, |sources| - 1);
    }
  }

  ghost predicate Indexes(indexed: map<string, SourceEvidence>, sources: seq<SourceEvidence>)
  {
    && (forall id :: id in indexed <==> id in EvidenceIds(sources))
    && (forall id :: id in indexed ==> indexed[id] in sources && indexed[id].id == id)
  }

  method ValidateEvidence(sources: seq<SourceEvidence>) returns (r: Result<map<string, SourceEvidence>, ResolveError>)
    ensures r.Ok? <==> Distinct(EvidenceIds(sources)) && forall s :: s in sources ==> EvidenceSourceOk(s)
    ensures r.Ok? ==> r.value == IndexOf(sources)
  {
    var indexed: map<string, SourceEvidence> := map[];
    for i := 0 to |sources|
      invariant indexed == IndexOf(sources[..i]) && Distinct(EvidenceIds(sources[..i]))
      invariant forall s :: s in sources[..i] ==> EvidenceSourceOk(s)
    {
      var s := sources[i];
      EvidenceSnoc(sources, i);
      IndexOfIndexes(sources[..i]);
      assert sources[..i + 1][..i] == sources[..i];
      if s.id == "" || s.outcome.None? {
        return Err(BadEvidenceSource);
      }
      if s.id in indexed {
        return Err(RepeatedSource);
      }
      if s.evidence == [] {
        return Err(NoRecords);
      }
      if exists e | e in s.evidence :: !RecordOk(e) {
        return Err(BadRecord);
      }
      indexed := indexed[s.id := s];
    }
    assert sources[..|sources|] == sources;
    r := Ok(indexed);
  }

  lemma EvidenceSnoc(sources: seq<SourceEvidence>, i: nat)
    requires i < |sources|
    ensures EvidenceIds(sources[..i + 1]) == EvidenceIds(sources[..i]) + [sources[i].id]
    ensures Distinct(EvidenceIds(sources[..i + 1])) <==> Distinct(EvidenceIds(sources[..i])) && sources[i].id !in EvidenceIds(sources[..i])
    ensures Distinct(EvidenceIds(sources)) ==> Distinct(EvidenceIds(sources[..i + 1]))
    ensures forall s :: s in sources[..i + 1] <==> s in sources[..i] || s == sources[i]
    ensures sources[i] in sources
  {
    TakeSnoc(sources, i);
    assert EvidenceIds(sources[..i + 1]) == EvidenceIds(sources[..i]) + [sources[i].id];
    DistinctSnoc(EvidenceIds(sources[..i]), sources[i].id);
    assert forall k :: 0 <= k <= i ==> EvidenceIds(sources)[k] == EvidenceIds(sources[..i + 1])[k];
  }

  // ---------- Objects ----------

  function FirstText(a: string, b: string): string { if a != "" then a else b }

  // Named, publicly addressed, and of a known or bounded size.
  ghost predicate IsAcceptable(o: RawObject)
  {
    && o.id != "" && IsPublicAddress(o.url)
    && AreSizes(o.size, o.upper) && !(o.size.None? && o.upper.None?)
  }

  /** The same object, its address without a fragment, and every identity filled in from the
      next best one: the object's name for the provider's, and for the revision the source's
      revision, the entity tag or the checksum. */
  ghost predicate IsNormalized(o: RawObject, r: Object)
  {
    && r.id == o.id && r.size == o.size && r.upper == o.upper
    && r.checksumAlgorithm == o.checksumAlgorithm && r.checksum == o.checksum
    && r.sourceRevision == o.sourceRevision && r.sourceTime == o.sourceTime
    && r.url == Url(o.url.scheme, o.url.netloc, o.url.rest, "", o.url.credentials, o.url.signed)
    && r.providerId == (if o.providerId != "" then o.providerId else o.id)
    && (o.revision != "" ==> r.revision == o.revision)
    && (o.revision == "" && o.sourceRevision != "" ==> r.revision == o.sourceRevision)
    && (o.revision == "" && o.sourceRevision == "" && o.etag != "" ==> r.revision == o.etag)
    && (o.revision == "" && o.sourceRevision == "" && o.etag == "" ==> r.revision == o.checksum)
  }

  predicate CanNormalize(o: RawObject)
    ensures CanNormalize(o) <==> IsAcceptable(o)
  {
    && o.id != "" && !IsBlank(o.url) && CanPersist(o.url)
    && SizesFit(o.size, o.upper) && (o.size.Some? || o.upper.Some?)
  }

  function NormalizeObject(o: RawObject): (r: Result<Object, ResolveError>)
    ensures r.Ok? <==> IsAcceptable(o)
    ensures r.Ok? ==> IsNormalized(o, r.value)
    ensures r.Ok? ==> ObjectOk(Synthetic, r.value) && IsHttp(r.value.url) && (r.value.size.Some? || r.value.upper.Some?)
  {
    if !CanNormalize(o) then Err(InvalidObject)
    else
      Ok(Object(o.id, o.url.(fragment := ""), FirstText(o.providerId, o.id),
                FirstText(o.revision, FirstText(o.sourceRevision, FirstText(o.etag, o.checksum))),
                o.size, o.upper, o.checksumAlgorithm, o.checksum, o.sourceRevision, o.sourceTime))
  }

  ghost predicate AllNormalize(items: seq<RawObject>)
  {
    forall o :: o in items ==> IsAcceptable(o)
  }

  ghost function Normalized(items: seq<RawObject>): (r: seq<Object>)
    requires AllNormalize(items)
    ensures |r| == |items| && forall i :: 0 <= i < |items| ==> NormalizeObject(items[i]) == Ok(r[i])
  {
    seq(|items|, i requires 0 <= i < |items| => NormalizeObject(items[i]).value)
  }

  method NormalizeAll(items: seq<RawObject>) returns (r: Result<seq<Object>, ResolveError>)
    ensures r.Ok? <==> AllNormalize(items)
    ensures r.Ok? ==> r.value == Normalized(items)
  {
    var objects: seq<Object> := [];
    for i := 0 to |items|
      invariant |objects| == i && forall k :: 0 <= k < i ==> NormalizeObject(items[k]) == Ok(objects[k])
      invariant forall k :: 0 <= k < i ==> CanNormalize(items[k])
    {
      var o := NormalizeObject(items[i]);
      if o.Err? {
        assert items[i] in items;
        return Err(o.error);
      }
      objects := objects + [o.value];
    }
    r := Ok(objects);
  }

  datatype Identity = Identity(providerId: string, revision: string)

  function Identities(objects: seq<Object>): (r: seq<Identity>)
    ensures |r| == |objects| && forall i :: 0 <= i < |r| ==> r[i] == Identity(objects[i].providerId, objects[i].revision)
  {
    seq(|objects|, i requires 0 <= i < |objects| => Identity(objects[i].providerId, objects[i].revision))
  }

  // A revision of the source with a time at or before the cutoff.
  ghost predicate IsDatedBefore(o: Object, cutoff: int)
  {
    o.sourceRevision != "" && o.sourceTime.At? && o.sourceTime.micros <= cutoff
  }

  predicate BeforeCutoff(o: Object, cutoff: Stamp)
  {
    o.sourceRevision != "" && o.sourceTime.At? && cutoff.At? && o.sourceTime.micros <= cutoff.micros
  }

  // In the order of the providers' names, then of the revisions, then of the objects' names.
  ghost predicate InIdentityOrder(a: Object, b: Object)
  {
    && TextLeq(a.providerId, b.providerId)
    && (a.providerId == b.providerId ==> TextLeq(a.revision, b.revision))
    && (a.providerId == b.providerId && a.revision == b.revision ==> TextLeq(a.id, b.id))
  }

  ghost predicate AreSorted(objects: seq<Object>)
  {
    forall i, j :: 0 <= i < j < |objects| ==> InIdentityOrder(objects[i], objects[j])
  }

  lemma {:induction false} ByIdentitySorts(objects: seq<Object>)
    ensures AreSorted(SortBy(objects, ByIdentity))
  {
    TextLeqPreorder();
    TextLeqIsAntisymmetric();
    assert forall a, b :: ByIdentity(a, b) <==> InIdentityOrder(a, b);
    assert TotalPreorder(ByIdentity);
    SortSorts(objects, ByIdentity);
  }

  function ByIdentity(a: Object, b: Object): bool
  {
    if a.providerId != b.providerId then TextLeq(a.providerId, b.providerId)
    else if a.revision != b.revision then TextLeq(a.revision, b.revision)
    else TextLeq(a.id, b.id)
  }

  // What the resolver demands of the objects it attaches.
  ghost predicate Attachable(c: Contract, objects: seq<Object>)
  {
    && objects != [] && Distinct(ObjectIds(objects)) && Distinct(Identities(objects))
    && (c.cutoff.Some? ==> c.cutoff.value.At? && forall o :: o in objects ==> IsDatedBefore(o, c.cutoff.value.micros))
    && forall o :: o in objects ==> o.providerId != "" && o.revision != ""
  }

  method CheckAttachable(c: Contract, objects: seq<Object>) returns (r: Result<(), ResolveError>)
    requires objects != []
    ensures r.Ok? <==> Attachable(c, objects)
  {
    var ids, identities := ObjectIds(objects), Identities(objects);
    SetSizeFindsRepeats(ids);
    SetSizeFindsRepeats(identities);
    if |ids| != |(set id | id in ids)| {
      return Err(ConflictingIds);
    }
    if |identities| != |(set id | id in identities)| {
      return Err(ConflictingRevisions);
    }
    if c.cutoff.Some? {
      if !c.cutoff.value.At? {
        return Err(BadCutoff);
      }
      if exists o | o in objects :: !BeforeCutoff(o, c.cutoff.value) {
        return Err(PastCutoff);
      }
    }
    if exists o | o in objects :: o.providerId == "" || o.revision == "" {
      return Err(NoRevisionIdentity);
    }
    r := Ok(());
  }

  // ---------- One source ----------

  // What a published source looks like, whichever branch produced it.
  ghost predicate Produced(c: Contract, e: SourceEvidence, s: Source)
  {
    && s.id == c.id && s.evidence == e.evidence && s.gaugePriors == e.gaugePriors
    && s.exactness == Some(if e.outcome == Some(Resolved) then Exact else Unavailable)
    && s.outcome.Some? && (s.outcome == Some(Resolved) ==> e.outcome == Some(Resolved))
    && (e.outcome != Some(Resolved) ==> s.outcome == e.outcome)
    && (s.outcome == Some(Resolved) <==> s.objects != [])
    && Distinct(ObjectIds(s.objects))
    && forall o :: o in s.objects ==> ObjectOk(Production, o) && (o.size.Some? || o.upper.Some?)
  }

  // The import is missing, or the provider turned the request down as unauthorized or forbidden.
  ghost predicate NeedsOperator(reply: Reply)
  {
    reply == FileMissing || reply == HttpStatus(401) || reply == HttpStatus(403)
  }

  function FailedOutcome(reply: Reply): Outcome
  {
    if reply.FileMissing? || (reply.HttpStatus? && reply.code in {401, 403}) then OperatorInputRequired else TransientError
  }

  // Whether a source can be published at all.
  ghost predicate Resolves(c: Contract, e: SourceEvidence, reply: Reply)
  {
    e.outcome == Some(Resolved) ==>
      match reply
      case Refused => false
      case Objects(items) => items == [] || (AllNormalize(items) && Attachable(c, Normalized(items)))
      case _ => true
  }

  // What the provider's answer leaves in the source.
  ghost predicate Reflects(e: SourceEvidence, reply: Reply, s: Source)
  {
    e.outcome == Some(Resolved) ==>
      if reply.Objects? && reply.items != []
      then s.outcome == Some(Resolved) && AllNormalize(reply.items)
           && multiset(s.objects) == multiset(Normalized(reply.items)) && AreSorted(s.objects)
      else s.outcome == Some(if NeedsOperator(reply) then OperatorInputRequired else TransientError)
  }

  method ResolveSource(c: Contract, e: SourceEvidence, reply: Reply) returns (r: Result<Source, ResolveError>)
    requires e.outcome.Some?
    ensures r.Ok? <==> Resolves(c, e, reply)
    ensures r.Ok? ==> Produced(c, e, r.value) && Reflects(e, reply, r.value)
  {
    var base := Source(c.id, e.outcome, Some(if e.outcome == Some(Resolved) then Exact else Unavailable),
                       e.evidence, [], e.gaugePriors);
    if e.outcome != Some(Resolved) {
      return Ok(base);
    }
    match reply {
      case Refused =>
        return Err(ProviderRefused);
      case Objects(items) =>
        if items == [] {
          return Ok(base.(outcome := Some(TransientError)));
        }
        var normalized := NormalizeAll(items);
        if normalized.Err? {
          return Err(normalized.error);
        }
        var checked := CheckAttachable(c, normalized.value);
        if checked.Err? {
          return Err(checked.error);
        }
        NormalizedAreSound(c, items, normalized.value);
        ByIdentitySorts(normalized.value);
        r := Ok(base.(objects := SortBy(normalized.value, ByIdentity)));
      case _ =>
        r := Ok(base.(outcome := Some(FailedOutcome(reply))));
    }
  }

  lemma {:induction false} NormalizedAreSound(c: Contract, items: seq<RawObject>, objects: seq<Object>)
    requires |objects| == |items| && forall i :: 0 <= i < |items| ==> NormalizeObject(items[i]) == Ok(objects[i])
    requires Attachable(c, objects)
    ensures var sorted := SortBy(objects, ByIdentity);
      && sorted != [] && Distinct(ObjectIds(sorted))
      && forall o :: o in sorted ==> ObjectOk(Production, o) && (o.size.Some? || o.upper.Some?)
  {
    var sorted := SortBy(objects, ByIdentity);
    forall o | o in sorted
      ensures o in objects && ObjectOk(Production, o) && (o.size.Some? || o.upper.Some?)
    {
      assert o in multiset(sorted) && o in multiset(objects);
      var i :| 0 <= i < |objects| && objects[i] == o;
      assert NormalizeObject(items[i]) == Ok(o);
    }
    IdsStayDistinct(objects, sorted);
  }

  lemma IdsStayDistinct(objects: seq<Object>, sorted: seq<Object>)
    requires Distinct(ObjectIds(objects)) && multiset(objects) == multiset(sorted)
    ensures Distinct(ObjectIds(sorted))
  {
    assert Distinct(objects) by {
      assert forall i, j :: 0 <= i < j < |objects| ==> ObjectIds(objects)[i] != ObjectIds(objects)[j];
    }
    DistinctMultiset(objects);
    CountsMakeDistinct(sorted);
    forall i, j | 0 <= i < j < |sorted|
      ensures ObjectIds(sorted)[i] != ObjectIds(sorted)[j]
    {
      assert sorted[i] in multiset(objects) && sorted[j] in multiset(objects);
      var a :| 0 <= a < |objects| && objects[a] == sorted[i];
      var b :| 0 <= b < |objects| && objects[b] == sorted[j];
      assert ObjectIds(objects)[a] != ObjectIds(objects)[b];
    }
  }

  // ---------- The inventory ----------

  function Zeros(): string { seq(64, i => '0') }

  // Evidence for a source the bundle does not mention.
  function DefaultEvidence(c: Contract): SourceEvidence
  {
    SourceEvidence(c.id, Some(OperatorInputRequired), [Evidence(c.url, At(0), Zeros())], false)
  }

  function EvidenceFor(c: Contract, indexed: map<string, SourceEvidence>): SourceEvidence
  {
    if c.id in indexed then indexed[c.id] else DefaultEvidence(c)
  }

  predicate ContractBefore(a: Contract, b: Contract) { TextLeq(a.id, b.id) }

  ghost predicate AllProduced(contracts: seq<Contract>, indexed: map<string, SourceEvidence>, sources: seq<Source>)
  {
    && |sources| == |contracts|
    && forall i :: 0 <= i < |contracts| ==> Produced(contracts[i], EvidenceFor(contracts[i], indexed), sources[i])
  }

  ghost predicate AllReflect(contracts: seq<Contract>, indexed: map<string, SourceEvidence>, replies: string -> Reply, sources: seq<Source>)
  {
    && |sources| == |contracts|
    && forall i :: 0 <= i < |contracts| ==> Reflects(EvidenceFor(contracts[i], indexed), replies(contracts[i].id), sources[i])
  }

  ghost predicate AllResolve(contracts: seq<Contract>, indexed: map<string, SourceEvidence>, replies: string -> Reply)
  {
    forall c :: c in contracts ==> Resolves(c, EvidenceFor(c, indexed), replies(c.id))
  }

  method ResolveAll(ordered: seq<Contract>, indexed: map<string, SourceEvidence>, replies: string -> Reply)
    returns (r: Result<seq<Source>, ResolveError>)
    requires forall id :: id in indexed ==> indexed[id].outcome.Some?
    ensures r.Ok? <==> AllResolve(ordered, indexed, replies)
    ensures r.Ok? ==> AllProduced(ordered, indexed, r.value) && AllReflect(ordered, indexed, replies, r.value)
  {
    var sources: seq<Source> := [];
    for i := 0 to |ordered|
      invariant AllProduced(ordered[..i], indexed, sources) && AllReflect(ordered[..i], indexed, replies, sources)
      invariant AllResolve(ordered[..i], indexed, replies)
    {
      var c := ordered[i];
      TakeSnoc(ordered, i);
      var s := ResolveSource(c, EvidenceFor(c, indexed), replies(c.id));
      if s.Err? {
        return Err(s.error);
      }
      sources := sources + [s.value];
    }
    assert ordered[..|ordered|] == ordered;
    r := Ok(sources);
  }

  // The sources are the contracts' own, in the order of their identifiers.
  ghost predicate AreListed(sources: seq<Source>, contracts: seq<Contract>)
  {
    && multiset(SourceIds(sources)) == multiset(ContractIds(contracts))
    && forall i, j :: 0 <= i < j < |sources| ==> TextLeq(sources[i].id, sources[j].id)
  }

  // What is published for a contract without evidence: its own address, at the epoch, under
  // a digest of zeros, for an operator to replace.
  ghost predicate IsPlaceholder(c: Contract, s: Source)
  {
    && s.id == c.id && s.outcome == Some(OperatorInputRequired) && s.exactness == Some(Unavailable)
    && s.objects == [] && !s.gaugePriors
    && |s.evidence| == 1 && s.evidence[0].url == c.url && s.evidence[0].retrievedAt == At(0)
    && |s.evidence[0].sha| == 64 && forall i :: 0 <= i < 64 ==> s.evidence[0].sha[i] == '0'
  }

  ghost predicate AllPlaceheld(contracts: seq<Contract>, bundle: seq<SourceEvidence>, sources: seq<Source>)
  {
    forall c :: c in contracts && c.id !in EvidenceIds(bundle) ==> exists s :: s in sources && IsPlaceholder(c, s)
  }

  lemma {:induction false} ProducedAreListed(contracts: seq<Contract>, indexed: map<string, SourceEvidence>, sources: seq<Source>)
    requires AllProduced(SortBy(contracts, ContractBefore), indexed, sources)
    ensures AreListed(sources, contracts)
  {
    var ordered := SortBy(contracts, ContractBefore);
    TextLeqPreorder();
    assert TotalPreorder(ContractBefore);
    SortSorts(contracts, ContractBefore);
    assert SourceIds(sources) == ContractIds(ordered);
    IdsPermute(ordered, contracts);
    forall i, j | 0 <= i < j < |sources| ensures TextLeq(sources[i].id, sources[j].id) {
      assert ContractBefore(ordered[i], ordered[j]);
    }
  }

  function IdOf(): Contract -> seq<string> { (c: Contract) => [c.id] }

  lemma {:induction false} IdsAsFlatMap(contracts: seq<Contract>)
    ensures FlatMap(contracts, IdOf()) == ContractIds(contracts)
  {
    if contracts != [] {
      IdsAsFlatMap(contracts[1..]);
      assert ContractIds(contracts) == [contracts[0].id] + ContractIds(contracts[1..]);
    }
  }

  lemma IdsPermute(a: seq<Contract>, b: seq<Contract>)
    requires multiset(a) == multiset(b)
    ensures multiset(ContractIds(a)) == multiset(ContractIds(b))
  {
    FlatMapPermutation(a, b, IdOf());
    IdsAsFlatMap(a);
    IdsAsFlatMap(b);
  }

  lemma {:induction false} ProducedPlaceholders(contracts: seq<Contract>, bundle: seq<SourceEvidence>, sources: seq<Source>)
    requires AllProduced(SortBy(contracts, ContractBefore), IndexOf(bundle), sources)
    ensures AllPlaceheld(contracts, bundle, sources)
  {
    var ordered := SortBy(contracts, ContractBefore);
    IndexOfIndexes(bundle);
    forall c | c in contracts && c.id !in EvidenceIds(bundle)
      ensures exists s :: s in sources && IsPlaceholder(c, s)
    {
      assert c in multiset(contracts) && c in multiset(ordered);
      var i :| 0 <= i < |ordered| && ordered[i] == c;
      assert Produced(c, DefaultEvidence(c), sources[i]);
      assert sources[i] in sources && IsPlaceholder(c, sources[i]);
    }
  }

  /** Every contract contributes one source, in identifier order; any refusal anywhere
      publishes nothing. */
  method ResolveReproductionSources(contracts: seq<Contract>, bundle: seq<SourceEvidence>, replies: string -> Reply)
    returns (r: Result<seq<Source>, ResolveError>)
    ensures r.Ok? <==> BundleOk(bundle, ContractIds(contracts)) && AllResolve(SortBy(contracts, ContractBefore), IndexOf(bundle), replies)
    ensures r.Ok? ==>
      && AllProduced(SortBy(contracts, ContractBefore), IndexOf(bundle), r.value)
      && AllReflect(SortBy(contracts, ContractBefore), IndexOf(bundle), replies, r.value)
    ensures r.Ok? ==> AreListed(r.value, contracts) && AllPlaceheld(contracts, bundle, r.value)
  {
    var evidence := ValidateEvidence(bundle);
    if evidence.Err? {
      return Err(evidence.error);
    }
    var indexed := evidence.value;
    IndexOfIndexes(bundle);
    KnownEvidence(bundle, indexed, ContractIds(contracts));
    if exists id | id in indexed :: id !in ContractIds(contracts) {
      return Err(UnknownEvidence);
    }
    r := ResolveAll(SortBy(contracts, ContractBefore), indexed, replies);
    if r.Ok? {
      ProducedAreListed(contracts, indexed, r.value);
      ProducedPlaceholders(contracts, bundle, r.value);
    }
  }

  // Evidence is well formed, says nothing twice and mentions only known sources.
  ghost predicate BundleOk(bundle: seq<SourceEvidence>, ids: seq<string>)
  {
    Distinct(EvidenceIds(bundle)) && forall s :: s in bundle ==> EvidenceSourceOk(s) && s.id in ids
  }

  lemma KnownEvidence(bundle: seq<SourceEvidence>, indexed: map<string, SourceEvidence>, ids: seq<string>)
    requires Indexes(indexed, bundle)
    ensures (forall id :: id in indexed ==> id in ids) <==> forall s :: s in bundle ==> s.id in ids
  {
    forall id | id in indexed
      ensures exists s :: s in bundle && s.id == id
    {
      assert indexed[id] in bundle;
    }
    forall s | s in bundle
      ensures s.id in indexed
    {
      var i :| 0 <= i < |bundle| && bundle[i] == s;
      assert EvidenceIds(bundle)[i] == s.id;
    }
  }

  // ---------- Producer against consumer ----------

  lemma {:induction false} ZerosAreADigest()
    ensures IsDigest(Zeros())
  {
  }

  lemma ProducedEvidenceOk(c: Contract, e: SourceEvidence, s: Source)
    requires Produced(c, e, s) && (EvidenceSourceOk(e) || e == DefaultEvidence(c))
    ensures HeaderOk(Production, s) <==> (e == DefaultEvidence(c) ==> IsHttp(c.url))
  {
    ZerosAreADigest();
    if EvidenceSourceOk(e) {
      assert forall r :: r in e.evidence ==> RecordOk(r);
      if e == DefaultEvidence(c) {
        assert e.evidence[0] in e.evidence;
      }
    } else {
      assert e.evidence == [Evidence(c.url, At(0), Zeros())];
      assert e.evidence[0] in s.evidence;
    }
  }

  // The raw objects a source will list.
  function Offered(e: SourceEvidence, reply: Reply): seq<RawObject>
  {
    if e.outcome == Some(Resolved) && reply.Objects? then reply.items else []
  }

  ghost predicate MeetsPin(c: Contract, o: RawObject)
  {
    c.checksum != "" ==> o.checksumAlgorithm == c.checksumAlgorithm && o.checksum == c.checksum
  }

  // The contract may pin another checksum than a provider states, or have no address to cite.
  ghost predicate ContractSurvives(c: Contract, indexed: map<string, SourceEvidence>, reply: Reply)
  {
    && (c.id !in indexed ==> IsHttp(c.url))
    && forall o :: o in Offered(EvidenceFor(c, indexed), reply) ==> MeetsPin(c, o)
  }

  ghost predicate Survives(contracts: seq<Contract>, indexed: map<string, SourceEvidence>, replies: string -> Reply)
  {
    forall c :: c in contracts ==> ContractSurvives(c, indexed, replies(c.id))
  }

  // Bytes as stated: the size if there is one, else the upper bound.
  function StatedBytes(o: RawObject): int
  {
    if o.size.Some? then o.size.value else if o.upper.Some? then o.upper.value else 0
  }

  function StatedTotal(items: seq<RawObject>): int
  {
    if items == [] then 0 else StatedTotal(items[..|items| - 1]) + StatedBytes(items[|items| - 1])
  }

  function PlannedTotal(contracts: seq<Contract>, indexed: map<string, SourceEvidence>, replies: string -> Reply): int
  {
    if contracts == [] then 0
    else
      var front, last := contracts[..|contracts| - 1], contracts[|contracts| - 1];
      PlannedTotal(front, indexed, replies) + StatedTotal(Offered(EvidenceFor(last, indexed), replies(last.id)))
  }

  lemma {:induction false} NormalizedBytes(items: seq<RawObject>)
    requires AllNormalize(items)
    ensures TallyOf(Normalized(items)).planned == StatedTotal(items)
  {
    if items != [] {
      var front := items[..|items| - 1];
      NormalizedBytes(front);
      assert Normalized(items)[..|items| - 1] == Normalized(front);
    }
  }

  lemma PinsAreStated(c: Contract, items: seq<RawObject>, objects: seq<Object>)
    requires AllNormalize(items) && multiset(objects) == multiset(Normalized(items))
    ensures (forall o :: o in objects ==> CarriesPin(c, o)) <==> forall o :: o in items ==> MeetsPin(c, o)
  {
    var normalized := Normalized(items);
    assert forall o :: o in objects <==> o in multiset(objects);
    assert forall o :: o in normalized <==> o in multiset(normalized);
    forall i | 0 <= i < |items|
      ensures CarriesPin(c, normalized[i]) <==> MeetsPin(c, items[i])
    {
      assert NormalizeObject(items[i]) == Ok(normalized[i]);
    }
    forall o | o in items
      ensures exists i :: 0 <= i < |items| && items[i] == o && normalized[i] in objects
    {
      var i :| 0 <= i < |items| && items[i] == o;
      assert normalized[i] in normalized;
    }
  }

  // One source: what it lists weighs what was stated, and matches the pin as stated.
  lemma SourceReflectsOffer(c: Contract, e: SourceEvidence, reply: Reply, s: Source)
    requires Produced(c, e, s) && Reflects(e, reply, s)
    ensures s.objects == [] <==> Offered(e, reply) == []
    ensures TallyOf(s.objects).planned == StatedTotal(Offered(e, reply))
    ensures (forall o :: o in s.objects ==> CarriesPin(c, o)) <==> forall o :: o in Offered(e, reply) ==> MeetsPin(c, o)
  {
    var items := Offered(e, reply);
    if items != [] {
      NormalizedBytes(items);
      TallyPermutation(s.objects, Normalized(items));
      PinsAreStated(c, items, s.objects);
    }
  }

  /** The bytes the gate plans are the bytes the providers stated. */
  lemma {:induction false} PlannedBytesAreStated(ordered: seq<Contract>, indexed: map<string, SourceEvidence>,
                                                 replies: string -> Reply, sources: seq<Source>)
    requires AllProduced(ordered, indexed, sources) && AllReflect(ordered, indexed, replies, sources)
    ensures TallyOf(AllObjects(sources)).planned == PlannedTotal(ordered, indexed, replies)
  {
    if ordered != [] {
      var n := |ordered| - 1;
      PlannedBytesAreStated(ordered[..n], indexed, replies, sources[..n]);
      SourceReflectsOffer(ordered[n], EvidenceFor(ordered[n], indexed), replies(ordered[n].id), sources[n]);
      TallyJoin(AllObjects(sources[..n]), sources[n].objects);
    }
  }

  lemma OrderedIds(contracts: seq<Contract>, ordered: seq<Contract>)
    requires Distinct(ContractIds(contracts)) && multiset(ordered) == multiset(contracts)
    ensures Distinct(ContractIds(ordered))
    ensures forall c :: c in ordered <==> c in contracts
  {
    forall c ensures c in ordered <==> c in contracts {
      assert c in ordered <==> c in multiset(ordered);
      assert c in contracts <==> c in multiset(contracts);
    }
    assert Distinct(contracts) by {
      assert forall i, j :: 0 <= i < j < |contracts| ==> ContractIds(contracts)[i] != ContractIds(contracts)[j];
    }
    DistinctMultiset(contracts);
    CountsMakeDistinct(ordered);
    forall i, j | 0 <= i < j < |ordered|
      ensures ContractIds(ordered)[i] != ContractIds(ordered)[j]
    {
      assert ordered[i] in contracts && ordered[j] in contracts;
      var a :| 0 <= a < |contracts| && contracts[a] == ordered[i];
      var b :| 0 <= b < |contracts| && contracts[b] == ordered[j];
      assert ContractIds(contracts)[a] != ContractIds(contracts)[b];
    }
  }

  lemma {:induction false} FindContractUnique(contracts: seq<Contract>, c: Contract)
    requires Distinct(ContractIds(contracts)) && c in contracts
    ensures FindContract(contracts, c.id) == Some(c)
  {
    var i :| 0 <= i < |contracts| && contracts[i] == c;
    assert ContractIds(contracts)[i] == c.id;
    var d := FindContract(contracts, c.id).value;
    var j :| 0 <= j < |contracts| && contracts[j] == d;
    assert ContractIds(contracts)[j] == d.id;
  }

  lemma ProducedSourceOk(contracts: seq<Contract>, c: Contract, indexed: map<string, SourceEvidence>, reply: Reply, s: Source)
    requires Distinct(ContractIds(contracts)) && c in contracts
    requires c.id in indexed ==> EvidenceSourceOk(indexed[c.id])
    requires Produced(c, EvidenceFor(c, indexed), s) && Reflects(EvidenceFor(c, indexed), reply, s)
    ensures SourceOk(Production, contracts, s) <==> ContractSurvives(c, indexed, reply)
  {
    var e := EvidenceFor(c, indexed);
    FindContractUnique(contracts, c);
    ProducedEvidenceOk(c, e, s);
    SourceReflectsOffer(c, e, reply, s);
    if c.id in indexed && e == DefaultEvidence(c) {
      assert RecordOk(e.evidence[0]);
    }
  }

  /** A published inventory is accepted by the gate with three exceptions, each visible in
      the evidence and the provider answers: an object stated with another checksum than its
      contract pins, a contract without evidence whose own address, cited in its place, is
      not an absolute HTTP(S) URL, and stated bytes that together exceed the warehouse
      limit. No published object is ever unbounded. */
  lemma {:induction false} PublishedInventoryPasses(contracts: seq<Contract>, bundle: seq<SourceEvidence>, replies: string -> Reply, sources: seq<Source>)
    requires ProfileLoads(contracts) && BundleOk(bundle, ContractIds(contracts))
    requires AllProduced(SortBy(contracts, ContractBefore), IndexOf(bundle), sources)
    requires AllReflect(SortBy(contracts, ContractBefore), IndexOf(bundle), replies, sources)
    ensures SourcesOk(Production, contracts, sources) <==> Survives(contracts, IndexOf(bundle), replies)
    ensures GateAccepts(Production, contracts, sources) <==>
      && Survives(contracts, IndexOf(bundle), replies)
      && PlannedTotal(SortBy(contracts, ContractBefore), IndexOf(bundle), replies) <= MAX_BIGINT
    ensures forall o :: o in AllObjects(sources) ==> o.size.Some? || o.upper.Some?
  {
    var indexed := IndexOf(bundle);
    IndexOfIndexes(bundle);
    var ordered := SortBy(contracts, ContractBefore);
    OrderedIds(contracts, ordered);
    assert SourceIds(sources) == ContractIds(ordered);
    forall i | 0 <= i < |ordered|
      ensures SourceOk(Production, contracts, sources[i]) <==> ContractSurvives(ordered[i], indexed, replies(ordered[i].id))
    {
      assert ordered[i] in ordered;
      ProducedSourceOk(contracts, ordered[i], indexed, replies(ordered[i].id), sources[i]);
    }
    PassesMeansSurvives(contracts, ordered, indexed, replies, sources);
    PlannedBytesAreStated(ordered, indexed, replies, sources);
    NothingIsUnbounded(ordered, indexed, sources);
  }

  lemma {:induction false} NothingIsUnbounded(ordered: seq<Contract>, indexed: map<string, SourceEvidence>, sources: seq<Source>)
    requires AllProduced(ordered, indexed, sources)
    ensures forall o :: o in AllObjects(sources) ==> o.size.Some? || o.upper.Some?
  {
    forall o | o in AllObjects(sources)
      ensures o.size.Some? || o.upper.Some?
    {
      ObjectsOfSource(sources, o);
      var s :| s in sources && o in s.objects;
      var i :| 0 <= i < |sources| && sources[i] == s;
      assert Produced(ordered[i], EvidenceFor(ordered[i], indexed), sources[i]);
    }
  }

  lemma PassesMeansSurvives(contracts: seq<Contract>, ordered: seq<Contract>, indexed: map<string, SourceEvidence>,
                            replies: string -> Reply, sources: seq<Source>)
    requires |sources| == |ordered| && Distinct(SourceIds(sources))
    requires forall c :: c in ordered <==> c in contracts
    requires forall i :: 0 <= i < |ordered| ==>
      (SourceOk(Production, contracts, sources[i]) <==> ContractSurvives(ordered[i], indexed, replies(ordered[i].id)))
    ensures SourcesOk(Production, contracts, sources) <==> Survives(contracts, indexed, replies)
  {
    var ok, survives := SourceIsOk(contracts), SurvivesWith(indexed, replies);
    HoldThroughout(sources, ordered, ok, survives);
    assert (forall s :: s in sources ==> SourceOk(Production, contracts, s)) <==> forall s :: s in sources ==> ok(s);
    assert Survives(contracts, indexed, replies) <==> forall c :: c in ordered ==> survives(c);
  }

  ghost function SourceIsOk(contracts: seq<Contract>): Source -> bool
  {
    (s: Source) => SourceOk(Production, contracts, s)
  }

  ghost function SurvivesWith(indexed: map<string, SourceEvidence>, replies: string -> Reply): Contract -> bool
  {
    (c: Contract) => ContractSurvives(c, indexed, replies(c.id))
  }

  // ---------- The three exceptions ----------

  const SITE := Url("https", "data.example", "/archive", "", false, false)

  function Pinning(checksum: string): Contract
  {
    Contract("snapshot", SITE, true, Exact, {}, "sha256", checksum, None)
  }

  function Confirmed(): SourceEvidence
  {
    SourceEvidence("snapshot", Some(Resolved), [Evidence(SITE, At(0), Zeros())], false)
  }

  function Bounded(id: string, checksum: string, upper: int): RawObject
  {
    RawObject(id, SITE, "", "r1", "", Malformed, "", "sha256", checksum, None, Some(upper))
  }

  // A profile of one source.
  lemma OneContract(c: Contract)
    requires c.id != "" && !IsBlank(c.url) && c.exactness == Exact && c.fallbacks == {}
    ensures ProfileLoads([c]) && SortBy([c], ContractBefore) == [c] && ContractIds([c]) == [c.id]
  {
    assert SortBy([c][1..], ContractBefore) == [];
  }

  lemma OneSourceOfEvidence(checksum: string)
    ensures BundleOk([Confirmed()], ContractIds([Pinning(checksum)]))
    ensures IndexOf([Confirmed()]) == map["snapshot" := Confirmed()]
  {
    ZerosAreADigest();
    assert [Confirmed()][..0] == [];
    assert IndexOf([]) == map[];
    assert ContractIds([Pinning(checksum)])[0] == "snapshot";
  }

  // What the resolver is given, and what it then publishes.
  ghost predicate Resolvable(contracts: seq<Contract>, bundle: seq<SourceEvidence>, replies: string -> Reply)
  {
    && ProfileLoads(contracts) && BundleOk(bundle, ContractIds(contracts))
    && AllResolve(SortBy(contracts, ContractBefore), IndexOf(bundle), replies)
  }

  ghost predicate PublishedAs(contracts: seq<Contract>, bundle: seq<SourceEvidence>, replies: string -> Reply, sources: seq<Source>)
  {
    && AllProduced(SortBy(contracts, ContractBefore), IndexOf(bundle), sources)
    && AllReflect(SortBy(contracts, ContractBefore), IndexOf(bundle), replies, sources)
  }

  lemma OneSourceResolves(checksum: string, reply: Reply)
    requires Resolves(Pinning(checksum), Confirmed(), reply)
    ensures Resolvable([Pinning(checksum)], [Confirmed()], (id: string) => reply)
  {
    OneContract(Pinning(checksum));
    OneSourceOfEvidence(checksum);
  }

  lemma OneItemAttaches(c: Contract)
    requires c.cutoff.None?
    ensures Resolves(c, Confirmed(), Objects([Bounded("a", "", 1)]))
  {
    var items := [Bounded("a", "", 1)];
    assert CanNormalize(items[0]);
    var objects := Normalized(items);
    assert NormalizeObject(items[0]) == Ok(objects[0]);
    assert Distinct(ObjectIds(objects)) && Distinct(Identities(objects));
  }

  /** A contract pins a checksum and the operator states none: published, then refused. */
  lemma PinnedChecksumIsRefused(sources: seq<Source>)
    requires PublishedAs([Pinning(Zeros())], [Confirmed()], (id: string) => Objects([Bounded("a", "", 1)]), sources)
    ensures Resolvable([Pinning(Zeros())], [Confirmed()], (id: string) => Objects([Bounded("a", "", 1)]))
    ensures !GateAccepts(Production, [Pinning(Zeros())], sources)
  {
    var c, reply := Pinning(Zeros()), Objects([Bounded("a", "", 1)]);
    OneItemAttaches(c);
    OneSourceResolves(Zeros(), reply);
    OneSourceOfEvidence(Zeros());
    assert Zeros()[0] == '0';
    assert reply.items[0] in Offered(Confirmed(), reply) && !MeetsPin(c, reply.items[0]);
    assert !ContractSurvives(c, IndexOf([Confirmed()]), reply);
    PublishedInventoryPasses([c], [Confirmed()], (id: string) => reply, sources);
  }

  lemma {:induction false} StatedPair(items: seq<RawObject>)
    requires |items| == 2
    ensures StatedTotal(items) == StatedBytes(items[0]) + StatedBytes(items[1])
  {
    assert items[..1] == [items[0]] && items[..1][..0] == [];
    assert StatedTotal(items[..1]) == StatedBytes(items[0]);
  }

  lemma {:induction false} OneContractPlans(c: Contract, indexed: map<string, SourceEvidence>, replies: string -> Reply)
    ensures PlannedTotal([c], indexed, replies) == StatedTotal(Offered(EvidenceFor(c, indexed), replies(c.id)))
  {
    assert [c][..0] == [];
    assert PlannedTotal([], indexed, replies) == 0;
  }

  lemma TwoItemsAttach(c: Contract)
    requires c.cutoff.None?
    ensures Resolves(c, Confirmed(), Objects(HUGE))
  {
    var items := HUGE;
    assert CanNormalize(items[0]) && CanNormalize(items[1]);
    var objects := Normalized(items);
    assert NormalizeObject(items[0]) == Ok(objects[0]) && NormalizeObject(items[1]) == Ok(objects[1]);
    assert Distinct(ObjectIds(objects)) && Distinct(Identities(objects));
  }

  const HUGE := [Bounded("a", "", MAX_BIGINT), Bounded("b", "", MAX_BIGINT)]

  /** Two objects of the largest size the resolver accepts: published, then refused. */
  lemma TooManyBytesAreRefused(sources: seq<Source>)
    requires PublishedAs([Pinning("")], [Confirmed()], (id: string) => Objects(HUGE), sources)
    ensures Resolvable([Pinning("")], [Confirmed()], (id: string) => Objects(HUGE))
    ensures SourcesOk(Production, [Pinning("")], sources) && !GateAccepts(Production, [Pinning("")], sources)
  {
    TwoItemsAttach(Pinning(""));
    OneSourceResolves("", Objects(HUGE));
    HugePlan();
    NothingPinned((id: string) => Objects(HUGE));
    PublishedInventoryPasses([Pinning("")], [Confirmed()], (id: string) => Objects(HUGE), sources);
  }

  lemma NothingPinned(replies: string -> Reply)
    ensures Survives([Pinning("")], IndexOf([Confirmed()]), replies)
  {
    OneSourceOfEvidence("");
  }

  lemma HugePlan()
    ensures PlannedTotal(SortBy([Pinning("")], ContractBefore), IndexOf([Confirmed()]), (id: string) => Objects(HUGE)) == 2 * MAX_BIGINT
  {
    OneContract(Pinning(""));
    OneSourceOfEvidence("");
    StatedPair(HUGE);
    OneContractPlans(Pinning(""), IndexOf([Confirmed()]), (id: string) => Objects(HUGE));
  }

  /** A contract whose address is not HTTP(S) and that has no evidence yet: published with
      that address as its evidence, then refused. */
  lemma OtherAddressIsRefused(replies: string -> Reply, sources: seq<Source>)
    requires PublishedAs([Pinning("").(url := SITE.(scheme := "ftp"))], [], replies, sources)
    ensures Resolvable([Pinning("").(url := SITE.(scheme := "ftp"))], [], replies)
    ensures !GateAccepts(Production, [Pinning("").(url := SITE.(scheme := "ftp"))], sources)
  {
    var c := Pinning("").(url := SITE.(scheme := "ftp"));
    OneContract(c);
    assert !ContractSurvives(c, IndexOf([]), replies(c.id));
    PublishedInventoryPasses([c], [], replies, sources);
  }

  /** The exactness of a source follows its evidence, not its provider: whatever resolving
      returns is published as exact and without objects precisely when the evidence says
      resolved and the provider's answer holds no objects. */
  lemma FailedSourceStaysExact(c: Contract, e: SourceEvidence, reply: Reply, s: Source)
    requires Produced(c, e, s) && Reflects(e, reply, s)
    ensures s.exactness == Some(Exact) && s.objects == [] <==>
      e.outcome == Some(Resolved) && !(reply.Objects? && reply.items != [])
    ensures s.exactness == Some(Exact) && s.objects == [] ==>
      s.outcome == Some(if NeedsOperator(reply) then OperatorInputRequired else TransientError)
  {
    SourceReflectsOffer(c, e, reply, s);
  }

  /** A provider that times out on resolved evidence is such a source. */
  lemma TimedOutSourceIsExact(s: Source)
    requires Produced(Pinning(""), Confirmed(), s) && Reflects(Confirmed(), TimedOut, s)
    ensures Resolves(Pinning(""), Confirmed(), TimedOut)
    ensures s.exactness == Some(Exact) && s.objects == [] && s.outcome == Some(TransientError)
  {
    FailedSourceStaysExact(Pinning(""), Confirmed(), TimedOut, s);
  }
}
