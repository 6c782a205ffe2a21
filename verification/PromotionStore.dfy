/** The calls that drive the promotion machine: one analysis partition, a whole pending
    pass, a validation and a release build, each proved to be a run of its steps. */
module PromotionStore {
  import opened Prelude
  import opened Identities
  import opened Promotion

  datatype Attempt = Attempt(id: RunId, outcome: Option<seq<Episode>>)

  datatype AttemptError = AnalysisFailed

  datatype ReleaseError = UnsafeVersion | NotPassing | NoGeneration | StaleValidation | ExportFailed | VersionTaken
                        | NotRecorded

  datatype AnalysisMetrics = AnalysisMetrics(succeeded: nat, failed: nat, episodes: nat, generationIds: seq<RunId>)

  // ---------- One partition ----------

  predicate WellFormed(a: Attempt)
  {
    a.outcome.Some? ==> forall t :: t in a.outcome.value ==> t.id.run == a.id
  }

  // What an attempt leaves behind.
  function AfterAttempt(s: State, a: Attempt): (t: State)
    ensures t.active == s.active
  {
    if IsSuccess(s.runs, a.id) then s
    else if a.outcome.Some? then
      s.(runs := s.runs[a.id := Run(Success, |a.outcome.value|)],
         current := s.current[PartitionOf(a.id) := a.id],
         episodes := InsertEpisodes(s.episodes, a.outcome.value))
    else s.(runs := s.runs[a.id := Run(Failed, 0)])
  }

  predicate AllEnabled(s: State, steps: seq<Step>)
    decreases |steps|
  {
    steps != [] ==> Enabled(s, steps[0]) && AllEnabled(Apply(s, steps[0]), steps[1..])
  }

  function ApplyAll(s: State, steps: seq<Step>): State
    requires AllEnabled(s, steps)
    decreases |steps|
  {
    if steps == [] then s else ApplyAll(Apply(s, steps[0]), steps[1..])
  }

  lemma {:induction false} StepsKeepSound(s: State, steps: seq<Step>)
    requires Sound(s) && AllEnabled(s, steps)
    ensures Sound(ApplyAll(s, steps)) && Keeps(s, ApplyAll(s, steps))
    decreases |steps|
  {
    if steps != [] {
      var t := Apply(s, steps[0]);
      StepKeepsSound(s, steps[0]);
      StepKeeps(s, steps[0]);
      StepsKeepSound(t, steps[1..]);
      KeepsTransitive(s, t, ApplyAll(t, steps[1..]));
    }
  }

  lemma {:induction false} ApplyTwo(s: State, first: Step, second: Step)
    requires Enabled(s, first) && Enabled(Apply(s, first), second)
    ensures AllEnabled(s, [first, second])
    ensures ApplyAll(s, [first, second]) == Apply(Apply(s, first), second)
  {
    var t := Apply(s, first);
    assert [first, second][1..] == [second] && [second][1..] == [];
    assert AllEnabled(Apply(t, second), []);
    assert AllEnabled(t, [second]);
    assert ApplyAll(t, [second]) == Apply(t, second);
  }

  // The machine steps one attempt takes.
  function AttemptSteps(s: State, a: Attempt): seq<Step>
  {
    if IsSuccess(s.runs, a.id) then []
    else [Begin(a.id), if a.outcome.Some? then Promote(a.outcome.value) else Fail]
  }

  /** An attempt is a run of the machine: nothing, a promotion, or a recorded failure. */
  lemma {:induction false} AttemptIsARun(s: State, a: Attempt)
    requires s.active.None? && WellFormed(a)
    ensures AllEnabled(s, AttemptSteps(s, a))
    ensures ApplyAll(s, AttemptSteps(s, a)) == AfterAttempt(s, a)
  {
    if !IsSuccess(s.runs, a.id) {
      var t := Apply(s, Begin(a.id));
      if a.outcome.Some? {
        var row := Run(Success, |a.outcome.value|);
        ApplyTwo(s, Begin(a.id), Promote(a.outcome.value));
        assert t.runs[a.id := row] == s.runs[a.id := row];
      } else {
        ApplyTwo(s, Begin(a.id), Fail);
        assert t.runs[a.id := Run(Failed, 0)] == s.runs[a.id := Run(Failed, 0)];
      }
    }
  }

  predicate Succeeds(s: State, a: Attempt)
  {
    IsSuccess(s.runs, a.id) || a.outcome.Some?
  }

  /** A failed attempt leaves every published table alone, a successful one promotes its
      run, and repeating a successful attempt, whatever it would now compute, changes nothing. */
  lemma AttemptIsAtomicAndIdempotent(s: State, a: Attempt, again: Attempt)
    requires Sound(s) && s.active.None? && WellFormed(a) && again.id == a.id
    ensures var t := AfterAttempt(s, a);
      && Sound(t) && Keeps(s, t)
      && (Succeeds(s, a) <==> IsSuccess(t.runs, a.id))
      && (Succeeds(s, a) ==> AfterAttempt(t, again) == t)
      && (!Succeeds(s, a) ==> t == s.(runs := s.runs[a.id := Run(Failed, 0)]))
  {
    AttemptIsARun(s, a);
    StepsKeepSound(s, AttemptSteps(s, a));
  }

  /** After a successful call the returned run is the current generation of its partition
      exactly when the call computed it, or it was current before: a run found already
      successful is returned without being promoted again. */
  lemma ReturnedRunIsCurrentWhen(s: State, a: Attempt)
    requires Succeeds(s, a)
    ensures var p, t := PartitionOf(a.id), AfterAttempt(s, a);
      (p in t.current && t.current[p] == a.id)
      <==> (!IsSuccess(s.runs, a.id) || (p in s.current && s.current[p] == a.id))
  {
  }

  /** Inputs that change and change back: the first run is returned as done while the
      second remains the current generation. */
  lemma RevertedInputsKeepNewerGeneration(hash: string, other: string)
    requires hash != other
    ensures var a := Attempt(AnalysisPartitionIdentity("r", 0, "1", "1", [hash]), Some([]));
      var b := Attempt(AnalysisPartitionIdentity("r", 0, "1", "1", [other]), Some([]));
      var t := AfterAttempt(AfterAttempt(EMPTY, a), b);
      && WellFormed(a) && WellFormed(b)
      && Succeeds(t, a)
      && AfterAttempt(t, a).current[Partition("r", 0)] == b.id != a.id
  {
    PartitionIdentityIgnoresOrder("r", 0, "1", "1", [hash], "r", 0, "1", "1", [other]);
    assert multiset([hash])[hash] == 1 && multiset([other])[hash] == 0;
  }

  // ---------- A pending pass ----------

  function AfterPass(s: State, work: seq<Attempt>): (t: State)
    ensures t.active == s.active
  {
    if work == [] then s
    else AfterAttempt(AfterPass(s, work[..|work| - 1]), work[|work| - 1])
  }

  // Run identities whose attempt succeeded, in order.
  function Returned(s: State, work: seq<Attempt>): seq<RunId>
  {
    if work == [] then []
    else
      var before, last := work[..|work| - 1], work[|work| - 1];
      Returned(s, before) + if Succeeds(AfterPass(s, before), last) then [last.id] else []
  }

  function EpisodeTotal(runs: map<RunId, Run>, ids: seq<RunId>): nat
  {
    if ids == [] then 0
    else
      var last := ids[|ids| - 1];
      EpisodeTotal(runs, ids[..|ids| - 1]) + if last in runs then runs[last].episodes else 0
  }

  ghost predicate SuccessesKept(runs: map<RunId, Run>, runs': map<RunId, Run>)
  {
    forall id :: IsSuccess(runs, id) ==> IsSuccess(runs', id) && runs'[id] == runs[id]
  }

  lemma AttemptKeepsSuccesses(s: State, a: Attempt)
    ensures SuccessesKept(s.runs, AfterAttempt(s, a).runs)
  {
  }

  lemma {:induction false} EpisodeTotalKept(runs: map<RunId, Run>, runs': map<RunId, Run>, ids: seq<RunId>)
    requires SuccessesKept(runs, runs') && forall id :: id in ids ==> IsSuccess(runs, id)
    ensures EpisodeTotal(runs', ids) == EpisodeTotal(runs, ids)
  {
    if ids != [] {
      EpisodeTotalKept(runs, runs', ids[..|ids| - 1]);
      assert IsSuccess(runs, ids[|ids| - 1]);
    }
  }

  /** Whatever fails along the way, a pass keeps the store sound, rewrites nothing it
      published, and every run it returns is a success. */
  lemma {:induction false} PassKeepsSound(s: State, work: seq<Attempt>)
    requires Sound(s) && s.active.None? && forall a :: a in work ==> WellFormed(a)
    ensures var t := AfterPass(s, work);
      && Sound(t) && Keeps(s, t)
      && (forall id :: id in Returned(s, work) ==> IsSuccess(t.runs, id))
  {
    if work != [] {
      var before, last := work[..|work| - 1], work[|work| - 1];
      PassKeepsSound(s, before);
      var t := AfterPass(s, before);
      AttemptIsAtomicAndIdempotent(t, last, last);
      KeepsTransitive(s, t, AfterAttempt(t, last));
    }
  }

  function Ids(work: seq<Attempt>): (r: seq<RunId>)
    ensures |r| == |work|
  {
    seq(|work|, i requires 0 <= i < |work| => work[i].id)
  }

  /** A pass over runs that all succeeded before changes nothing, yet reports every one of
      them again, and with them their whole episode count. */
  lemma {:induction false} SecondPassReportsAgain(s: State, work: seq<Attempt>)
    requires forall a :: a in work ==> IsSuccess(s.runs, a.id)
    ensures AfterPass(s, work) == s && Returned(s, work) == Ids(work)
  {
    if work != [] {
      var before, last := work[..|work| - 1], work[|work| - 1];
      assert last in work;
      SecondPassReportsAgain(s, before);
      assert Ids(work) == Ids(before) + [last.id];
    }
  }

  // ---------- The episode figure against the episode table ----------

  function TrackIds(tracks: seq<Episode>): (r: seq<RevisionId>)
    ensures |r| == |tracks| && forall i :: 0 <= i < |r| ==> r[i] == tracks[i].id
  {
    seq(|tracks|, i requires 0 <= i < |tracks| => tracks[i].id)
  }

  // Every insert adds a row: no identity comes twice and none is in the table.
  ghost predicate AllNew(table: map<RevisionId, string>, tracks: seq<Episode>)
  {
    Distinct(TrackIds(tracks)) && forall t :: t in tracks ==> t.id !in table
  }

  lemma AllNewCons(table: map<RevisionId, string>, tracks: seq<Episode>)
    requires tracks != []
    ensures AllNew(table, tracks) <==>
      tracks[0].id !in table && AllNew(InsertIfAbsent(table, tracks[0].id, tracks[0].body), tracks[1..])
  {
    var ids, rest := TrackIds(tracks), TrackIds(tracks[1..]);
    assert forall t :: t in tracks <==> t == tracks[0] || t in tracks[1..];
    assert forall i :: 0 <= i < |rest| ==> rest[i] == ids[i + 1];
    if AllNew(table, tracks) {
      forall t | t in tracks[1..]
        ensures t.id != tracks[0].id
      {
        var i :| 0 <= i < |tracks[1..]| && tracks[1..][i] == t;
        assert ids[0] != ids[i + 1];
      }
    }
    if tracks[0].id !in table && AllNew(table[tracks[0].id := tracks[0].body], tracks[1..]) {
      forall i, j | 0 <= i < j < |ids|
        ensures ids[i] != ids[j]
      {
        assert tracks[1..][j - 1] in tracks[1..];
        if i > 0 {
          assert rest[i - 1] != rest[j - 1];
        }
      }
    }
  }

  lemma {:induction false} InsertGrowth(table: map<RevisionId, string>, tracks: seq<Episode>)
    ensures |InsertEpisodes(table, tracks)| <= |table| + |tracks|
    ensures |InsertEpisodes(table, tracks)| == |table| + |tracks| <==> AllNew(table, tracks)
    decreases |tracks|
  {
    if tracks != [] {
      var next := InsertIfAbsent(table, tracks[0].id, tracks[0].body);
      assert |next| == |table| + if tracks[0].id in table then 0 else 1;
      InsertGrowth(next, tracks[1..]);
      AllNewCons(table, tracks);
    }
  }

  // An attempt adds as many episodes as it reports: its run was no success with episodes
  // before, and the tracks it promotes have different identities.
  ghost predicate ReportsGrowth(s: State, a: Attempt)
  {
    if IsSuccess(s.runs, a.id) then s.runs[a.id].episodes == 0
    else a.outcome.Some? ==> Distinct(TrackIds(a.outcome.value))
  }

  function Reported(s: State, a: Attempt): nat
  {
    if !Succeeds(s, a) then 0 else if IsSuccess(s.runs, a.id) then s.runs[a.id].episodes else |a.outcome.value|
  }

  lemma AttemptGrowth(s: State, a: Attempt)
    requires Sound(s) && WellFormed(a)
    ensures |s.episodes| <= |AfterAttempt(s, a).episodes| <= |s.episodes| + Reported(s, a)
    ensures |AfterAttempt(s, a).episodes| == |s.episodes| + Reported(s, a) <==> ReportsGrowth(s, a)
  {
    if !IsSuccess(s.runs, a.id) && a.outcome.Some? {
      InsertGrowth(s.episodes, a.outcome.value);
      InsertEpisodesKeeps(s.episodes, a.outcome.value);
      SubmapSize(s.episodes, InsertEpisodes(s.episodes, a.outcome.value));
      forall t | t in a.outcome.value
        ensures t.id !in s.episodes
      {
        assert t.id.run == a.id;
      }
    }
  }

  lemma SubmapSize(small: map<RevisionId, string>, large: map<RevisionId, string>)
    requires forall e :: e in small ==> e in large
    ensures |small| <= |large|
  {
    SubsetSize(small.Keys, large.Keys);
  }

  ghost predicate ReportsGrowthAt(s: State, work: seq<Attempt>, i: nat)
    requires i < |work|
  {
    ReportsGrowth(AfterPass(s, work[..i]), work[i])
  }

  ghost predicate AllReportGrowth(s: State, work: seq<Attempt>)
  {
    forall i :: 0 <= i < |work| ==> ReportsGrowthAt(s, work, i)
  }

  lemma {:induction false} AllReportGrowthSnoc(s: State, before: seq<Attempt>, last: Attempt)
    ensures AllReportGrowth(s, before + [last]) <==>
      AllReportGrowth(s, before) && ReportsGrowth(AfterPass(s, before), last)
  {
    var work, n := before + [last], |before|;
    forall i | 0 <= i < n
      ensures ReportsGrowthAt(s, work, i) <==> ReportsGrowthAt(s, before, i)
    {
      assert work[..i] == before[..i];
    }
    assert work[..n] == before;
    assert ReportsGrowthAt(s, work, n) <==> ReportsGrowth(AfterPass(s, before), last);
  }

  /** The episode figure of a pass is the growth of the episode table exactly when no run it
      returns was, at its turn, already a success with episodes, and no promoted attempt
      repeats a track identity; otherwise the figure is too large. */
  lemma {:induction false} FigureIsGrowthWhen(s: State, work: seq<Attempt>)
    requires Sound(s) && s.active.None? && forall a :: a in work ==> WellFormed(a)
    ensures var t := AfterPass(s, work);
      var figure := EpisodeTotal(t.runs, Returned(s, work));
      && |t.episodes| <= |s.episodes| + figure
      && (|t.episodes| == |s.episodes| + figure <==> AllReportGrowth(s, work))
  {
    if work != [] {
      var n := |work| - 1;
      var before, last := work[..n], work[n];
      FigureIsGrowthWhen(s, before);
      FigureFitsSnoc(s, before, last);
      assert before + [last] == work;
      assert FigureFits(s, work);
    }
  }

  ghost predicate FigureFits(s: State, work: seq<Attempt>)
  {
    var t, figure := AfterPass(s, work), EpisodeTotal(AfterPass(s, work).runs, Returned(s, work));
    && |t.episodes| <= |s.episodes| + figure
    && (|t.episodes| == |s.episodes| + figure <==> AllReportGrowth(s, work))
  }

  lemma {:induction false} FigureFitsSnoc(s: State, before: seq<Attempt>, last: Attempt)
    requires Sound(s) && s.active.None? && WellFormed(last) && forall a :: a in before ==> WellFormed(a)
    requires FigureFits(s, before)
    ensures FigureFits(s, before + [last])
  {
    GrowthInPass(s, before, last);
    FigureStep(s, before, last);
    AllReportGrowthSnoc(s, before, last);
  }

  lemma {:induction false} GrowthInPass(s: State, before: seq<Attempt>, last: Attempt)
    requires Sound(s) && s.active.None? && WellFormed(last) && forall a :: a in before ==> WellFormed(a)
    ensures var t := AfterPass(s, before);
      && |t.episodes| <= |AfterAttempt(t, last).episodes| <= |t.episodes| + Reported(t, last)
      && (|AfterAttempt(t, last).episodes| == |t.episodes| + Reported(t, last) <==> ReportsGrowth(t, last))
  {
    PassKeepsSound(s, before);
    AttemptGrowth(AfterPass(s, before), last);
  }

  lemma {:induction false} ReturnedSucceeded(s: State, work: seq<Attempt>)
    ensures forall id :: id in Returned(s, work) ==> IsSuccess(AfterPass(s, work).runs, id)
  {
    if work != [] {
      ReturnedSucceeded(s, work[..|work| - 1]);
      AttemptKeepsSuccesses(AfterPass(s, work[..|work| - 1]), work[|work| - 1]);
    }
  }

  // One more attempt adds what it reports to the figure.
  lemma {:induction false} FigureStep(s: State, before: seq<Attempt>, last: Attempt)
    ensures var work, t := before + [last], AfterPass(s, before);
      EpisodeTotal(AfterPass(s, work).runs, Returned(s, work)) == EpisodeTotal(t.runs, Returned(s, before)) + Reported(t, last)
  {
    var work, t := before + [last], AfterPass(s, before);
    assert work[..|before|] == before;
    ReturnedSucceeded(s, before);
    AttemptKeepsSuccesses(t, last);
    EpisodeTotalKept(t.runs, AfterAttempt(t, last).runs, Returned(s, before));
    if Succeeds(t, last) {
      EpisodeTotalSnoc(AfterAttempt(t, last).runs, Returned(s, before), last.id);
    } else {
      assert Returned(s, before) + [] == Returned(s, before);
    }
  }

  lemma SuccessStep(s: State, a: Attempt, id: RunId)
    ensures IsSuccess(AfterAttempt(s, a).runs, id) <==> IsSuccess(s.runs, id) || (a.id == id && a.outcome.Some?)
  {
  }

  /** A run is already a success at its turn exactly when it was one before the pass or an
      earlier attempt of the same run in the pass went through. */
  lemma {:induction false} AlreadySuccessWhen(s: State, work: seq<Attempt>, id: RunId)
    ensures IsSuccess(AfterPass(s, work).runs, id) <==>
      IsSuccess(s.runs, id) || exists i :: 0 <= i < |work| && work[i].id == id && work[i].outcome.Some?
  {
    if work != [] {
      var n := |work| - 1;
      AlreadySuccessWhen(s, work[..n], id);
      SuccessStep(AfterPass(s, work[..n]), work[n], id);
      assert forall i :: 0 <= i < n ==> work[..n][i] == work[i];
    }
  }

  /** Two passes over one partition with one episode: the first reports its one new row,
      the second adds no row and reports one again. */
  lemma SecondPassCountsAgain()
    ensures var work := [Attempt(RUN, Some([TRACK]))];
      var first := AfterPass(EMPTY, work);
      var second := AfterPass(first, work);
      && |first.episodes| == 1 && second == first
      && EpisodeTotal(first.runs, Returned(EMPTY, work)) == 1
      && EpisodeTotal(second.runs, Returned(first, work)) == 1
  {
    var a := Attempt(RUN, Some([TRACK]));
    OnePass(EMPTY, a);
    AttemptIsARun(EMPTY, a);
    OnePromotionTables();
    ApplyTwo(EMPTY, Begin(RUN), Promote([TRACK]));
    assert AfterAttempt(EMPTY, a) == OnePromotion();
    OnePass(OnePromotion(), a);
  }

  lemma {:induction false} OnePass(s: State, a: Attempt)
    ensures AfterPass(s, [a]) == AfterAttempt(s, a)
    ensures Returned(s, [a]) == if Succeeds(s, a) then [a.id] else []
    ensures Succeeds(s, a) ==> EpisodeTotal(AfterAttempt(s, a).runs, Returned(s, [a])) == Reported(s, a)
  {
    assert [a][..0] == [] && AfterPass(s, []) == s;
    assert Returned(s, []) == [];
    if Succeeds(s, a) {
      EpisodeTotalSnoc(AfterAttempt(s, a).runs, [], a.id);
      assert [] + [a.id] == [a.id];
    }
  }

  // ---------- The store ----------

  method InsertTracks(table: map<RevisionId, string>, tracks: seq<Episode>) returns (r: map<RevisionId, string>, count: nat)
    ensures r == InsertEpisodes(table, tracks) && count == |tracks|
  {
    r, count := table, 0;
    for i := 0 to |tracks|
      invariant count == i
      invariant InsertEpisodes(table, tracks) == InsertEpisodes(r, tracks[i..])
    {
      assert tracks[i..][0] == tracks[i] && tracks[i..][1..] == tracks[i + 1..];
      r := InsertIfAbsent(r, tracks[i].id, tracks[i].body);
      count := count + 1;
    }
  }

  lemma {:induction false} PassStep(s: State, work: seq<Attempt>, i: nat)
    requires i < |work|
    ensures AfterPass(s, work[..i + 1]) == AfterAttempt(AfterPass(s, work[..i]), work[i])
    ensures Returned(s, work[..i + 1])
         == Returned(s, work[..i]) + if Succeeds(AfterPass(s, work[..i]), work[i]) then [work[i].id] else []
  {
    assert work[..i + 1][..i] == work[..i];
  }

  lemma {:induction false} EpisodeTotalSnoc(runs: map<RunId, Run>, ids: seq<RunId>, id: RunId)
    requires id in runs
    ensures EpisodeTotal(runs, ids + [id]) == EpisodeTotal(runs, ids) + runs[id].episodes
  {
    assert (ids + [id])[..|ids|] == ids;
  }

  class Store {
    const digest: ValidationId -> string
    var runs: map<RunId, Run>
    var current: Generations
    var episodes: map<RevisionId, string>
    var mart: set<RevisionId>
    var validations: map<ValidationId, Validation>
    var dirs: map<string, Manifest>
    var releases: map<ReleaseId, ReleaseRow>
    ghost var gated: set<ReleaseId>

    ghost function Tables(): State
      reads this
    {
      State(runs, current, episodes, mart, validations, dirs, releases, None, {}, {}, gated)
    }

    constructor (digest: ValidationId -> string)
      ensures Tables() == EMPTY && this.digest == digest
    {
      this.digest := digest;
      runs, current, episodes, validations, dirs, releases := map[], map[], map[], map[], map[], map[];
      mart, gated := {}, {};
    }

    /** One partition. The failure branch runs outside the transaction that was rolled back. */
    method RunAnalysisPartition(a: Attempt) returns (r: Result<nat, AttemptError>)
      modifies this
      ensures Tables() == AfterAttempt(old(Tables()), a)
      ensures r.Ok? <==> Succeeds(old(Tables()), a)
      ensures r.Ok? ==> IsSuccess(runs, a.id) && r.value == runs[a.id].episodes
    {
      if a.id in runs && runs[a.id].status == Success {
        return Ok(runs[a.id].episodes);
      }
      ghost var before := runs;
      runs := runs[a.id := Run(Running, 0)];
      if a.outcome.None? {
        runs := runs[a.id := runs[a.id].(status := Failed)];
        assert runs == before[a.id := Run(Failed, 0)];
        return Err(AnalysisFailed);
      }
      var committed, count := InsertTracks(episodes, a.outcome.value);
      episodes := committed;
      runs := runs[a.id := Run(Success, count)];
      assert runs == before[a.id := Run(Success, count)];
      current := current[PartitionOf(a.id) := a.id];
      r := Ok(count);
    }

    /** Every partition is tried, whatever happened to the ones before it. The episode
        figure is the stored count of every returned run, inserted now or earlier. */
    method RunPendingAnalysis(work: seq<Attempt>) returns (m: AnalysisMetrics, ok: bool)
      modifies this
      ensures Tables() == AfterPass(old(Tables()), work)
      ensures m.generationIds == Returned(old(Tables()), work)
      ensures m.succeeded == |m.generationIds| && m.succeeded + m.failed == |work|
      ensures m.episodes == EpisodeTotal(runs, m.generationIds)
      ensures Sound(old(Tables())) && (forall a :: a in work ==> WellFormed(a)) ==>
        && |episodes| <= |old(episodes)| + m.episodes
        && (|episodes| == |old(episodes)| + m.episodes <==> AllReportGrowth(old(Tables()), work))
      ensures ok <==> m.failed == 0
    {
      ghost var start := Tables();
      m := TryEach(work);
      ok := m.failed == 0;
      if Sound(start) && forall a :: a in work ==> WellFormed(a) {
        FigureIsGrowthWhen(start, work);
      }
    }

    method TryEach(work: seq<Attempt>) returns (m: AnalysisMetrics)
      modifies this
      ensures Tables() == AfterPass(old(Tables()), work)
      ensures m.generationIds == Returned(old(Tables()), work)
      ensures m.succeeded == |m.generationIds| && m.succeeded + m.failed == |work|
      ensures m.episodes == EpisodeTotal(runs, m.generationIds)
    {
      ghost var start := Tables();
      var succeeded, failed, count, ids: seq<RunId> := 0, 0, 0, [];
      for i := 0 to |work|
        invariant succeeded == |ids| && succeeded + failed == i
        invariant Tables() == AfterPass(start, work[..i])
        invariant ids == Returned(start, work[..i])
        invariant count == EpisodeTotal(runs, ids)
      {
        PassStep(start, work, i);
        FigureStep(start, work[..i], work[i]);
        TakeSnoc(work, i);
        var r := RunAnalysisPartition(work[i]);
        match r {
          case Ok(n) =>
            succeeded, count, ids := succeeded + 1, count + n, ids + [work[i].id];
          case Err(_) =>
            failed := failed + 1;
        }
      }
      assert work[..|work|] == work;
      m := AnalysisMetrics(succeeded, failed, count, ids);
    }

    // The dbt build of the episode table.
    method BuildEpisodes(rows: set<RevisionId>)
      requires Enabled(Tables(), BuildMart(rows))
      modifies this`mart
      ensures Tables() == Apply(old(Tables()), BuildMart(rows))
    {
      mart := rows;
    }

    /** The verdict binds to the generations current at this call. */
    method RunValidation(benchmark: string, metrics: Metrics, thresholds: Thresholds, now: int) returns (id: ValidationId, passed: bool)
      modifies this
      ensures Tables() == Apply(old(Tables()), Validate(benchmark, metrics, thresholds, now))
      ensures id == ValidationId(benchmark, current, metrics) && id in validations
      ensures id !in old(validations) ==> validations[id] == Validation(current, passed, now)
      ensures passed <==>
        && metrics.precision.Some? && metrics.precision.value >= thresholds.precision
        && metrics.recall.Some? && metrics.recall.value >= thresholds.recall
        && metrics.top1.Some? && metrics.top1.value >= thresholds.top1
      ensures validations[id].passed == passed <==> (id !in old(validations) || old(validations)[id].passed == passed)
    {
      id := ValidationId(benchmark, current, metrics);
      passed := Passes(metrics, thresholds);
      if id !in validations {
        validations := validations[id := Validation(current, passed, now)];
      }
    }

    // The validation a release is gated on: the one asked for, or the newest.
    method ChooseValidation(requested: Option<ValidationId>) returns (chosen: Option<ValidationId>)
      ensures Chooses(digest, validations, requested, chosen)
    {
      if requested.Some? {
        return if requested.value in validations then requested else None;
      }
      if validations == map[] {
        return None;
      }
      ghost var some := Member(validations.Keys);
      var newest :| newest in validations.Keys;
      var todo := validations.Keys - {newest};
      NotAfterPreorder(digest, validations, newest, newest);
      while todo != {}
        invariant newest in validations && todo <= validations.Keys
        invariant forall v :: v in validations && v !in todo ==> NotAfter(digest, validations, v, newest)
        decreases todo
      {
        ghost var another := Member(todo);
        var v :| v in todo;
        NotAfterPreorder(digest, validations, newest, v);
        NotAfterPreorder(digest, validations, v, v);
        if !NotAfter(digest, validations, v, newest) {
          newest := v;
        }
        todo := todo - {v};
      }
      chosen := Some(newest);
    }

    /** Gate, write, rename into place, record. `files` is what the export produced, if it
        did; `recorded` tells whether the insert that follows the rename goes through. A failed
        insert leaves the release directory in place and nothing else. */
    method BuildRelease(version: string, requested: Option<ValidationId>, gate: bool,
                        contract: string, algorithm: string, package: string, files: Option<string>,
                        recorded: bool)
      returns (r: Result<ReleaseRow, ReleaseError>, chosen: Option<ValidationId>)
      modifies this`dirs, this`releases, this`gated
      ensures Chooses(digest, old(validations), requested, chosen)
      ensures r == Err(UnsafeVersion) <==> !IsPathComponent(version)
      ensures r == if recorded then Outcome(old(Tables()), version, chosen, gate, contract, algorithm, package, files)
                   else Unrecorded(Outcome(old(Tables()), version, chosen, gate, contract, algorithm, package, files))
      ensures r.Err? && r.error != NotRecorded ==> Tables() == old(Tables())
      ensures r == Err(NotRecorded) ==>
        var b := Build(Outcome(old(Tables()), version, chosen, gate, contract, algorithm, package, files).value.manifest, gate);
        LeftInPlace(old(Tables()), b, Tables())
      ensures r.Ok? ==> Recorded(old(Tables()), Build(r.value.manifest, gate), Tables())
    {
      SafeVersionIs(version);
      chosen := ChooseValidation(requested);
      if !SafeVersion(version) {
        return Err(UnsafeVersion), chosen;
      }
      if gate && (chosen.None? || !validations[chosen.value].passed) {
        return Err(NotPassing), chosen;
      }
      if current == map[] {
        return Err(NoGeneration), chosen;
      }
      if chosen.Some? && validations[chosen.value].generations != current {
        return Err(StaleValidation), chosen;
      }
      if files.None? {
        return Err(ExportFailed), chosen;
      }
      var manifest := Manifest(ReleaseId(version, current, chosen, contract, algorithm, package), files.value, mart);
      if version in dirs && dirs[version] != manifest {
        return Err(VersionTaken), chosen;
      }
      r := PlaceAndRecord(manifest, gate, recorded);
    }

    // The rename and the insert.
    method PlaceAndRecord(manifest: Manifest, gate: bool, recorded: bool) returns (r: Result<ReleaseRow, ReleaseError>)
      requires MayPrepare(Tables(), Build(manifest, gate))
      requires manifest.id.version in dirs ==> dirs[manifest.id.version] == manifest
      modifies this`dirs, this`releases, this`gated
      ensures r == if recorded then Ok(RowOf(manifest)) else Err(NotRecorded)
      ensures !recorded ==> LeftInPlace(old(Tables()), Build(manifest, gate), Tables())
      ensures recorded ==> Recorded(old(Tables()), Build(manifest, gate), Tables())
    {
      ghost var start := Tables();
      dirs := dirs[manifest.id.version := manifest];
      if !recorded {
        UnrecordedStepsOutcome(start, Build(manifest, gate));
        return Err(NotRecorded);
      }
      if manifest.id !in releases {
        releases := releases[manifest.id := RowOf(manifest)];
      }
      if gate {
        gated := gated + {manifest.id};
      }
      ReleaseStepsOutcome(start, Build(manifest, gate));
      r := Ok(RowOf(manifest));
    }
  }

  // What a release that is not recorded leaves: its directory, by steps of the machine.
  ghost predicate LeftInPlace(s: State, b: Build, t: State)
  {
    && t == s.(dirs := s.dirs[b.manifest.id.version := b.manifest])
    && AllEnabled(s, [Prepare(b), Place(b), Abandon(b)]) && t == ApplyAll(s, [Prepare(b), Place(b), Abandon(b)])
  }

  // A whole release as steps of the machine.
  ghost predicate Recorded(s: State, b: Build, t: State)
  {
    AllEnabled(s, [Prepare(b), Place(b), Record(b)]) && t == ApplyAll(s, [Prepare(b), Place(b), Record(b)])
  }

  // ---------- Releases ----------

  predicate HasParentPath(version: string)
  {
    |version| >= 2 && (version[..2] == ".." || HasParentPath(version[1..]))
  }

  // A name for one directory: not empty, no slash, and no two dots in a row.
  ghost predicate IsPathComponent(version: string)
  {
    && version != ""
    && (forall i :: 0 <= i < |version| ==> version[i] != '/')
    && !exists i, j :: 0 <= i < j < |version| && j == i + 1 && version[i] == '.' && version[j] == '.'
  }

  lemma {:induction false} ParentPathIsTwoDots(version: string)
    ensures HasParentPath(version) <==>
      exists i, j :: 0 <= i < j < |version| && j == i + 1 && version[i] == '.' && version[j] == '.'
  {
    if |version| >= 2 {
      ParentPathIsTwoDots(version[1..]);
      assert version[..2] == ".." <==> version[0] == '.' && version[1] == '.';
      if i, j :| 0 <= i < j < |version| && j == i + 1 && version[i] == '.' && version[j] == '.' {
        assert i > 0 ==> version[1..][i - 1] == '.' && version[1..][j - 1] == '.';
      }
      if i, j :| 0 <= i < j < |version[1..]| && j == i + 1 && version[1..][i] == '.' && version[1..][j] == '.' {
        assert version[i + 1] == '.' && version[j + 1] == '.';
      }
    }
  }

  lemma SafeVersionIs(version: string)
    ensures SafeVersion(version) <==> IsPathComponent(version)
  {
    ParentPathIsTwoDots(version);
  }

  predicate SafeVersion(version: string)
  {
    version != "" && '/' !in version && !HasParentPath(version)
  }

  // ORDER BY completed_at, validation_run_id.
  predicate NotAfter(digest: ValidationId -> string, validations: map<ValidationId, Validation>, a: ValidationId, b: ValidationId)
    requires a in validations && b in validations
  {
    if validations[a].completedAt != validations[b].completedAt then validations[a].completedAt < validations[b].completedAt
    else TextLeq(digest(a), digest(b))
  }

  lemma NotAfterPreorder(digest: ValidationId -> string, validations: map<ValidationId, Validation>, a: ValidationId, b: ValidationId)
    requires a in validations && b in validations
    ensures NotAfter(digest, validations, a, b) || NotAfter(digest, validations, b, a)
    ensures forall v :: v in validations && NotAfter(digest, validations, v, a) && NotAfter(digest, validations, a, b) ==>
      NotAfter(digest, validations, v, b)
  {
    TextLeqPreorder();
  }

  // The validation asked for, if it is there; without a request, the newest of all.
  ghost predicate Chooses(digest: ValidationId -> string, validations: map<ValidationId, Validation>,
                          requested: Option<ValidationId>, chosen: Option<ValidationId>)
  {
    && (chosen.Some? ==> chosen.value in validations)
    && if requested.Some? then chosen == if requested.value in validations then requested else None
       else if validations == map[] then chosen == None
       else chosen.Some? && forall v :: v in validations ==>
         var time, latest := validations[v].completedAt, validations[chosen.value].completedAt;
         time < latest || (time == latest && TextLeq(digest(v), digest(chosen.value)))
  }

  /** The tables determine the choice. */
  lemma ChoiceIsUnique(digest: ValidationId -> string, validations: map<ValidationId, Validation>,
                       requested: Option<ValidationId>, a: Option<ValidationId>, b: Option<ValidationId>)
    requires forall x, y :: digest(x) == digest(y) ==> x == y
    requires Chooses(digest, validations, requested, a) && Chooses(digest, validations, requested, b)
    ensures a == b
  {
    if requested.None? && validations != map[] {
      TextLeqAntisymmetric(digest(a.value), digest(b.value));
    }
  }

  /** A release without an identifier is gated on the validation just made exactly when that
      call stored a row or its row was the newest already: a repeated validation keeps its
      first completion time. */
  lemma JustValidatedIsChosenWhen(digest: ValidationId -> string, s: State, benchmark: string, m: Metrics, t: Thresholds, now: int,
                                  chosen: Option<ValidationId>)
    requires forall x, y :: digest(x) == digest(y) ==> x == y
    requires forall v :: v in s.validations ==> s.validations[v].completedAt < now
    requires Chooses(digest, Apply(s, Validate(benchmark, m, t, now)).validations, None, chosen)
    ensures var id := ValidationId(benchmark, s.current, m);
      chosen == Some(id) <==> id !in s.validations || Chooses(digest, s.validations, None, Some(id))
  {
    var id, after := ValidationId(benchmark, s.current, m), Apply(s, Validate(benchmark, m, t, now)).validations;
    assert id in after && after != map[];
    if id !in s.validations {
      assert after[id].completedAt <= after[chosen.value].completedAt;
    } else if Chooses(digest, s.validations, None, Some(id)) {
      ChoiceIsUnique(digest, after, None, chosen, Some(id));
    }
  }

  /** Metrics that come, change and come back: the last call reports a pass, and the release
      is gated on the failure in between. */
  lemma RepeatedValidationIsNotChosen(digest: ValidationId -> string, chosen: Option<ValidationId>)
    requires forall x, y :: digest(x) == digest(y) ==> x == y
    requires var t := Thresholds(0.7, 0.5, 0.7);
      var s := Apply(Apply(OnePromotion(), Validate("b", MEASURED, t, 1)), Validate("b", MEASURED.(top1 := Some(0.5)), t, 2));
      Chooses(digest, Apply(s, Validate("b", MEASURED, t, 3)).validations, None, chosen)
    ensures MeetsThresholds(MEASURED, Thresholds(0.7, 0.5, 0.7))
    ensures chosen == Some(ValidationId("b", OnePromotion().current, MEASURED.(top1 := Some(0.5))))
  {
    var t, g := Thresholds(0.7, 0.5, 0.7), OnePromotion().current;
    OnePromotionTables();
    var first, between := ValidationId("b", g, MEASURED), ValidationId("b", g, MEASURED.(top1 := Some(0.5)));
    assert first != between;
    var s := Apply(Apply(OnePromotion(), Validate("b", MEASURED, t, 1)), Validate("b", MEASURED.(top1 := Some(0.5)), t, 2));
    assert s.validations == map[first := Validation(g, true, 1), between := Validation(g, false, 2)];
    assert NotAfter(digest, s.validations, between, chosen.value);
  }

  // The answer of a release call, read off the tables alone.
  function Outcome(s: State, version: string, chosen: Option<ValidationId>, gate: bool,
                   contract: string, algorithm: string, package: string, files: Option<string>): Result<ReleaseRow, ReleaseError>
    requires chosen.Some? ==> chosen.value in s.validations
  {
    if !SafeVersion(version) then Err(UnsafeVersion)
    else if gate && (chosen.None? || !s.validations[chosen.value].passed) then Err(NotPassing)
    else if s.current == map[] then Err(NoGeneration)
    else if chosen.Some? && s.validations[chosen.value].generations != s.current then Err(StaleValidation)
    else if files.None? then Err(ExportFailed)
    else
      var manifest := Manifest(ReleaseId(version, s.current, chosen, contract, algorithm, package), files.value, s.mart);
      if version in s.dirs && s.dirs[version] != manifest then Err(VersionTaken)
      else Ok(RowOf(manifest))
  }

  // The answer when the insert fails: an error where the call would have succeeded.
  function Unrecorded(outcome: Result<ReleaseRow, ReleaseError>): Result<ReleaseRow, ReleaseError>
  {
    if outcome.Ok? then Err(NotRecorded) else outcome
  }

  lemma {:induction false} ReleaseStepsOutcome(s: State, b: Build)
    requires MayPrepare(s, b) && s.built == {} && s.placed == {}
    requires b.manifest.id.version in s.dirs ==> s.dirs[b.manifest.id.version] == b.manifest
    ensures AllEnabled(s, [Prepare(b), Place(b), Record(b)])
    ensures ApplyAll(s, [Prepare(b), Place(b), Record(b)]) ==
      s.(dirs := s.dirs[b.manifest.id.version := b.manifest],
         releases := InsertIfAbsent(s.releases, b.manifest.id, RowOf(b.manifest)),
         gated := if b.gated then s.gated + {b.manifest.id} else s.gated)
  {
    var steps := [Prepare(b), Place(b), Record(b)];
    var s1 := Apply(s, steps[0]);
    var s2 := Apply(s1, steps[1]);
    var s3 := Apply(s2, steps[2]);
    assert steps[1..] == [Place(b), Record(b)] && [Place(b), Record(b)][1..] == [Record(b)] && [Record(b)][1..] == [];
    assert AllEnabled(s3, []) && AllEnabled(s2, [Record(b)]) && AllEnabled(s1, [Place(b), Record(b)]);
    assert {b} - {b} == {};
    assert s1.built - {b} == {} && s2.placed - {b} == {};
    assert ApplyAll(s2, [Record(b)]) == s3;
  }

  lemma {:induction false} UnrecordedStepsOutcome(s: State, b: Build)
    requires MayPrepare(s, b) && s.built == {} && s.placed == {}
    requires b.manifest.id.version in s.dirs ==> s.dirs[b.manifest.id.version] == b.manifest
    ensures AllEnabled(s, [Prepare(b), Place(b), Abandon(b)])
    ensures ApplyAll(s, [Prepare(b), Place(b), Abandon(b)]) == s.(dirs := s.dirs[b.manifest.id.version := b.manifest])
  {
    var steps := [Prepare(b), Place(b), Abandon(b)];
    var s1 := Apply(s, steps[0]);
    var s2 := Apply(s1, steps[1]);
    var s3 := Apply(s2, steps[2]);
    assert steps[1..] == [Place(b), Abandon(b)] && [Place(b), Abandon(b)][1..] == [Abandon(b)] && [Abandon(b)][1..] == [];
    assert AllEnabled(s3, []) && AllEnabled(s2, [Abandon(b)]) && AllEnabled(s1, [Place(b), Abandon(b)]);
    assert s1.built - {b} == {} && s2.built - {b} == {} && s2.placed - {b} == {};
    assert ApplyAll(s2, [Abandon(b)]) == s3;
  }

  /** After an insert that failed, whatever promotions, validations and dbt builds came since, a
      retry of the call succeeds exactly when it would publish the same manifest: the current
      generations, the chosen validation, the exported episodes and the files are what they were. */
  lemma RetryAfterFailedRecord(s: State, u: State, version: string, chosen: Option<ValidationId>, now: Option<ValidationId>,
                               gate: bool, contract: string, algorithm: string, package: string, files: string, retried: string)
    requires (chosen.Some? ==> chosen.value in s.validations) && (now.Some? ==> now.value in u.validations)
    requires Unrecorded(Outcome(s, version, chosen, gate, contract, algorithm, package, Some(files))) == Err(NotRecorded)
    requires var row := Outcome(s, version, chosen, gate, contract, algorithm, package, Some(files)).value;
      KeepsDirs(s.(dirs := s.dirs[version := row.manifest]), u) && KeepsRows(s, u)
    ensures var row := Outcome(s, version, chosen, gate, contract, algorithm, package, Some(files)).value;
      var again := Outcome(u, version, now, gate, contract, algorithm, package, Some(retried));
      && (again.Ok? <==> u.current == s.current && now == chosen && u.mart == s.mart && retried == files)
      && (again.Ok? ==> again == Ok(row))
  {
    var row := Outcome(s, version, chosen, gate, contract, algorithm, package, Some(files)).value;
    var placed := s.(dirs := s.dirs[version := row.manifest]);
    assert version in placed.dirs && placed.dirs[version] == row.manifest;
    assert u.dirs[version] == row.manifest;
  }

  /** After a release, or after a crash between the rename and the row, the same call on
      unchanged tables succeeds with the same row; a different manifest never replaces it. */
  lemma VersionIsWrittenOnce(s: State, version: string, chosen: Option<ValidationId>, gate: bool,
                             contract: string, algorithm: string, package: string, files: string, other: string)
    requires chosen.Some? ==> chosen.value in s.validations
    requires Outcome(s, version, chosen, gate, contract, algorithm, package, Some(files)).Ok?
    ensures var row := Outcome(s, version, chosen, gate, contract, algorithm, package, Some(files)).value;
      var placed := s.(dirs := s.dirs[version := row.manifest]);
      && Outcome(placed, version, chosen, gate, contract, algorithm, package, Some(files)) == Ok(row)
      && (Outcome(placed, version, chosen, gate, contract, algorithm, package, Some(other)) == Err(VersionTaken)
          <==> other != files)
  {
  }
}
