/** Analysis generations, validation runs and releases as one state machine: analysis
    attempts run one at a time (analysis.py), validations and releases interleave with
    them at will (validation.py, release.py), and any of them may stop between steps. */
module Promotion {
  import opened Prelude
  import opened Identities

  datatype Partition = Partition(region: string, date: int)

  function PartitionOf(id: RunId): Partition { Partition(id.region, id.date) }

  datatype Status = Running | Success | Failed

  datatype Run = Run(status: Status, episodes: nat)

  // The table of current generations; its digest is the table.
  type Generations = map<Partition, RunId>

  datatype Metrics = Metrics(
    json: string, precision: Option<real>, recall: Option<real>, top1: Option<real>, ece: Option<real>)

  datatype Thresholds = Thresholds(precision: real, recall: real, top1: real)

  datatype ValidationId = ValidationId(benchmark: string, generations: Generations, metrics: Metrics)

  datatype Validation = Validation(generations: Generations, passed: bool, completedAt: int)

  datatype ReleaseId = ReleaseId(
    version: string, generations: Generations, validation: Option<ValidationId>,
    contract: string, algorithm: string, package: string)

  // The manifest file of a release: the episode rows it exports, and the digests of all its files.
  datatype Manifest = Manifest(id: ReleaseId, files: string, episodes: set<RevisionId>)

  datatype ReleaseRow = ReleaseRow(
    version: string, generations: Generations, validation: Option<ValidationId>, manifest: Manifest)

  datatype Build = Build(manifest: Manifest, gated: bool)

  datatype State = State(
    runs: map<RunId, Run>,
    current: Generations,
    episodes: map<RevisionId, string>,
    mart: set<RevisionId>,   // the published episode table, rebuilt by dbt only
    validations: map<ValidationId, Validation>,
    dirs: map<string, Manifest>,
    releases: map<ReleaseId, ReleaseRow>,
    active: Option<RunId>,
    built: set<Build>,     // directories prepared under a temporary name
    placed: set<Build>,    // directories in place, row not yet written
    gated: set<ReleaseId>) // releases some gated call has completed

  const EMPTY := State(map[], map[], map[], {}, map[], map[], map[], None, {}, {}, {})

  // ---------- Steps ----------

  datatype Episode = Episode(id: RevisionId, body: string)

  datatype Step =
    | Begin(id: RunId)
    | Promote(tracks: seq<Episode>)
    | Fail
    | CrashAnalysis
    | BuildMart(rows: set<RevisionId>)
    | Validate(benchmark: string, metrics: Metrics, thresholds: Thresholds, now: int)
    | Prepare(build: Build)
    | Place(build: Build)
    | Record(build: Build)
    | Abandon(build: Build)

  predicate AtLeast(value: Option<real>, threshold: real)
  {
    value.Some? && value.value >= threshold
  }

  predicate Passes(m: Metrics, t: Thresholds)
  {
    AtLeast(m.precision, t.precision) && AtLeast(m.recall, t.recall) && AtLeast(m.top1, t.top1)
  }

  /** Precision, recall and top-one accuracy are all there, each at least its threshold. */
  ghost predicate MeetsThresholds(m: Metrics, t: Thresholds)
  {
    && m.precision.Some? && t.precision <= m.precision.value
    && m.recall.Some? && t.recall <= m.recall.value
    && m.top1.Some? && t.top1 <= m.top1.value
  }

  predicate IsSuccess(runs: map<RunId, Run>, id: RunId)
  {
    id in runs && runs[id].status == Success
  }

  // INSERT OR IGNORE, row by row.
  function InsertEpisodes(table: map<RevisionId, string>, tracks: seq<Episode>): map<RevisionId, string>
    decreases |tracks|
  {
    if tracks == [] then table
    else
      var rest := if tracks[0].id in table then table else table[tracks[0].id := tracks[0].body];
      InsertEpisodes(rest, tracks[1..])
  }

  // The episode's run is the generation of its partition.
  predicate Belongs(g: Generations, e: RevisionId)
  {
    PartitionOf(e.run) in g && g[PartitionOf(e.run)] == e.run
  }

  predicate MayPrepare(s: State, b: Build)
  {
    var id := b.manifest.id;
    && s.current != map[]
    && id.generations == s.current && b.manifest.episodes == s.mart
    && (id.validation.Some? ==> id.validation.value in s.validations
                                && s.validations[id.validation.value].generations == s.current)
    && (b.gated ==> id.validation.Some? && s.validations[id.validation.value].passed)
  }

  predicate Enabled(s: State, step: Step)
  {
    match step
    case Begin(id) => s.active.None? && !IsSuccess(s.runs, id)
    case Promote(tracks) => s.active.Some? && forall t :: t in tracks ==> t.id.run == s.active.value
    case Fail => s.active.Some? && s.active.value in s.runs
    case CrashAnalysis => s.active.Some?
    case BuildMart(rows) => forall e :: e in rows ==> e in s.episodes && Belongs(s.current, e)
    case Validate(_, _, _, _) => true
    case Prepare(b) => MayPrepare(s, b)
    case Place(b) => b in s.built && (b.manifest.id.version in s.dirs ==> s.dirs[b.manifest.id.version] == b.manifest)
    case Record(b) => b in s.placed
    case Abandon(b) => b in s.built || b in s.placed
  }

  function Apply(s: State, step: Step): State
    requires Enabled(s, step)
  {
    match step
    case Begin(id) => s.(runs := s.runs[id := Run(Running, 0)], active := Some(id))
    case Promote(tracks) =>
      var id := s.active.value;
      s.(episodes := InsertEpisodes(s.episodes, tracks),
         runs := s.runs[id := Run(Success, |tracks|)],
         current := s.current[PartitionOf(id) := id],
         active := None)
    case Fail =>
      var id := s.active.value;
      s.(runs := s.runs[id := s.runs[id].(status := Failed)], active := None)
    case CrashAnalysis => s.(active := None)
    case BuildMart(rows) => s.(mart := rows)
    case Validate(benchmark, metrics, thresholds, now) =>
      s.(validations := InsertIfAbsent(s.validations, ValidationId(benchmark, s.current, metrics),
                                       Validation(s.current, Passes(metrics, thresholds), now)))
    case Prepare(b) => s.(built := s.built + {b})
    case Place(b) =>
      s.(dirs := s.dirs[b.manifest.id.version := b.manifest], built := s.built - {b}, placed := s.placed + {b})
    case Record(b) =>
      s.(releases := InsertIfAbsent(s.releases, b.manifest.id, RowOf(b.manifest)),
         placed := s.placed - {b},
         gated := if b.gated then s.gated + {b.manifest.id} else s.gated)
    case Abandon(b) => s.(built := s.built - {b}, placed := s.placed - {b})
  }

  function RowOf(m: Manifest): ReleaseRow
  {
    ReleaseRow(m.id.version, m.id.generations, m.id.validation, m)
  }

  // ---------- Safety ----------

  ghost predicate AllSucceeded(runs: map<RunId, Run>, g: Generations)
  {
    forall p :: p in g ==> IsSuccess(runs, g[p]) && PartitionOf(g[p]) == p
  }

  ghost predicate RunsSound(s: State)
  {
    && AllSucceeded(s.runs, s.current)
    && (forall e :: e in s.episodes ==> IsSuccess(s.runs, e.run))
    && (s.active.Some? ==> s.active.value in s.runs && s.runs[s.active.value].status == Running)
  }

  ghost predicate ValidationsSound(s: State)
  {
    forall v :: v in s.validations ==> s.validations[v].generations == v.generations && AllSucceeded(s.runs, v.generations)
  }

  // What holds of a release identity once its gate was passed.
  ghost predicate Released(s: State, id: ReleaseId)
  {
    && AllSucceeded(s.runs, id.generations)
    && (id.validation.Some? ==> id.validation.value in s.validations
                                && s.validations[id.validation.value].generations == id.generations)
  }

  ghost predicate PassedGate(s: State, id: ReleaseId)
  {
    && id.validation.Some? && id.validation.value in s.validations
    && s.validations[id.validation.value].generations == id.generations
    && s.validations[id.validation.value].passed
  }

  ghost predicate BuildSound(s: State, b: Build)
  {
    Released(s, b.manifest.id) && (b.gated ==> PassedGate(s, b.manifest.id))
  }

  predicate InPlace(s: State, m: Manifest)
  {
    m.id.version in s.dirs && s.dirs[m.id.version] == m
  }

  ghost predicate BuildsSound(s: State)
  {
    && (forall b :: b in s.built ==> BuildSound(s, b))
    && (forall b :: b in s.placed ==> BuildSound(s, b) && InPlace(s, b.manifest))
  }

  ghost predicate DirsSound(s: State)
  {
    forall v :: v in s.dirs ==> s.dirs[v].id.version == v && Released(s, s.dirs[v].id)
  }

  ghost predicate ReleaseRowSound(s: State, r: ReleaseId)
    requires r in s.releases
  {
    s.releases[r] == RowOf(s.releases[r].manifest) && s.releases[r].manifest.id == r && InPlace(s, s.releases[r].manifest)
  }

  ghost predicate RowsSound(s: State)
  {
    && (forall r :: r in s.releases ==> ReleaseRowSound(s, r))
    && (forall r :: r in s.gated ==> r in s.releases && PassedGate(s, r))
  }

  ghost predicate ReleasesSound(s: State)
  {
    BuildsSound(s) && DirsSound(s) && RowsSound(s)
  }

  ghost predicate Sound(s: State)
  {
    RunsSound(s) && ValidationsSound(s) && ReleasesSound(s)
  }

  ghost predicate KeepsRuns(s: State, t: State)
  {
    && (forall id :: IsSuccess(s.runs, id) ==> IsSuccess(t.runs, id) && t.runs[id] == s.runs[id])
    && s.current.Keys <= t.current.Keys
  }

  ghost predicate KeepsEpisodes(s: State, t: State)
  {
    && (forall e :: e in s.episodes ==> e in t.episodes && t.episodes[e] == s.episodes[e])
    && (forall e :: e in t.episodes && e !in s.episodes ==> !IsSuccess(s.runs, e.run))
  }

  ghost predicate KeepsRows(s: State, t: State)
  {
    && (forall v :: v in s.validations ==> v in t.validations && t.validations[v] == s.validations[v])
    && (forall r :: r in s.releases ==> r in t.releases && t.releases[r] == s.releases[r])
    && s.gated <= t.gated
  }

  ghost predicate KeepsDirs(s: State, t: State)
  {
    forall v :: v in s.dirs ==> v in t.dirs && t.dirs[v] == s.dirs[v]
  }

  /** What no step ever takes back. */
  ghost predicate Keeps(s: State, t: State)
  {
    KeepsRuns(s, t) && KeepsEpisodes(s, t) && KeepsRows(s, t) && KeepsDirs(s, t)
  }

  ghost predicate HasTrack(tracks: seq<Episode>, e: RevisionId)
  {
    exists t :: t in tracks && t.id == e
  }

  lemma HasTrackCons(tracks: seq<Episode>, e: RevisionId)
    requires tracks != []
    ensures HasTrack(tracks, e) <==> tracks[0].id == e || HasTrack(tracks[1..], e)
  {
    assert forall t :: t in tracks <==> t == tracks[0] || t in tracks[1..];
  }

  lemma {:induction false} InsertEpisodesKeeps(table: map<RevisionId, string>, tracks: seq<Episode>)
    ensures var r := InsertEpisodes(table, tracks);
      && (forall e :: e in table ==> e in r && r[e] == table[e])
      && (forall e :: e in r <==> e in table || HasTrack(tracks, e))
    decreases |tracks|
  {
    if tracks != [] {
      InsertEpisodesKeeps(InsertIfAbsent(table, tracks[0].id, tracks[0].body), tracks[1..]);
      forall e ensures HasTrack(tracks, e) <==> tracks[0].id == e || HasTrack(tracks[1..], e) {
        HasTrackCons(tracks, e);
      }
    }
  }

  lemma StepKeepsRuns(s: State, step: Step)
    requires RunsSound(s) && Enabled(s, step)
    ensures KeepsRuns(s, Apply(s, step))
  {
  }

  lemma StepKeepsEpisodes(s: State, step: Step)
    requires RunsSound(s) && Enabled(s, step)
    ensures KeepsEpisodes(s, Apply(s, step))
  {
    if step.Promote? {
      InsertEpisodesKeeps(s.episodes, step.tracks);
    }
  }

  lemma StepKeepsRows(s: State, step: Step)
    requires Enabled(s, step)
    ensures KeepsRows(s, Apply(s, step))
  {
  }

  // Placing over an existing directory only happens when the two are the same.
  lemma StepKeepsDirs(s: State, step: Step)
    requires Enabled(s, step)
    ensures KeepsDirs(s, Apply(s, step))
  {
  }

  lemma StepKeeps(s: State, step: Step)
    requires Sound(s) && Enabled(s, step)
    ensures Keeps(s, Apply(s, step))
  {
    StepKeepsRuns(s, step);
    StepKeepsEpisodes(s, step);
    StepKeepsRows(s, step);
    StepKeepsDirs(s, step);
  }

  lemma AllSucceededKept(s: State, t: State, g: Generations)
    requires Keeps(s, t) && AllSucceeded(s.runs, g)
    ensures AllSucceeded(t.runs, g)
  {
  }

  lemma ReleasedKept(s: State, t: State, id: ReleaseId)
    requires Keeps(s, t)
    ensures Released(s, id) ==> Released(t, id)
    ensures PassedGate(s, id) ==> PassedGate(t, id)
  {
    if Released(s, id) {
      AllSucceededKept(s, t, id.generations);
    }
  }

  lemma StepKeepsRunsSound(s: State, step: Step)
    requires Sound(s) && Enabled(s, step)
    ensures RunsSound(Apply(s, step))
  {
    if step.Promote? {
      InsertEpisodesKeeps(s.episodes, step.tracks);
    }
  }

  lemma StepKeepsValidationsSound(s: State, step: Step)
    requires Sound(s) && Enabled(s, step)
    ensures ValidationsSound(Apply(s, step))
  {
    StepKeeps(s, step);
    var t := Apply(s, step);
    forall v | v in t.validations
      ensures t.validations[v].generations == v.generations && AllSucceeded(t.runs, v.generations)
    {
      AllSucceededKept(s, t, v.generations);
    }
  }

  lemma StepKeepsBuildsSound(s: State, step: Step)
    requires Sound(s) && Enabled(s, step)
    ensures BuildsSound(Apply(s, step))
  {
    StepKeeps(s, step);
    var t := Apply(s, step);
    forall b | b in t.built || b in t.placed
      ensures BuildSound(t, b)
    {
      assert BuildSound(s, b);
      ReleasedKept(s, t, b.manifest.id);
    }
    forall b | b in t.placed
      ensures InPlace(t, b.manifest)
    {
      assert b in s.placed ==> InPlace(s, b.manifest);
    }
  }

  lemma StepKeepsDirsSound(s: State, step: Step)
    requires Sound(s) && Enabled(s, step)
    ensures DirsSound(Apply(s, step))
  {
    StepKeeps(s, step);
    var t := Apply(s, step);
    forall v | v in t.dirs
      ensures t.dirs[v].id.version == v && Released(t, t.dirs[v].id)
    {
      if step.Place? && v == step.build.manifest.id.version {
        assert BuildSound(s, step.build);
      }
      ReleasedKept(s, t, t.dirs[v].id);
    }
  }

  lemma StepKeepsReleaseRow(s: State, step: Step, r: ReleaseId)
    requires Sound(s) && Enabled(s, step) && r in Apply(s, step).releases
    ensures ReleaseRowSound(Apply(s, step), r)
  {
    StepKeepsDirs(s, step);
    if step.Record? {
      assert BuildSound(s, step.build) && InPlace(s, step.build.manifest);
    }
  }

  lemma StepKeepsGated(s: State, step: Step, r: ReleaseId)
    requires Sound(s) && Enabled(s, step) && r in Apply(s, step).gated
    ensures r in Apply(s, step).releases && PassedGate(Apply(s, step), r)
  {
    StepKeeps(s, step);
    if step.Record? {
      assert BuildSound(s, step.build);
    }
    ReleasedKept(s, Apply(s, step), r);
  }

  lemma StepKeepsRowsSound(s: State, step: Step)
    requires Sound(s) && Enabled(s, step)
    ensures RowsSound(Apply(s, step))
  {
    var t := Apply(s, step);
    forall r | r in t.releases
      ensures ReleaseRowSound(t, r)
    {
      StepKeepsReleaseRow(s, step, r);
    }
    forall r | r in t.gated
      ensures r in t.releases && PassedGate(t, r)
    {
      StepKeepsGated(s, step, r);
    }
  }

  lemma StepKeepsSound(s: State, step: Step)
    requires Sound(s) && Enabled(s, step)
    ensures Sound(Apply(s, step))
  {
    StepKeepsRunsSound(s, step);
    StepKeepsValidationsSound(s, step);
    StepKeepsBuildsSound(s, step);
    StepKeepsDirsSound(s, step);
    StepKeepsRowsSound(s, step);
  }

  // ---------- Runs of the machine ----------

  ghost predicate IsRun(states: seq<State>, steps: seq<Step>)
  {
    && |states| == |steps| + 1
    && forall i :: 0 <= i < |steps| ==> StepAt(states, steps, i)
  }

  ghost predicate StepAt(states: seq<State>, steps: seq<Step>, i: nat)
    requires |states| == |steps| + 1 && i < |steps|
  {
    Enabled(states[i], steps[i]) && states[i + 1] == Apply(states[i], steps[i])
  }

  lemma {:induction false} KeepsTransitive(a: State, b: State, c: State)
    requires Keeps(a, b) && Keeps(b, c)
    ensures Keeps(a, c)
  {
  }

  /** Every reachable state is sound, and nothing a state has published is ever rewritten later. */
  lemma {:induction false} EveryRunIsSound(states: seq<State>, steps: seq<Step>, i: nat, k: nat)
    requires IsRun(states, steps) && Sound(states[0]) && i <= k < |states|
    ensures Sound(states[i]) && Sound(states[k])
    ensures Keeps(states[i], states[k])
    decreases k
  {
    if k > 0 {
      var h := k - 1;
      assert StepAt(states, steps, h);
      EveryRunIsSound(states, steps, if i == k then h else i, h);
      StepKeepsSound(states[h], steps[h]);
      StepKeeps(states[h], steps[h]);
      if i < k {
        KeepsTransitive(states[i], states[h], states[k]);
      }
    }
  }

  lemma EmptyIsSound()
    ensures Sound(EMPTY)
  {
  }

  lemma StayPut(s: State, step: Step)
    requires Enabled(s, step) && !step.Promote?
    ensures Apply(s, step).current == s.current && Apply(s, step).episodes == s.episodes
  {
  }

  /** Episode tables and current generations change in a promotion and nowhere else, so an
      attempt that fails or crashes leaves both as it found them. */
  lemma {:induction false} OnlyPromotionMovesGenerations(states: seq<State>, steps: seq<Step>, i: nat, k: nat)
    requires IsRun(states, steps) && i <= k < |states|
    requires forall h :: i <= h < k ==> !steps[h].Promote?
    ensures states[k].current == states[i].current && states[k].episodes == states[i].episodes
    decreases k
  {
    if i < k {
      var h := k - 1;
      OnlyPromotionMovesGenerations(states, steps, i, h);
      assert StepAt(states, steps, h);
      StayPut(states[h], steps[h]);
    }
  }

  /** A release some gated call completed stands, in every later state, on a passing
      validation of exactly the generations it publishes, each of them a success run. */
  lemma GatedReleaseIsValidated(states: seq<State>, steps: seq<Step>, i: nat, k: nat, id: ReleaseId)
    requires IsRun(states, steps) && states[0] == EMPTY && i <= k < |states|
    requires id in states[i].gated
    ensures var s := states[k];
      && id in s.releases && id.version in s.dirs
      && s.releases[id].manifest == s.dirs[id.version]
      && id in states[i].releases && s.releases[id] == states[i].releases[id]
      && PassedGate(s, id)
      && AllSucceeded(s.runs, s.releases[id].generations)
  {
    EmptyIsSound();
    EveryRunIsSound(states, steps, i, k);
  }

  ghost predicate VerdictsFollow(s: State, t: Thresholds)
  {
    forall v :: v in s.validations ==> s.validations[v].passed == MeetsThresholds(v.metrics, t)
  }

  lemma VerdictsStep(s: State, step: Step, t: Thresholds)
    requires Enabled(s, step) && VerdictsFollow(s, t)
    requires step.Validate? ==> step.thresholds == t
    ensures VerdictsFollow(Apply(s, step), t)
  {
  }

  /** While the thresholds stay the same, every stored verdict is the verdict of the metrics
      its identity was made from, however often a validation is repeated. */
  lemma {:induction false} VerdictsFollowMetrics(states: seq<State>, steps: seq<Step>, t: Thresholds, k: nat)
    requires IsRun(states, steps) && states[0] == EMPTY && k < |states|
    requires forall h :: 0 <= h < |steps| && steps[h].Validate? ==> steps[h].thresholds == t
    ensures VerdictsFollow(states[k], t)
  {
    if k > 0 {
      VerdictsFollowMetrics(states, steps, t, k - 1);
      assert StepAt(states, steps, k - 1);
      VerdictsStep(states[k - 1], steps[k - 1], t);
    }
  }

  // Step h records a verdict under this identity.
  ghost predicate ValidatesAs(states: seq<State>, steps: seq<Step>, h: nat, id: ValidationId)
    requires |states| == |steps| + 1 && h < |steps|
  {
    steps[h].Validate? && ValidationId(steps[h].benchmark, states[h].current, steps[h].metrics) == id
  }

  ghost predicate FirstToValidate(states: seq<State>, steps: seq<Step>, h: nat, id: ValidationId)
    requires |states| == |steps| + 1 && h < |steps|
  {
    ValidatesAs(states, steps, h, id) && forall g :: 0 <= g < h ==> !ValidatesAs(states, steps, g, id)
  }

  lemma StepAndVerdict(s: State, step: Step, id: ValidationId)
    requires Enabled(s, step)
    ensures var t := Apply(s, step);
      var records := step.Validate? && ValidationId(step.benchmark, s.current, step.metrics) == id;
      && (id in t.validations <==> id in s.validations || records)
      && (id in s.validations ==> t.validations[id] == s.validations[id])
      && (id !in s.validations && records ==> t.validations[id].passed == MeetsThresholds(id.metrics, step.thresholds))
  {
  }

  /** A verdict is stored exactly when some call recorded its identity, and it is the
      verdict of the first such call, whatever thresholds later calls come with. */
  lemma {:induction false} StoredVerdictIsTheFirst(states: seq<State>, steps: seq<Step>, k: nat, id: ValidationId)
    requires IsRun(states, steps) && states[0] == EMPTY && k < |states|
    ensures id in states[k].validations <==> exists h :: 0 <= h < k && ValidatesAs(states, steps, h, id)
    ensures forall h :: 0 <= h < k && FirstToValidate(states, steps, h, id) ==>
      states[k].validations[id].passed == MeetsThresholds(id.metrics, steps[h].thresholds)
  {
    if k > 0 {
      StoredVerdictIsTheFirst(states, steps, k - 1, id);
      assert StepAt(states, steps, k - 1);
      StepAndVerdict(states[k - 1], steps[k - 1], id);
      if id in states[k].validations && id !in states[k - 1].validations {
        assert ValidatesAs(states, steps, k - 1, id);
      }
      forall h | 0 <= h < k && FirstToValidate(states, steps, h, id)
        ensures states[k].validations[id].passed == MeetsThresholds(id.metrics, steps[h].thresholds)
      {
        if h < k - 1 {
          assert ValidatesAs(states, steps, h, id);
        }
      }
    }
  }

  lemma {:induction false} FirstOfThese(states: seq<State>, steps: seq<Step>, k: nat, id: ValidationId) returns (h: nat)
    requires |states| == |steps| + 1 && k <= |steps|
    requires exists g :: 0 <= g < k && ValidatesAs(states, steps, g, id)
    ensures h < k && FirstToValidate(states, steps, h, id)
  {
    if g :| 0 <= g < k - 1 && ValidatesAs(states, steps, g, id) {
      h := FirstOfThese(states, steps, k - 1, id);
    } else {
      h := k - 1;
    }
  }

  /** Behind a release some gated call completed stands a validation call made before it, on
      the generations it publishes, whose metrics met the thresholds of that very call. */
  lemma GatedReleaseMetThresholds(states: seq<State>, steps: seq<Step>, k: nat, id: ReleaseId)
    requires IsRun(states, steps) && states[0] == EMPTY && k < |states|
    requires id in states[k].gated
    ensures id.validation.Some? && exists h ::
      && 0 <= h < k && FirstToValidate(states, steps, h, id.validation.value)
      && states[h].current == id.generations
      && MeetsThresholds(steps[h].metrics, steps[h].thresholds)
  {
    GatedReleaseIsValidated(states, steps, k, k, id);
    EmptyIsSound();
    EveryRunIsSound(states, steps, k, k);
    var v := id.validation.value;
    StoredVerdictIsTheFirst(states, steps, k, v);
    var h := FirstOfThese(states, steps, k, v);
    assert ValidatesAs(states, steps, h, v);
  }

  /** A validation call stores the verdict it reports exactly when the first call that
      recorded this identity came to the same verdict under its own thresholds. */
  lemma ReportedVerdictIsStoredWhen(states: seq<State>, steps: seq<Step>, k: nat, first: nat)
    requires IsRun(states, steps) && states[0] == EMPTY && first <= k < |steps| && steps[k].Validate?
    requires FirstToValidate(states, steps, first, ValidationId(steps[k].benchmark, states[k].current, steps[k].metrics))
    ensures var id, reported := ValidationId(steps[k].benchmark, states[k].current, steps[k].metrics),
                                MeetsThresholds(steps[k].metrics, steps[k].thresholds);
      && id in states[k + 1].validations
      && (states[k + 1].validations[id].passed == reported <==> MeetsThresholds(steps[k].metrics, steps[first].thresholds) == reported)
  {
    var id := ValidationId(steps[k].benchmark, states[k].current, steps[k].metrics);
    assert StepAt(states, steps, k);
    assert ValidatesAs(states, steps, k, id);
    StoredVerdictIsTheFirst(states, steps, k + 1, id);
  }

  /** The same for one call on any tables. */
  lemma VerdictIsStoredUnlessOneStands(s: State, benchmark: string, m: Metrics, t: Thresholds, now: int)
    ensures var id, after := ValidationId(benchmark, s.current, m), Apply(s, Validate(benchmark, m, t, now));
      id in after.validations
      && (after.validations[id].passed == MeetsThresholds(m, t)
          <==> (id !in s.validations || s.validations[id].passed == MeetsThresholds(m, t)))
  {
    StepAndVerdict(s, Validate(benchmark, m, t, now), ValidationId(benchmark, s.current, m));
  }

  // A promoted run with one episode.
  const RUN := RunId("r", 0, "1", "1", ["h"])
  const TRACK := Episode(RevisionId(RUN, [], [], ["p"], ""), "body")

  function OnePromotion(): State
  {
    Apply(Apply(EMPTY, Begin(RUN)), Promote([TRACK]))
  }

  lemma OnePromotionTables()
    ensures Enabled(Apply(EMPTY, Begin(RUN)), Promote([TRACK]))
    ensures OnePromotion() == EMPTY.(runs := map[RUN := Run(Success, 1)], current := map[Partition("r", 0) := RUN],
                                     episodes := map[TRACK.id := "body"])
  {
    assert [TRACK][1..] == [];
    assert InsertEpisodes(map[TRACK.id := "body"], []) == map[TRACK.id := "body"];
  }

  // Of two hundred windows, twenty detections held out, seventeen of them real, none missed.
  const MEASURED := Metrics(
    "{\"benchmark_windows\":200,\"emission_absolute_error\":null,\"emission_bias\":null,\"false_negative\":0,"
    + "\"false_positive\":3,\"interval_coverage\":null,\"temperature\":1.0,\"true_positive\":17}",
    Some(0.85), Some(1.0), Some(1.0), Some(0.05))

  /** Thresholds are not part of the identity: on a promoted generation, metrics that fail
      strict thresholds and pass relaxed ones are reported as passing by the second call,
      while the stored row keeps the failure and the release gate refuses it. */
  lemma RelaxedThresholdsLeaveOldVerdict(version: string)
    ensures var strict, relaxed := Thresholds(0.9, 0.9, 0.9), Thresholds(0.8, 0.9, 0.9);
      var s := Apply(Apply(OnePromotion(), Validate("b", MEASURED, strict, 1)), Validate("b", MEASURED, relaxed, 2));
      var id := ValidationId("b", s.current, MEASURED);
      var manifest := Manifest(ReleaseId(version, s.current, Some(id), "1", "1", "1"), "", s.mart);
      && s.current != map[] && MeetsThresholds(MEASURED, relaxed)
      && id in s.validations && !s.validations[id].passed
      && MayPrepare(s, Build(manifest, false)) && !MayPrepare(s, Build(manifest, true))
  {
    OnePromotionTables();
    assert Partition("r", 0) in OnePromotion().current;
  }

  // ---------- The published episodes against the named generations ----------

  // A promotion into the partition of an episode.
  predicate Replaces(s: State, step: Step, e: RevisionId)
  {
    step.Promote? && s.active.Some? && PartitionOf(s.active.value) == PartitionOf(e.run)
  }

  lemma BelongsStep(s: State, step: Step, e: RevisionId)
    requires Sound(s) && Enabled(s, step) && IsSuccess(s.runs, e.run)
    ensures Belongs(Apply(s, step).current, e) <==> Belongs(s.current, e) && !Replaces(s, step, e)
    ensures IsSuccess(Apply(s, step).runs, e.run)
  {
  }

  /** An episode that belonged to a current generation still does exactly when no promotion
      into its partition has come since: a run is promoted once and never again. */
  lemma {:induction false} BelongsUntilReplaced(states: seq<State>, steps: seq<Step>, h: nat, k: nat, e: RevisionId)
    requires IsRun(states, steps) && Sound(states[0]) && h <= k < |states|
    requires IsSuccess(states[h].runs, e.run) && Belongs(states[h].current, e)
    ensures Belongs(states[k].current, e) <==> forall g :: h <= g < k ==> !Replaces(states[g], steps[g], e)
    ensures IsSuccess(states[k].runs, e.run)
    decreases k
  {
    if h < k {
      BelongsUntilReplaced(states, steps, h, k - 1, e);
      assert StepAt(states, steps, k - 1);
      EveryRunIsSound(states, steps, k - 1, k - 1);
      BelongsStep(states[k - 1], steps[k - 1], e);
    }
  }

  lemma {:induction false} MartStays(states: seq<State>, steps: seq<Step>, h: nat, k: nat)
    requires IsRun(states, steps) && h < k < |states| && steps[h].BuildMart?
    requires forall g :: h < g < k ==> !steps[g].BuildMart?
    ensures states[k].mart == steps[h].rows
    decreases k
  {
    assert StepAt(states, steps, k - 1);
    MartStep(states[k - 1], steps[k - 1]);
    if h < k - 1 {
      MartStays(states, steps, h, k - 1);
    }
  }

  lemma MartStep(s: State, step: Step)
    requires Enabled(s, step)
    ensures Apply(s, step).mart == if step.BuildMart? then step.rows else s.mart
  {
  }

  /** A release exports the episode table of the last dbt build h and names the generations
      current when it is prepared, at k. Every exported episode belongs to a named generation
      exactly when no promotion between the two went into the partition of an exported episode. */
  lemma ExportedRowsBelongWhen(states: seq<State>, steps: seq<Step>, h: nat, k: nat)
    requires IsRun(states, steps) && Sound(states[0]) && h < k < |steps| && steps[h].BuildMart? && steps[k].Prepare?
    requires forall g :: h < g < k ==> !steps[g].BuildMart?
    ensures var m := steps[k].build.manifest;
      && m.episodes == steps[h].rows
      && ((forall e :: e in m.episodes ==> Belongs(m.id.generations, e)) <==>
            forall e, g :: e in m.episodes && h < g < k ==> !Replaces(states[g], steps[g], e))
  {
    MartStays(states, steps, h, k);
    assert StepAt(states, steps, h) && StepAt(states, steps, k);
    EveryRunIsSound(states, steps, h, h);
    EveryRunIsSound(states, steps, h + 1, h + 1);
    forall e | e in steps[h].rows
      ensures Belongs(states[k].current, e) <==> forall g :: h < g < k ==> !Replaces(states[g], steps[g], e)
    {
      assert Belongs(states[h].current, e);
      BelongsUntilReplaced(states, steps, h + 1, k, e);
    }
  }

  const NEXT_RUN := RunId("r", 0, "1", "1", ["i"])
  const NEXT_TRACK := Episode(RevisionId(NEXT_RUN, [], [], ["p"], ""), "body")

  /** New inputs are analysed and validated after the dbt build, and the release is gated: it
      names the new generation and exports the episode of the old one. */
  lemma StaleMartIsReleased(version: string) returns (s1: State, s2: State, s3: State, s4: State)
    ensures Enabled(OnePromotion(), BuildMart({TRACK.id})) && s1 == Apply(OnePromotion(), BuildMart({TRACK.id}))
    ensures Enabled(s1, Begin(NEXT_RUN)) && s2 == Apply(s1, Begin(NEXT_RUN))
    ensures Enabled(s2, Promote([NEXT_TRACK])) && s3 == Apply(s2, Promote([NEXT_TRACK]))
    ensures s4 == Apply(s3, Validate("b", MEASURED, Thresholds(0.8, 0.9, 0.9), 1))
    ensures var id := ReleaseId(version, s4.current, Some(ValidationId("b", s4.current, MEASURED)), "1", "1", "1");
      && MayPrepare(s4, Build(Manifest(id, "", {TRACK.id}), true))
      && s4.current[Partition("r", 0)] == NEXT_RUN && !Belongs(s4.current, TRACK.id)
  {
    OnePromotionTables();
    assert ["h"][0] != ["i"][0];
    s1 := Apply(OnePromotion(), BuildMart({TRACK.id}));
    s2 := Apply(s1, Begin(NEXT_RUN));
    s3 := Apply(s2, Promote([NEXT_TRACK]));
    s4 := Apply(s3, Validate("b", MEASURED, Thresholds(0.8, 0.9, 0.9), 1));
    assert s3.current[Partition("r", 0)] == NEXT_RUN && s3.mart == {TRACK.id} && s3.validations == map[];
    ValidatedMayBePrepared(s3, version);
  }

  lemma ValidatedMayBePrepared(s: State, version: string)
    requires s.current != map[] && s.validations == map[] && s.mart == {TRACK.id}
    ensures var t := Apply(s, Validate("b", MEASURED, Thresholds(0.8, 0.9, 0.9), 1));
      var id := ReleaseId(version, t.current, Some(ValidationId("b", t.current, MEASURED)), "1", "1", "1");
      MayPrepare(t, Build(Manifest(id, "", {TRACK.id}), true))
  {
  }

  /** A release may be given up before and after its directory stands, and then leaves every
      row and every directory as it is. */
  lemma ReleaseMayBeGivenUp(s: State, b: Build)
    requires b in s.built + s.placed
    ensures Enabled(s, Abandon(b)) && var t := Apply(s, Abandon(b));
      t == s.(built := t.built, placed := t.placed) && b !in t.built + t.placed
  {
  }

  /** Rows left by the one promotion of a run are exactly its tracks, and stay so. */
  lemma PromotedRowsAreTheTracks(s: State, tracks: seq<Episode>, e: RevisionId)
    requires Sound(s) && Enabled(s, Promote(tracks)) && e.run == s.active.value
    ensures e in Apply(s, Promote(tracks)).episodes <==> HasTrack(tracks, e)
  {
    InsertEpisodesKeeps(s.episodes, tracks);
  }

  // ---------- Overlapping attempts ----------

  // Two workers on the same tables, each with the attempt it has open.
  datatype Workers = Workers(tables: State, open: map<int, RunId>)

  // The tables as one worker sees them.
  function ViewOf(o: Workers, worker: int): State
  {
    o.tables.(active := if worker in o.open then Some(o.open[worker]) else None)
  }

  predicate WorkerMay(o: Workers, worker: int, step: Step)
  {
    Enabled(ViewOf(o, worker), step)
  }

  function WorkerDoes(o: Workers, worker: int, step: Step): Workers
    requires WorkerMay(o, worker, step)
  {
    var s := Apply(ViewOf(o, worker), step);
    Workers(s.(active := None), if s.active.Some? then o.open[worker := s.active.value] else o.open - {worker})
  }

  /** Attempts must be serial: two workers start the same run, the first promotes it, the
      second fails, and the current generation points at a failed run. */
  lemma OverlapWouldBreak() returns (o1: Workers, o2: Workers, o3: Workers, o4: Workers)
    ensures WorkerMay(Workers(EMPTY, map[]), 1, Begin(RUN)) && o1 == WorkerDoes(Workers(EMPTY, map[]), 1, Begin(RUN))
    ensures WorkerMay(o1, 2, Begin(RUN)) && o2 == WorkerDoes(o1, 2, Begin(RUN))
    ensures WorkerMay(o2, 1, Promote([TRACK])) && o3 == WorkerDoes(o2, 1, Promote([TRACK]))
    ensures WorkerMay(o3, 2, Fail) && o4 == WorkerDoes(o3, 2, Fail)
    ensures RunsSound(o3.tables) && !RunsSound(o4.tables)
    ensures o4.open == map[] && o4.tables.current == map[Partition("r", 0) := RUN]
  {
    OnePromotionTables();
    o1 := WorkerDoes(Workers(EMPTY, map[]), 1, Begin(RUN));
    o2 := WorkerDoes(o1, 2, Begin(RUN));
    assert o2.tables == Apply(EMPTY, Begin(RUN)).(active := None) && o2.open == map[1 := RUN, 2 := RUN];
    o3 := WorkerDoes(o2, 1, Promote([TRACK]));
    assert o3.tables == OnePromotion() && o3.open == map[2 := RUN];
    o4 := WorkerDoes(o3, 2, Fail);
    assert o4.tables.current[Partition("r", 0)] == RUN && !IsSuccess(o4.tables.runs, RUN);
  }

  /** A late failure does no harm exactly when its run is no current generation and owns no
      episode, that is, when no other attempt has promoted it meanwhile. */
  lemma LateFailureIsHarmlessWhen(o: Workers, worker: int)
    requires RunsSound(o.tables) && o.tables.active.None? && WorkerMay(o, worker, Fail)
    ensures RunsSound(WorkerDoes(o, worker, Fail).tables) <==>
      && (forall p :: p in o.tables.current ==> o.tables.current[p] != o.open[worker])
      && (forall e :: e in o.tables.episodes ==> e.run != o.open[worker])
  {
    var id, s, t := o.open[worker], o.tables, WorkerDoes(o, worker, Fail).tables;
    if p :| p in s.current && s.current[p] == id {
      assert !IsSuccess(t.runs, t.current[p]);
    }
  }
}
