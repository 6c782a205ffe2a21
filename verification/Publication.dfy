/** Publishing an immutable artifact generation (geography/publish.py) and reading it back
    (geography/registry.py), as file-system steps any number of publishers may interleave,
    each free to stop at any point. A file stands for its own SHA-256 digest. */
module Publication {
  import opened Prelude

  // A parquet file: its metadata, its row count and what its columns hold.
  datatype File = File(
    grid: string, geometry: string, source: string, rows: nat, hasColumns: bool, sorted: bool, versions: set<string>)

  // Everything the build identifier digests.
  datatype Build = Build(
    mode: string, geometry: string, grid: string, source: string,
    registry: File, weights: File, regionCount: nat, weightCount: nat)

  datatype Dir = Dir(registry: Option<File>, weights: Option<File>)

  // A manifest entry: the generation it points into, and what it says of the file there.
  datatype Entry = Entry(dir: Build, sha: File, rows: nat)

  datatype Manifest = Manifest(
    mode: string, geometry: string, grid: string, source: string, registry: Entry, weights: Entry)

  datatype Draft = Partial | Written(manifest: Manifest)

  datatype Stage = Hashed | Absent | TempMade | RegistryMoved | WeightsMoved | Verified | InPlace | Drafting | Drafted

  datatype Publisher = Publisher(build: Build, stage: Stage, registry: Option<File>, weights: Option<File>)

  type Pid = nat

  datatype State = State(
    generations: map<Build, Dir>,
    temps: map<(Build, Pid), Dir>,
    drafts: map<Pid, Draft>,
    manifest: Option<Draft>,
    live: map<Pid, Publisher>)

  const EMPTY := State(map[], map[], map[], None, map[])

  // ---------- Checks ----------

  predicate MetadataMatches(f: File, grid: string, geometry: string, source: string)
  {
    f.grid == grid && f.geometry == geometry && f.source == source
  }

  // A sorted, complete file of the build, with as many rows as announced and at least one.
  ghost predicate IsFileOf(f: File, b: Build, count: nat)
  {
    && f.hasColumns && f.sorted && f.rows == count != 0
    && f.grid == b.grid && f.geometry == b.geometry && f.source == b.source
  }

  ghost predicate IsPublishable(b: Build)
  {
    && (b.mode == "production" || b.mode == "synthetic")
    && IsFileOf(b.registry, b, b.regionCount) && IsFileOf(b.weights, b, b.weightCount)
  }

  // What a publisher checks before it computes the digests.
  predicate PublisherAccepts(b: Build)
    ensures PublisherAccepts(b) <==> IsPublishable(b)
  {
    && b.mode in ["production", "synthetic"]
    && b.registry.hasColumns && b.weights.hasColumns
    && MetadataMatches(b.registry, b.grid, b.geometry, b.source)
    && MetadataMatches(b.weights, b.grid, b.geometry, b.source)
    && b.registry.rows == b.regionCount && b.weights.rows == b.weightCount
    && b.regionCount >= 1 && b.weightCount >= 1
    && b.registry.sorted && b.weights.sorted
  }

  function Complete(b: Build): Dir { Dir(Some(b.registry), Some(b.weights)) }

  function ManifestOf(b: Build): Manifest
  {
    Manifest(b.mode, b.geometry, b.grid, b.source,
             Entry(b, b.registry, b.regionCount), Entry(b, b.weights, b.weightCount))
  }

  // ---------- Steps ----------

  datatype Step =
    | Start(pid: Pid, build: Build)
    | SourcesChange(pid: Pid, registry: Option<File>, weights: Option<File>)
    | SeeAbsent(pid: Pid)
    | MakeTemp(pid: Pid)
    | MoveRegistry(pid: Pid)
    | MoveWeights(pid: Pid)
    | Verify(pid: Pid)
    | Rename(pid: Pid)
    | Reuse(pid: Pid)
    | OpenDraft(pid: Pid)
    | WriteDraft(pid: Pid)
    | Swap(pid: Pid)
    | Fail(pid: Pid)
    | Crash(pid: Pid)

  predicate At(s: State, pid: Pid, stage: Stage)
  {
    pid in s.live && s.live[pid].stage == stage
  }

  predicate OwnsTemp(p: Publisher)
  {
    p.stage in {TempMade, RegistryMoved, WeightsMoved, Verified}
  }

  // The directory a publisher is filling.
  function Key(s: State, pid: Pid): (Build, Pid)
    requires pid in s.live
  {
    (s.live[pid].build, pid)
  }

  predicate HasTemp(s: State, pid: Pid)
  {
    pid in s.live && Key(s, pid) in s.temps
  }

  predicate Enabled(s: State, step: Step)
  {
    match step
    case Start(pid, build) => pid !in s.live && PublisherAccepts(build)
    case SourcesChange(pid, _, _) => pid in s.live && s.live[pid].stage in {Hashed, Absent, TempMade, RegistryMoved}
    case SeeAbsent(pid) => At(s, pid, Hashed) && s.live[pid].build !in s.generations
    case MakeTemp(pid) => At(s, pid, Absent) && !HasTemp(s, pid)
    case MoveRegistry(pid) => At(s, pid, TempMade) && HasTemp(s, pid) && s.live[pid].registry.Some?
    case MoveWeights(pid) => At(s, pid, RegistryMoved) && HasTemp(s, pid) && s.live[pid].weights.Some?
    case Verify(pid) => At(s, pid, WeightsMoved) && HasTemp(s, pid) && s.temps[Key(s, pid)] == Complete(s.live[pid].build)
    case Rename(pid) => At(s, pid, Verified) && HasTemp(s, pid) && s.live[pid].build !in s.generations
    case Reuse(pid) =>
      At(s, pid, Hashed) && s.live[pid].build in s.generations
      && s.generations[s.live[pid].build] == Complete(s.live[pid].build)
    case OpenDraft(pid) => At(s, pid, InPlace)
    case WriteDraft(pid) => At(s, pid, Drafting)
    case Swap(pid) => At(s, pid, Drafted) && pid in s.drafts
    case Fail(pid) => pid in s.live
    case Crash(pid) => pid in s.live
  }

  function Advance(s: State, pid: Pid, stage: Stage): map<Pid, Publisher>
    requires pid in s.live
  {
    s.live[pid := s.live[pid].(stage := stage)]
  }

  function Apply(s: State, step: Step): State
    requires Enabled(s, step)
  {
    match step
    case Start(pid, b) => s.(live := s.live[pid := Publisher(b, Hashed, Some(b.registry), Some(b.weights))])
    case SourcesChange(pid, r, w) =>
      var p := s.live[pid];
      s.(live := s.live[pid := p.(registry := if p.stage == RegistryMoved then None else r, weights := w)])
    case SeeAbsent(pid) => s.(live := Advance(s, pid, Absent))
    case MakeTemp(pid) => s.(temps := s.temps[Key(s, pid) := Dir(None, None)], live := Advance(s, pid, TempMade))
    case MoveRegistry(pid) =>
      s.(temps := s.temps[Key(s, pid) := s.temps[Key(s, pid)].(registry := s.live[pid].registry)],
         live := s.live[pid := s.live[pid].(stage := RegistryMoved, registry := None)])
    case MoveWeights(pid) =>
      s.(temps := s.temps[Key(s, pid) := s.temps[Key(s, pid)].(weights := s.live[pid].weights)],
         live := s.live[pid := s.live[pid].(stage := WeightsMoved, weights := None)])
    case Verify(pid) => s.(live := Advance(s, pid, Verified))
    case Rename(pid) =>
      s.(generations := s.generations[s.live[pid].build := s.temps[Key(s, pid)]],
         temps := s.temps - {Key(s, pid)}, live := Advance(s, pid, InPlace))
    case Reuse(pid) => s.(live := s.live[pid := s.live[pid].(stage := InPlace, registry := None, weights := None)])
    case OpenDraft(pid) => s.(drafts := s.drafts[pid := Partial], live := Advance(s, pid, Drafting))
    case WriteDraft(pid) =>
      s.(drafts := s.drafts[pid := Written(ManifestOf(s.live[pid].build))], live := Advance(s, pid, Drafted))
    case Swap(pid) => s.(manifest := Some(s.drafts[pid]), drafts := s.drafts - {pid}, live := s.live - {pid})
    case Fail(pid) =>
      s.(temps := if OwnsTemp(s.live[pid]) then s.temps - {Key(s, pid)} else s.temps,
         drafts := if s.live[pid].stage in {Drafting, Drafted} then s.drafts - {pid} else s.drafts,
         live := s.live - {pid})
    case Crash(pid) => s.(live := s.live - {pid})
  }

  // ---------- Safety ----------

  ghost predicate GenerationsSound(s: State)
  {
    forall b :: b in s.generations ==> s.generations[b] == Complete(b) && PublisherAccepts(b)
  }

  ghost predicate ManifestSound(s: State)
  {
    s.manifest.Some? ==>
      && s.manifest.value.Written?
      && var b := s.manifest.value.manifest.registry.dir;
         s.manifest.value.manifest == ManifestOf(b) && b in s.generations
  }

  function TempOf(s: State, key: (Build, Pid)): Option<Dir>
  {
    if key in s.temps then Some(s.temps[key]) else None
  }

  function DraftOf(s: State, pid: Pid): Option<Draft>
  {
    if pid in s.drafts then Some(s.drafts[pid]) else None
  }

  // What a publisher may rely on: its own directory, its own draft, the shared generations.
  ghost predicate StageSound(p: Publisher, temp: Option<Dir>, draft: Option<Draft>, present: bool)
  {
    && PublisherAccepts(p.build)
    && (OwnsTemp(p) ==> temp.Some?)
    && (p.stage == Verified ==> temp == Some(Complete(p.build)))
    && (p.stage in {InPlace, Drafting, Drafted} ==> present)
    && (p.stage == Drafted ==> draft == Some(Written(ManifestOf(p.build))))
  }

  ghost predicate PublisherSound(s: State, pid: Pid)
    requires pid in s.live
  {
    StageSound(s.live[pid], TempOf(s, Key(s, pid)), DraftOf(s, pid), s.live[pid].build in s.generations)
  }

  ghost predicate Sound(s: State)
  {
    GenerationsSound(s) && ManifestSound(s) && forall pid :: pid in s.live ==> PublisherSound(s, pid)
  }

  ghost predicate Keeps(s: State, t: State)
  {
    forall b :: b in s.generations ==> b in t.generations && t.generations[b] == s.generations[b]
  }

  lemma StepKeepsGenerations(s: State, step: Step)
    requires Sound(s) && Enabled(s, step)
    ensures Keeps(s, Apply(s, step)) && GenerationsSound(Apply(s, step))
  {
    if step.Rename? {
      assert PublisherSound(s, step.pid);
    } else {
      assert Apply(s, step).generations == s.generations;
    }
  }

  lemma StepKeepsManifest(s: State, step: Step)
    requires Sound(s) && Enabled(s, step)
    ensures ManifestSound(Apply(s, step))
  {
    StepKeepsGenerations(s, step);
    if step.Swap? {
      assert PublisherSound(s, step.pid);
    } else {
      assert Apply(s, step).manifest == s.manifest;
    }
  }

  // A step touches no other publisher, nor its directory, nor its draft.
  lemma OthersUntouched(s: State, step: Step, pid: Pid)
    requires Enabled(s, step) && pid != step.pid
    ensures var t := Apply(s, step);
      && (pid in t.live <==> pid in s.live)
      && (pid in s.live ==> t.live[pid] == s.live[pid] && DraftOf(t, pid) == DraftOf(s, pid)
                            && TempOf(t, Key(s, pid)) == TempOf(s, Key(s, pid)))
  {
  }

  lemma StepKeepsOthers(s: State, step: Step, pid: Pid)
    requires Sound(s) && Enabled(s, step) && pid != step.pid && pid in Apply(s, step).live
    ensures PublisherSound(Apply(s, step), pid)
  {
    OthersUntouched(s, step, pid);
    assert PublisherSound(s, pid);
    StepKeepsGenerations(s, step);
  }

  lemma StepKeepsOwnStart(s: State, step: Step)
    requires Sound(s) && Enabled(s, step) && step.pid in Apply(s, step).live
    requires step.Start? || step.SourcesChange? || step.SeeAbsent?
    ensures PublisherSound(Apply(s, step), step.pid)
  {
    if !step.Start? {
      assert PublisherSound(s, step.pid);
    }
  }

  lemma StepKeepsOwnFilling(s: State, step: Step)
    requires Sound(s) && Enabled(s, step) && step.pid in Apply(s, step).live
    requires step.MakeTemp? || step.MoveRegistry? || step.MoveWeights?
    ensures PublisherSound(Apply(s, step), step.pid)
  {
    assert PublisherSound(s, step.pid);
  }

  lemma StepKeepsOwnPlacing(s: State, step: Step)
    requires Sound(s) && Enabled(s, step) && step.pid in Apply(s, step).live
    requires step.Verify? || step.Rename? || step.Reuse?
    ensures PublisherSound(Apply(s, step), step.pid)
  {
    assert PublisherSound(s, step.pid);
  }

  lemma StepKeepsOwnDraft(s: State, step: Step)
    requires Sound(s) && Enabled(s, step) && step.pid in Apply(s, step).live
    requires step.OpenDraft? || step.WriteDraft?
    ensures PublisherSound(Apply(s, step), step.pid)
  {
    var pid, t := step.pid, Apply(s, step);
    assert PublisherSound(s, pid);
    assert t.live[pid] == s.live[pid].(stage := if step.OpenDraft? then Drafting else Drafted);
    assert t.generations == s.generations;
  }

  lemma StepKeepsOwn(s: State, step: Step)
    requires Sound(s) && Enabled(s, step) && step.pid in Apply(s, step).live
    ensures PublisherSound(Apply(s, step), step.pid)
  {
    if step.Start? || step.SourcesChange? || step.SeeAbsent? {
      StepKeepsOwnStart(s, step);
    } else if step.MakeTemp? || step.MoveRegistry? || step.MoveWeights? {
      StepKeepsOwnFilling(s, step);
    } else if step.Verify? || step.Rename? || step.Reuse? {
      StepKeepsOwnPlacing(s, step);
    } else {
      StepKeepsOwnDraft(s, step);
    }
  }

  lemma StepKeepsSound(s: State, step: Step)
    requires Sound(s) && Enabled(s, step)
    ensures Sound(Apply(s, step)) && Keeps(s, Apply(s, step))
  {
    StepKeepsGenerations(s, step);
    StepKeepsManifest(s, step);
    var t := Apply(s, step);
    forall pid | pid in t.live
      ensures PublisherSound(t, pid)
    {
      if pid == step.pid {
        StepKeepsOwn(s, step);
      } else {
        StepKeepsOthers(s, step, pid);
      }
    }
  }

  /** A publisher may stop at any point. One that fails takes its private directory and draft
      with it, one that crashes leaves both, and neither touches a generation or the manifest. */
  lemma StoppingIsAlwaysPossible(s: State, pid: Pid)
    requires Sound(s) && pid in s.live
    ensures Enabled(s, Fail(pid)) && Enabled(s, Crash(pid))
    ensures var t := Apply(s, Fail(pid));
      && t.generations == s.generations && t.manifest == s.manifest && pid !in t.live
      && (OwnsTemp(s.live[pid]) ==> Key(s, pid) !in t.temps)
      && (s.live[pid].stage in {Drafting, Drafted} ==> pid !in t.drafts)
    ensures var t := Apply(s, Crash(pid));
      && t.generations == s.generations && t.manifest == s.manifest && pid !in t.live
      && t.temps == s.temps && t.drafts == s.drafts
  {
  }

  // ---------- Runs ----------

  ghost predicate StepAt(states: seq<State>, steps: seq<Step>, i: nat)
    requires |states| == |steps| + 1 && i < |steps|
  {
    Enabled(states[i], steps[i]) && states[i + 1] == Apply(states[i], steps[i])
  }

  ghost predicate IsRun(states: seq<State>, steps: seq<Step>)
  {
    |states| == |steps| + 1 && states[0] == EMPTY && forall i :: 0 <= i < |steps| ==> StepAt(states, steps, i)
  }

  /** After any steps of any publishers, crashes included, the manifest is whole, names a
      generation that is present and complete, and no generation has ever been modified. */
  lemma {:induction false} EveryRunIsSound(states: seq<State>, steps: seq<Step>, i: nat, k: nat)
    requires IsRun(states, steps) && i <= k < |states|
    ensures Sound(states[i]) && Sound(states[k]) && Keeps(states[i], states[k])
    decreases k
  {
    if k > 0 {
      var h := k - 1;
      assert StepAt(states, steps, h);
      EveryRunIsSound(states, steps, if i == k then h else i, h);
      StepKeepsSound(states[h], steps[h]);
    }
  }

  /** An existing generation always passes the publisher's own corruption check, so a
      publisher that finds its generation present can reuse it. */
  lemma ReuseNeverFindsCorruption(states: seq<State>, steps: seq<Step>, k: nat, pid: Pid)
    requires IsRun(states, steps) && k < |states|
    requires At(states[k], pid, Hashed)
    ensures Enabled(states[k], Reuse(pid)) <==> states[k].live[pid].build in states[k].generations
    ensures Enabled(states[k], Reuse(pid)) <==> !Enabled(states[k], SeeAbsent(pid))
  {
    EveryRunIsSound(states, steps, k, k);
  }

  // ---------- The reader ----------

  datatype LoadError = NoManifest | Invalid | UnknownMode | NotProduction | Missing | ChecksumMismatch | BadColumns
                     | MetadataMismatch | RowCountMismatch | EmptyArtifact | VersionMismatch

  datatype Loaded = Loaded(mode: string, geometry: string, registry: File, weights: File)

  function FileAt(s: State, e: Entry, registry: bool): Option<File>
  {
    if e.dir !in s.generations then None
    else if registry then s.generations[e.dir].registry else s.generations[e.dir].weights
  }

  // A reader finds the manifest first and opens the two files it names later.
  function LoadFrom(manifest: Option<Draft>, atRegistry: State, atWeights: State, allowSynthetic: bool): Result<Loaded, LoadError>
  {
    if manifest.None? then Err(NoManifest)
    else if manifest.value.Partial? then Err(Invalid)
    else
      var m := manifest.value.manifest;
      var registry, weights := FileAt(atRegistry, m.registry, true), FileAt(atWeights, m.weights, false);
      if m.mode !in ["production", "synthetic"] then Err(UnknownMode)
      else if m.mode != "production" && !allowSynthetic then Err(NotProduction)
      else if registry.None? || weights.None? then Err(Missing)
      else if registry.value != m.registry.sha || weights.value != m.weights.sha then Err(ChecksumMismatch)
      else if !registry.value.hasColumns || !weights.value.hasColumns then Err(BadColumns)
      else if !MetadataMatches(registry.value, m.grid, m.geometry, m.source)
           || !MetadataMatches(weights.value, m.grid, m.geometry, m.source) then Err(MetadataMismatch)
      else if registry.value.rows != m.registry.rows || weights.value.rows != m.weights.rows then Err(RowCountMismatch)
      else if registry.value.rows == 0 || weights.value.rows == 0 then Err(EmptyArtifact)
      else if registry.value.versions != {m.geometry} || weights.value.versions != {m.geometry} then Err(VersionMismatch)
      else Ok(Loaded(m.mode, m.geometry, registry.value, weights.value))
  }

  // A file that both names and holds what the manifest says of it.
  ghost predicate IsAsListed(f: File, e: Entry, m: Manifest)
  {
    && f == e.sha && f.rows == e.rows != 0 && f.hasColumns && f.versions == {m.geometry}
    && f.grid == m.grid && f.geometry == m.geometry && f.source == m.source
  }

  /** What can be wrong with a manifest and the two files found for it. */
  ghost predicate IsFault(e: LoadError, manifest: Option<Draft>, registry: Option<File>, weights: Option<File>, allowSynthetic: bool)
  {
    if manifest.None? then e == NoManifest
    else if manifest.value.Partial? then e == Invalid
    else
      var m := manifest.value.manifest;
      match e
      case UnknownMode => m.mode != "production" && m.mode != "synthetic"
      case NotProduction => m.mode == "synthetic" && !allowSynthetic
      case Missing => registry.None? || weights.None?
      case _ =>
        registry.Some? && weights.Some? &&
        var f, g := registry.value, weights.value;
        match e
        case ChecksumMismatch => f != m.registry.sha || g != m.weights.sha
        case BadColumns => !f.hasColumns || !g.hasColumns
        case MetadataMismatch => (f.grid, f.geometry, f.source) != (m.grid, m.geometry, m.source)
                                 || (g.grid, g.geometry, g.source) != (m.grid, m.geometry, m.source)
        case RowCountMismatch => f.rows != m.registry.rows || g.rows != m.weights.rows
        case EmptyArtifact => f.rows == 0 || g.rows == 0
        case VersionMismatch => f.versions != {m.geometry} || g.versions != {m.geometry}
        case _ => false
  }

  /** On any directory, sound or not: a manifest loads exactly when it is whole, of a mode
      asked for, and both its files are as it lists them; an error names a real fault. */
  lemma LoadsExactlyWhen(manifest: Option<Draft>, atRegistry: State, atWeights: State, allowSynthetic: bool)
    ensures var r := LoadFrom(manifest, atRegistry, atWeights, allowSynthetic);
      && (r.Ok? <==>
            && manifest.Some? && manifest.value.Written?
            && var m := manifest.value.manifest;
               var registry, weights := FileAt(atRegistry, m.registry, true), FileAt(atWeights, m.weights, false);
               && (m.mode == "production" || (m.mode == "synthetic" && allowSynthetic))
               && registry.Some? && IsAsListed(registry.value, m.registry, m)
               && weights.Some? && IsAsListed(weights.value, m.weights, m)
               && (r.Ok? ==> r.value == Loaded(m.mode, m.geometry, registry.value, weights.value)))
      && (r.Err? && manifest.Some? && manifest.value.Written? ==>
            var m := manifest.value.manifest;
            IsFault(r.error, manifest, FileAt(atRegistry, m.registry, true), FileAt(atWeights, m.weights, false), allowSynthetic))
      && (r.Err? && !(manifest.Some? && manifest.value.Written?) ==> IsFault(r.error, manifest, None, None, allowSynthetic))
  {
  }

  function Load(s: State, allowSynthetic: bool): Result<Loaded, LoadError>
  {
    LoadFrom(s.manifest, s, s, allowSynthetic)
  }

  // What the reader asks for and no publisher checks: the version column of every row.
  predicate VersionColumnsAgree(b: Build)
  {
    b.registry.versions == {b.geometry} && b.weights.versions == {b.geometry}
  }

  /** Whatever publishers do while a reader is at work, a manifest it found loads, with two
      exceptions only: a synthetic build read as production, and version columns that
      disagree with the build. The manifest is read at one moment of the run, the files at
      any later ones. */
  lemma ReaderAcceptsExactlyWhen(states: seq<State>, steps: seq<Step>, i: nat, j: nat, k: nat, allowSynthetic: bool)
    requires IsRun(states, steps) && i <= j < |states| && i <= k < |states| && states[i].manifest.Some?
    ensures states[i].manifest.value.Written?
    ensures var b := states[i].manifest.value.manifest.registry.dir;
      var r := LoadFrom(states[i].manifest, states[j], states[k], allowSynthetic);
      && (r.Ok? <==> (b.mode == "production" || allowSynthetic) && VersionColumnsAgree(b))
      && (r.Err? ==> r.error in {NotProduction, VersionMismatch})
      && (r.Ok? ==> r.value == Loaded(b.mode, b.geometry, b.registry, b.weights))
  {
    EveryRunIsSound(states, steps, i, j);
    EveryRunIsSound(states, steps, i, k);
  }

  /** A build every publisher check accepts and no reader loads: rows stamped with another version. */
  lemma PublishedButUnreadable()
    ensures exists b: Build ::
              && PublisherAccepts(b)
              && Load(EMPTY.(generations := map[b := Complete(b)], manifest := Some(Written(ManifestOf(b)))), true)
                 == Err(VersionMismatch)
  {
    var f := File("g", "2024", "s", 1, true, true, {"2023"});
    var b := Build("production", "2024", "g", "s", f, f, 1, 1);
    assert PublisherAccepts(b);
    assert "2023"[3] != "2024"[3];
    assert "2024" !in f.versions;
    var s := EMPTY.(generations := map[b := Complete(b)], manifest := Some(Written(ManifestOf(b))));
    assert Load(s, true) == Err(VersionMismatch);
  }
}
