/** One publisher at work: the calls of geography/publish.py on an output directory, each
    a run of the publication machine. */
module PublicationStore {
  import opened Prelude
  import opened Publication

  datatype PublishError = Rejected | StaleTemporary | NotPlaced | CorruptGeneration | NotAnnounced

  // Where the file system raises: while the sources are moved into place, or while the
  // manifest is written or swapped.
  datatype Fault = NoFault | WhilePlacing | WhileAnnouncing

  // ---------- Runs of several steps ----------

  ghost predicate Leads(s: State, steps: seq<Step>, t: State)
    decreases |steps|
  {
    if steps == [] then s == t else Enabled(s, steps[0]) && Leads(Apply(s, steps[0]), steps[1..], t)
  }

  lemma {:induction false} LeadsCons(s: State, step: Step, steps: seq<Step>, t: State)
    requires Enabled(s, step) && Leads(Apply(s, step), steps, t)
    ensures Leads(s, [step] + steps, t)
  {
    assert ([step] + steps)[0] == step && ([step] + steps)[1..] == steps;
  }

  lemma {:induction false} LeadsJoin(s: State, first: seq<Step>, t: State, second: seq<Step>, u: State)
    requires Leads(s, first, t) && Leads(t, second, u)
    ensures Leads(s, first + second, u)
    decreases |first|
  {
    if first == [] {
      assert first + second == second;
    } else {
      LeadsJoin(Apply(s, first[0]), first[1..], t, second, u);
      assert first + second == [first[0]] + (first[1..] + second);
      LeadsCons(s, first[0], first[1..] + second, u);
    }
  }

  // ---------- The publisher's own run ----------

  function Started(s: State, pid: Pid, b: Build): State
    requires pid !in s.live
  {
    s.(live := s.live[pid := Publisher(b, Hashed, Some(b.registry), Some(b.weights))])
  }

  function Ready(s: State, pid: Pid, b: Build): State
  {
    s.(generations := s.generations[b := Complete(b)], live := s.live[pid := Publisher(b, InPlace, None, None)])
  }

  function Published(s: State, pid: Pid, b: Build): State
  {
    s.(generations := s.generations[b := Complete(b)], drafts := s.drafts - {pid},
       manifest := Some(Written(ManifestOf(b))))
  }

  function FillSteps(pid: Pid): seq<Step> { [SeeAbsent(pid), MakeTemp(pid)] + [MoveRegistry(pid), MoveWeights(pid)] }

  function AnnounceSteps(pid: Pid): seq<Step> { [OpenDraft(pid), WriteDraft(pid)] + [Swap(pid)] }

  // The state with the publisher at a stage, its directory and its sources as given.
  function Filling(s: State, pid: Pid, b: Build, stage: Stage, dir: Dir, sources: bool): State
  {
    s.(temps := s.temps[(b, pid) := dir],
       live := s.live[pid := if sources then Publisher(b, stage, Some(b.registry), Some(b.weights))
                             else Publisher(b, stage, None, None)])
  }

  lemma {:induction false} LeadsTwo(s: State, first: Step, second: Step, t: State)
    requires Enabled(s, first) && Enabled(Apply(s, first), second) && t == Apply(Apply(s, first), second)
    ensures Leads(s, [first, second], t)
  {
    LeadsCons(Apply(s, first), second, [], t);
    LeadsCons(s, first, [second], t);
  }

  lemma TempRuns(s: State, pid: Pid, b: Build)
    requires pid !in s.live && b !in s.generations && (b, pid) !in s.temps
    ensures Leads(Started(s, pid, b), [SeeAbsent(pid), MakeTemp(pid)], Filling(s, pid, b, TempMade, Dir(None, None), true))
  {
    var s1 := Started(s, pid, b);
    var s2 := Apply(s1, SeeAbsent(pid));
    var s3 := Apply(s2, MakeTemp(pid));
    assert s3.live == Filling(s, pid, b, TempMade, Dir(None, None), true).live;
    LeadsTwo(s1, SeeAbsent(pid), MakeTemp(pid), s3);
  }

  lemma MoveRuns(s: State, pid: Pid, b: Build)
    ensures Leads(Filling(s, pid, b, TempMade, Dir(None, None), true), [MoveRegistry(pid), MoveWeights(pid)],
                  Filling(s, pid, b, WeightsMoved, Complete(b), false))
  {
    var s1 := Filling(s, pid, b, TempMade, Dir(None, None), true);
    var s2 := Apply(s1, MoveRegistry(pid));
    var s3 := Apply(s2, MoveWeights(pid));
    var goal := Filling(s, pid, b, WeightsMoved, Complete(b), false);
    assert s3.live == goal.live;
    assert s3.temps == goal.temps;
    LeadsTwo(s1, MoveRegistry(pid), MoveWeights(pid), s3);
  }

  lemma PlaceRuns(s: State, pid: Pid, b: Build)
    requires pid !in s.live && b !in s.generations && (b, pid) !in s.temps
    ensures Leads(Filling(s, pid, b, WeightsMoved, Complete(b), false), [Verify(pid), Rename(pid)], Ready(s, pid, b))
  {
    var s1 := Filling(s, pid, b, WeightsMoved, Complete(b), false);
    var s2 := Apply(s1, Verify(pid));
    var s3 := Apply(s2, Rename(pid));
    assert s3.temps == s.temps;
    assert s3.live == Ready(s, pid, b).live;
    LeadsTwo(s1, Verify(pid), Rename(pid), s3);
  }

  lemma DraftRuns(s: State, pid: Pid, b: Build)
    ensures Leads(Ready(s, pid, b), [OpenDraft(pid), WriteDraft(pid)],
                  s.(generations := s.generations[b := Complete(b)], drafts := s.drafts[pid := Written(ManifestOf(b))],
                     live := s.live[pid := Publisher(b, Drafted, None, None)]))
  {
    var s1 := Ready(s, pid, b);
    var s2 := Apply(s1, OpenDraft(pid));
    var s3 := Apply(s2, WriteDraft(pid));
    assert s3.drafts == s.drafts[pid := Written(ManifestOf(b))];
    assert s3.live == s.live[pid := Publisher(b, Drafted, None, None)];
    LeadsTwo(s1, OpenDraft(pid), WriteDraft(pid), s3);
  }

  lemma AnnounceRuns(s: State, pid: Pid, b: Build)
    requires pid !in s.live
    ensures Leads(Ready(s, pid, b), AnnounceSteps(pid), Published(s, pid, b))
  {
    var s1 := s.(generations := s.generations[b := Complete(b)], drafts := s.drafts[pid := Written(ManifestOf(b))],
                 live := s.live[pid := Publisher(b, Drafted, None, None)]);
    var s2 := Apply(s1, Swap(pid));
    assert s2.drafts == s.drafts - {pid};
    assert s2.live == s.live;
    LeadsCons(s1, Swap(pid), [], s2);
    DraftRuns(s, pid, b);
    LeadsJoin(Ready(s, pid, b), [OpenDraft(pid), WriteDraft(pid)], s1, [Swap(pid)], s2);
  }

  function PlacingSteps(s: State, pid: Pid, b: Build): seq<Step>
  {
    [Start(pid, b)] + (if b in s.generations then [Reuse(pid)] else FillSteps(pid) + [Verify(pid), Rename(pid)])
  }

  predicate CanPublish(s: State, pid: Pid, b: Build)
  {
    PublisherAccepts(b) && if b in s.generations then s.generations[b] == Complete(b) else (b, pid) !in s.temps
  }

  lemma ReuseRuns(s: State, pid: Pid, b: Build)
    requires b in s.generations && s.generations[b] == Complete(b) && pid !in s.live
    ensures Leads(Started(s, pid, b), [Reuse(pid)], Ready(s, pid, b))
  {
    assert Apply(Started(s, pid, b), Reuse(pid)) == Ready(s, pid, b) by {
      assert s.generations[b := Complete(b)] == s.generations;
    }
    LeadsCons(Started(s, pid, b), Reuse(pid), [], Ready(s, pid, b));
  }

  lemma FillRuns(s: State, pid: Pid, b: Build)
    requires pid !in s.live && b !in s.generations && (b, pid) !in s.temps
    ensures Leads(Started(s, pid, b), FillSteps(pid) + [Verify(pid), Rename(pid)], Ready(s, pid, b))
  {
    var s1 := Started(s, pid, b);
    var made, moved := Filling(s, pid, b, TempMade, Dir(None, None), true), Filling(s, pid, b, WeightsMoved, Complete(b), false);
    TempRuns(s, pid, b);
    MoveRuns(s, pid, b);
    LeadsJoin(s1, [SeeAbsent(pid), MakeTemp(pid)], made, [MoveRegistry(pid), MoveWeights(pid)], moved);
    PlaceRuns(s, pid, b);
    LeadsJoin(s1, FillSteps(pid), moved, [Verify(pid), Rename(pid)], Ready(s, pid, b));
  }

  lemma {:induction false} PlacingIsARun(s: State, pid: Pid, b: Build)
    requires pid !in s.live && CanPublish(s, pid, b)
    ensures Leads(s, PlacingSteps(s, pid, b), Ready(s, pid, b))
  {
    if b in s.generations {
      ReuseRuns(s, pid, b);
    } else {
      FillRuns(s, pid, b);
    }
    assert Apply(s, Start(pid, b)) == Started(s, pid, b);
    LeadsCons(s, Start(pid, b), if b in s.generations then [Reuse(pid)] else FillSteps(pid) + [Verify(pid), Rename(pid)],
              Ready(s, pid, b));
  }

  /** From any state whatever, a free publisher that is left alone reaches its goal by
      steps of the machine: its generation in place and the manifest pointing at it. */
  lemma {:induction false} SoloPublishIsARun(s: State, pid: Pid, b: Build)
    requires pid !in s.live && CanPublish(s, pid, b)
    ensures Leads(s, PlacingSteps(s, pid, b) + AnnounceSteps(pid), Published(s, pid, b))
  {
    PlacingIsARun(s, pid, b);
    AnnounceRuns(s, pid, b);
    LeadsJoin(s, PlacingSteps(s, pid, b), Ready(s, pid, b), AnnounceSteps(pid), Published(s, pid, b));
  }

  // The generation in place, the manifest as it was.
  function Placed(s: State, pid: Pid, b: Build): State
  {
    s.(generations := s.generations[b := Complete(b)], drafts := s.drafts - {pid})
  }

  lemma FailRuns(s: State, pid: Pid, b: Build)
    requires pid !in s.live
    ensures Leads(Ready(s, pid, b), [OpenDraft(pid), Fail(pid)], Placed(s, pid, b))
  {
    var s1 := Ready(s, pid, b);
    var s2 := Apply(s1, OpenDraft(pid));
    assert s2.drafts == s.drafts[pid := Partial];
    assert s2.live == s.live[pid := Publisher(b, Drafting, None, None)];
    var s3 := Apply(s2, Fail(pid));
    assert s3.drafts == s.drafts - {pid};
    assert s3.live == s.live;
    LeadsTwo(s1, OpenDraft(pid), Fail(pid), s3);
  }

  /** A publisher that fails to announce has still placed its generation, and nothing else:
      the steps of the machine up to the draft, then a failure. */
  lemma {:induction false} FailedAnnounceIsARun(s: State, pid: Pid, b: Build)
    requires pid !in s.live && CanPublish(s, pid, b)
    ensures Leads(s, PlacingSteps(s, pid, b) + [OpenDraft(pid), Fail(pid)], Placed(s, pid, b))
  {
    PlacingIsARun(s, pid, b);
    FailRuns(s, pid, b);
    LeadsJoin(s, PlacingSteps(s, pid, b), Ready(s, pid, b), [OpenDraft(pid), Fail(pid)], Placed(s, pid, b));
  }

  /** Whatever happens after such a failure, any publisher of the same build finds the
      generation and can announce it without placing anything. */
  lemma RetryAfterFailedAnnounce(s: State, u: State, pid: Pid, again: Pid, b: Build)
    requires CanPublish(s, pid, b) && Keeps(Placed(s, pid, b), u)
    ensures CanPublish(u, again, b) && b in u.generations
    ensures Published(u, again, b).generations == u.generations
    ensures Published(u, again, b).manifest == Some(Written(ManifestOf(b)))
  {
    assert u.generations[b] == Complete(b);
    assert u.generations[b := Complete(b)] == u.generations;
  }

  // ---------- Publishers that share a process id ----------

  // Threads of one process on one directory: their private names all carry the same id.
  datatype Threads = Threads(disk: State, work: map<int, Publisher>)

  // The directory as one thread sees it.
  function ViewOf(o: Threads, pid: Pid, thread: int): State
  {
    o.disk.(live := if thread in o.work then map[pid := o.work[thread]] else map[])
  }

  function After(o: Threads, pid: Pid, thread: int, step: Step): Threads
    requires Enabled(ViewOf(o, pid, thread), step)
  {
    var s := Apply(ViewOf(o, pid, thread), step);
    Threads(s.(live := map[]), if pid in s.live then o.work[thread := s.live[pid]] else o.work - {thread})
  }

  // Two threads about to announce a generation that is in place.
  function BothReady(b: Build): Threads
  {
    Threads(EMPTY.(generations := map[b := Complete(b)]),
            map[1 := Publisher(b, InPlace, None, None), 2 := Publisher(b, InPlace, None, None)])
  }

  // The first has written its draft.
  function FirstDrafted(pid: Pid, b: Build): Threads
  {
    Threads(EMPTY.(generations := map[b := Complete(b)], drafts := map[pid := Written(ManifestOf(b))]),
            map[1 := Publisher(b, Drafted, None, None), 2 := Publisher(b, InPlace, None, None)])
  }

  lemma FirstWrites(pid: Pid, b: Build)
    ensures Enabled(ViewOf(BothReady(b), pid, 1), OpenDraft(pid))
    ensures var o1 := After(BothReady(b), pid, 1, OpenDraft(pid));
      Enabled(ViewOf(o1, pid, 1), WriteDraft(pid)) && After(o1, pid, 1, WriteDraft(pid)) == FirstDrafted(pid, b)
  {
    var o1 := After(BothReady(b), pid, 1, OpenDraft(pid));
    var o2 := After(o1, pid, 1, WriteDraft(pid));
    assert o2.disk.drafts == FirstDrafted(pid, b).disk.drafts && o2.work == FirstDrafted(pid, b).work;
  }

  /** The process ids of publishers at work must differ. Two threads of one process announce
      the same generation: the second has just opened the draft the first has written when the
      first swaps it in, and the manifest is cut short. */
  lemma SharedProcessIdBreaks(pid: Pid, b: Build)
    ensures Enabled(ViewOf(BothReady(b), pid, 1), OpenDraft(pid))
    ensures var o1 := After(BothReady(b), pid, 1, OpenDraft(pid));
      Enabled(ViewOf(o1, pid, 1), WriteDraft(pid)) && After(o1, pid, 1, WriteDraft(pid)) == FirstDrafted(pid, b)
    ensures Enabled(ViewOf(FirstDrafted(pid, b), pid, 2), OpenDraft(pid))
    ensures var o3 := After(FirstDrafted(pid, b), pid, 2, OpenDraft(pid));
      Enabled(ViewOf(o3, pid, 1), Swap(pid)) && After(o3, pid, 1, Swap(pid)).disk.manifest == Some(Partial)
  {
    FirstWrites(pid, b);
  }

  // ---------- The calls ----------

  class OutputDirectory {
    var generations: map<Build, Dir>
    var temps: map<(Build, Pid), Dir>
    var drafts: map<Pid, Draft>
    var manifest: Option<Draft>

    // The directory as a machine state with no publisher at work.
    function Disk(): State
      reads this
    {
      State(generations, temps, drafts, manifest, map[])
    }

    constructor ()
      ensures Disk() == EMPTY
    {
      generations, temps, drafts, manifest := map[], map[], map[], None;
    }

    /** Write aside, read back, swap; the draft is gone either way. */
    method AtomicJson(pid: Pid, payload: Manifest, fault: Fault) returns (ok: bool)
      modifies this`drafts, this`manifest
      ensures ok <==> fault != WhileAnnouncing
      ensures manifest == if ok then Some(Written(payload)) else old(manifest)
      ensures drafts == old(drafts) - {pid}
    {
      drafts := drafts[pid := Partial];
      ok := fault != WhileAnnouncing;
      if ok {
        drafts := drafts[pid := Written(payload)];
        manifest := Some(drafts[pid]);
      }
      drafts := drafts - {pid};
    }

    /** Moves the sources, whatever they hold by now, into a private directory, and renames
        it into place if they are still what was digested. The private directory is gone
        whatever happens. */
    method PlaceGeneration(pid: Pid, b: Build, registry: File, weights: File, fault: Fault) returns (ok: bool)
      requires b !in generations && (b, pid) !in temps
      modifies this`generations, this`temps
      ensures ok <==> registry == b.registry && weights == b.weights && fault != WhilePlacing
      ensures generations == if ok then old(generations)[b := Complete(b)] else old(generations)
      ensures temps == old(temps)
    {
      ghost var before := temps;
      var key := (b, pid);
      temps := temps[key := Dir(None, None)];
      temps := temps[key := temps[key].(registry := Some(registry))];
      temps := temps[key := temps[key].(weights := Some(weights))];
      if temps[key].registry != Some(b.registry) || temps[key].weights != Some(b.weights) || fault == WhilePlacing {
        temps := temps - {key};
        assert temps == before;
        return false;
      }
      generations := generations[b := temps[key]];
      temps := temps - {key};
      assert temps == before;
      ok := true;
    }

    // Whether the generation is in place by the time the manifest is written.
    ghost predicate Places(pid: Pid, b: Build, registry: File, weights: File, fault: Fault)
      reads this
    {
      && CanPublish(Disk(), pid, b)
      && (b in generations || (registry == b.registry && weights == b.weights && fault != WhilePlacing))
    }

    /** An error leaves the directory as it was, except that a failed announcement leaves
        the generation it placed. */
    method Publish(pid: Pid, b: Build, registry: File, weights: File, fault: Fault) returns (r: Result<Manifest, PublishError>)
      modifies this
      ensures r.Ok? <==> old(Places(pid, b, registry, weights, fault)) && fault != WhileAnnouncing
      ensures r.Ok? ==> r.value == ManifestOf(b) && Disk() == Published(old(Disk()), pid, b)
      ensures r == Err(NotAnnounced) <==> old(Places(pid, b, registry, weights, fault)) && fault == WhileAnnouncing
      ensures r == Err(NotAnnounced) ==> Disk() == Placed(old(Disk()), pid, b)
      ensures r.Err? && r.error != NotAnnounced ==> Disk() == old(Disk())
      ensures r == Err(Rejected) <==> !IsPublishable(b)
    {
      if !PublisherAccepts(b) {
        return Err(Rejected);
      }
      ghost var before := generations;
      if b !in generations {
        if (b, pid) in temps {
          return Err(StaleTemporary);
        }
        var ok := PlaceGeneration(pid, b, registry, weights, fault);
        if !ok {
          return Err(NotPlaced);
        }
      } else {
        if generations[b].registry != Some(b.registry) || generations[b].weights != Some(b.weights) {
          return Err(CorruptGeneration);
        }
        assert before[b := Complete(b)] == before;
      }
      var announced := AtomicJson(pid, ManifestOf(b), fault);
      if !announced {
        return Err(NotAnnounced);
      }
      r := Ok(ManifestOf(b));
    }
  }
}
