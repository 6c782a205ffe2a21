/** Concrete inputs on which the warehouse keeps more than its processed granules back: a
    six-step run that strands an hour and a cell, and a commit of an unlisted granule
    (storage/duckdb/granules.py, ingestion/tempo/sync.py). */
module StrandedHour {
  import opened Prelude
  import opened RegionWeights
  import opened RegionHour
  import opened GranuleInventory
  import opened GranuleRefinement
  import GridLatest
  import GranuleWarehouse

  // The granule's two revisions fall into different hours, and only the first sees the cell.
  function GridAt(hour: int): Grid
  {
    if hour == 1 then Grid(1, 60, 1, 1, 1, 1, true, map[(0, 0) := 1.0], map[(0, 0) := 0])
    else Grid(hour, 60 * hour, 1, 1, 1, 1, true, map[], map[])
  }

  // The first revision of the file observes hour 1, the second hour 2.
  function Extract(content: Bytes): Option<Grid>
  {
    if content == "first" then Some(GridAt(1)) else if content == "second" then Some(GridAt(2)) else None
  }

  // One country of one cell.
  function OneRow(): seq<WeightRow> { [WeightRow("r", Cell(0, 0, 1.0))] }

  function OneRegion(): Geography
  {
    Geography(Weights([Cell(0, 0, 1.0)], ["r"], [0, 1]), map["r" := RegionMeta("US", "country")], false, "v", {0})
  }

  lemma OneRegionLoads()
    ensures FromTable(OneRow(), true) == Ok(OneRegion().weights)
  {
    var ids := Ids(OneRow());
    assert ids == ["r"] && ids[..0] == [];
    assert Dictionary([]) == [] && Dictionary(ids) == ["r"];
    assert Codes(ids) == [0];
    assert Cells(OneRow()) == [Cell(0, 0, 1.0)];
    assert Starts([0]) + [1] == [0, 1];
  }

  function TheSite(): Site
  {
    Site(OneRegion(), Extract, (id: string) => id, (path: string) => true)
  }

  lemma SiteIsSound()
    ensures TheSite().Sound()
  {
    assert OneRegion().weights.RunInBounds(0);
  }

  // ---------- Pooling a lone granule ----------

  // The rows a lone granule of an hour is pooled into.
  ghost function LoneRows(hour: int): seq<RegionRow>
  {
    SiteIsSound();
    RegionRows([Scan("g", GridAt(hour))], OneRegion())
  }

  lemma LonePools(hour: int)
    ensures LoneRows(hour) != []
    ensures TheSite().Sound() && PoolHour([Scan("g", GridAt(hour))] + [], OneRegion()) == Ok(LoneRows(hour))
  {
    SiteIsSound();
    var scans := [Scan("g", GridAt(hour))];
    assert scans + [] == scans;
    assert scans[1..] == [];
    assert ScanError(scans[0], OneRegion()) == None;
    assert FirstScanError(scans, OneRegion()) == None;
    assert OneHour(scans) && AllRegionsKnown(OneRegion());
  }

  // Committing the granule when no other has been processed.
  lemma LoneCommit(s: State, hour: int, content: Bytes, t: State)
    requires forall id :: id in s.inventory ==> id == "g"
    requires TheSite().Sound()
    requires Lands(s, hour, content, t) && GridAt(hour).hour == hour
    ensures Commits(TheSite(), s, t, "g", "g", GridAt(hour), Sha256(content), 0)
  {
    LonePools(hour);
    assert Siblings(s.inventory, "g", hour) == {};
    assert MarkRestored(s.inventory, map[]) == s.inventory;
    assert ScansOf(TheSite(), s.inventory, []) == [];
    assert CommitsWith(TheSite(), s, t, "g", "g", GridAt(hour), Sha256(content), 0, [], LoneRows(hour), map[]);
  }

  // ---------- The run ----------

  function FoundAt(revision: int): seq<Discovered> { [Discovered("g", Some(revision), None)] }

  function Waiting(revision: int): Inventory
  {
    map["g" := Row(Pending, Pending, Pending, None, None, None, None, Some(revision), None)]
  }

  function Processed(content: Bytes, hour: int, revision: int): Inventory
  {
    map["g" := Row(Done, Done, Done, Some("g"), Some(Sha256(content)), Some(hour), Some(0), Some(revision), None)]
  }

  const NOTHING := State(map[], map[], map[], {}, map[])

  const SEEN: GridLatest.Batch := map[(0, 0) := GridLatest.Observation(60, 0, "g", Some(1.0), 0)]

  const FOUND := State(Waiting(1), map[], map[], {}, map[])

  // Every content is on the granule's raw path when it is processed.
  const FETCHED := FOUND.(files := map["g" := "first"])

  ghost function InHourOne(): State
  {
    State(Processed("first", 1, 1), map[1 := LoneRows(1)], map["g" := "first"], {}, SEEN)
  }

  ghost function FoundAgain(): State { State(Waiting(2), map[1 := LoneRows(1)], map[], {1}, SEEN) }

  ghost function FetchedAgain(): State { FoundAgain().(files := map["g" := "second"]) }

  ghost function InHourTwo(): State
  {
    State(Processed("second", 2, 2), map[1 := LoneRows(1), 2 := LoneRows(2)], map["g" := "second"], {1}, SEEN)
  }

  ghost function TheStates(): seq<State>
  {
    [NOTHING, FOUND, FETCHED, InHourOne(), FoundAgain(), FetchedAgain(), InHourTwo()]
  }

  function TheSteps(): seq<Step>
  {
    [Discover(FoundAt(1)), FilesChange, Process("g", "g", GridAt(1), "first", 0),
     Discover(FoundAt(2)), FilesChange, Process("g", "g", GridAt(2), "second", 0)]
  }

  lemma SeenByFirstOnly()
    ensures TheSite().Sound()
    ensures GridLatest.Merged(map[], GridLatest.LatestBatch(OneRegion(), "g", GridAt(1), 0)) == SEEN
    ensures GridLatest.LatestBatch(OneRegion(), "g", GridAt(2), 0) == map[]
    ensures GridLatest.Merged(SEEN, map[]) == SEEN
  {
    SiteIsSound();
    assert OneRegion().weights.Slice(0) == [Cell(0, 0, 1.0)];
    assert GridLatest.Places([Cell(0, 0, 1.0)]) == {(0, 0)};
    assert GridLatest.SupportedUpTo(OneRegion(), 1) == {(0, 0)};
    assert GridLatest.LatestBatch(OneRegion(), "g", GridAt(1), 0) == SEEN;
  }

  lemma FirstDiscovery()
    ensures AfterDiscovery(TheSite(), NOTHING, FoundAt(1)) == FOUND
  {
    var none: Inventory := map[];
    assert Requeued(none, FoundAt(1)) == {} && ResetAll(none, {}) == none;
    assert FoundAt(1)[..0] == [] && MergeAll(none, []) == none;
    assert MergeAll(none, FoundAt(1)) == Waiting(1);
    assert StalePaths(TheSite(), none, {}) == {} && HoursLeft(none, {}) == {};
  }

  lemma SecondDiscovery()
    ensures AfterDiscovery(TheSite(), InHourOne(), FoundAt(2)) == FoundAgain()
  {
    var before, batch := Processed("first", 1, 1), FoundAt(2);
    assert batch[0] in batch && Overtaken(before["g"], batch[0]);
    assert Requeued(before, batch) == {"g"};
    assert ResetAll(before, {"g"}) == map["g" := Reset(before["g"])];
    assert batch[..0] == [] && MergeAll(ResetAll(before, {"g"}), []) == ResetAll(before, {"g"});
    assert MergeAll(ResetAll(before, {"g"}), batch) == Waiting(2);
    assert HoursLeft(before, {"g"}) == {1};
    assert StalePaths(TheSite(), before, {"g"}) == {"g"};
    assert map["g" := "first"] - {"g"} == map[];
  }

  lemma NowProcessed(content: Bytes, hour: int, revision: int)
    ensures MarkProcessed(Waiting(revision), "g", "g", Sha256(content), hour, 0) == Processed(content, hour, revision)
    ensures HourLeftBehind(Waiting(revision), "g", hour) == {}
  {
  }

  lemma LoneStep(s: State, hour: int, content: Bytes, t: State)
    requires s.inventory.Keys == {"g"} && IsPending(s.inventory["g"])
    requires TheSite().Sound() && Extract(content) == Some(GridAt(hour)) && GridAt(hour).hour == hour
    requires Lands(s, hour, content, t)
    ensures Next(TheSite(), s, Process("g", "g", GridAt(hour), content, 0), t)
  {
    LoneCommit(s, hour, content, t);
  }

  // What a commit of the granule leaves, field by field.
  ghost predicate Lands(s: State, hour: int, content: Bytes, t: State)
    requires TheSite().Sound()
  {
    && t.inventory == MarkProcessed(s.inventory, "g", "g", Sha256(content), hour, 0)
    && t.hourly == s.hourly[hour := LoneRows(hour)]
    && t.dirty == s.dirty + HourLeftBehind(s.inventory, "g", hour) - {hour}
    && t.latest == GridLatest.Merged(s.latest, GridLatest.LatestBatch(OneRegion(), "g", GridAt(hour), 0))
  }

  lemma FirstCommit()
    ensures TheSite().Sound() && Lands(FETCHED, 1, "first", InHourOne())
  {
    SeenByFirstOnly();
    NowProcessed("first", 1, 1);
    var hourly: map<int, seq<RegionRow>> := map[];
    assert hourly[1 := LoneRows(1)] == map[1 := LoneRows(1)];
  }

  lemma SecondCommit()
    ensures TheSite().Sound() && Lands(FetchedAgain(), 2, "second", InHourTwo())
  {
    SeenByFirstOnly();
    NowProcessed("second", 2, 2);
    var hourly := map[1 := LoneRows(1)];
    assert hourly[2 := LoneRows(2)] == map[1 := LoneRows(1), 2 := LoneRows(2)];
  }

  lemma FirstDiscoverStep()
    ensures TheSite().Sound()
    ensures Next(TheSite(), NOTHING, Discover(FoundAt(1)), FOUND)
  {
    SiteIsSound();
    FirstDiscovery();
  }

  lemma SecondDiscoverStep()
    ensures TheSite().Sound()
    ensures Next(TheSite(), InHourOne(), Discover(FoundAt(2)), FoundAgain())
  {
    SiteIsSound();
    SecondDiscovery();
  }

  lemma FetchSteps()
    ensures TheSite().Sound()
    ensures Next(TheSite(), FOUND, FilesChange, FETCHED) && Next(TheSite(), FoundAgain(), FilesChange, FetchedAgain())
  {
    SiteIsSound();
  }

  lemma FirstStep()
    ensures TheSite().Sound()
    ensures Next(TheSite(), FETCHED, Process("g", "g", GridAt(1), "first", 0), InHourOne())
  {
    FirstCommit();
    LoneStep(FETCHED, 1, "first", InHourOne());
  }

  lemma SecondStep()
    ensures TheSite().Sound()
    ensures Next(TheSite(), FetchedAgain(), Process("g", "g", GridAt(2), "second", 0), InHourTwo())
  {
    SecondCommit();
    LoneStep(FetchedAgain(), 2, "second", InHourTwo());
  }

  lemma FirstHalf()
    ensures TheSite().Sound()
    ensures IsRun(TheSite(), [NOTHING] + [FOUND, FETCHED, InHourOne()],
                  [] + [Discover(FoundAt(1)), FilesChange, Process("g", "g", GridAt(1), "first", 0)])
  {
    FirstDiscoverStep();
    FetchSteps();
    FirstStep();
    assert IsRun(TheSite(), [NOTHING], []);
    ThreeSteps(TheSite(), [NOTHING], [], Discover(FoundAt(1)), FOUND, FilesChange, FETCHED,
               Process("g", "g", GridAt(1), "first", 0), InHourOne());
  }

  lemma TheRun()
    ensures TheSite().Sound()
    ensures IsRun(TheSite(), TheStates(), TheSteps())
  {
    FirstHalf();
    var states, steps := [NOTHING] + [FOUND, FETCHED, InHourOne()],
                         [] + [Discover(FoundAt(1)), FilesChange, Process("g", "g", GridAt(1), "first", 0)];
    SecondHalf(states, steps);
    assert states + [FoundAgain(), FetchedAgain(), InHourTwo()] == TheStates();
    assert steps + [Discover(FoundAt(2)), FilesChange, Process("g", "g", GridAt(2), "second", 0)] == TheSteps();
  }

  lemma SecondHalf(states: seq<State>, steps: seq<Step>)
    requires TheSite().Sound() && IsRun(TheSite(), states, steps) && states[|steps|] == InHourOne()
    ensures IsRun(TheSite(), states + [FoundAgain(), FetchedAgain(), InHourTwo()],
                  steps + [Discover(FoundAt(2)), FilesChange, Process("g", "g", GridAt(2), "second", 0)])
  {
    SecondDiscoverStep();
    FetchSteps();
    SecondStep();
    ThreeSteps(TheSite(), states, steps, Discover(FoundAt(2)), FoundAgain(), FilesChange, FetchedAgain(),
               Process("g", "g", GridAt(2), "second", 0), InHourTwo());
  }

  // A run goes on for three steps.
  lemma ThreeSteps(site: Site, states: seq<State>, steps: seq<Step>, s1: Step, b: State, s2: Step, c: State, s3: Step, d: State)
    requires IsRun(site, states, steps)
    requires Next(site, states[|steps|], s1, b) && Next(site, b, s2, c) && Next(site, c, s3, d)
    ensures IsRun(site, states + [b, c, d], steps + [s1, s2, s3])
  {
    var states', steps', n := states + [b, c, d], steps + [s1, s2, s3], |steps|;
    forall i | 0 <= i < n + 3
      ensures Next(site, states'[i], steps'[i], states'[i + 1])
    {
      if i < n {
        assert states'[i] == states[i] && states'[i + 1] == states[i + 1] && steps'[i] == steps[i];
      } else {
        assert i == n || i == n + 1 || i == n + 2;
      }
    }
  }

  /** On weights the reader loads: discovered, processed into hour 1, discovered again at a
      later revision, processed into hour 2. Hour 1 keeps the rows of a granule that is no
      longer in it. */
  lemma StrandedHourExists()
    ensures FromTable(OneRow(), true) == Ok(TheSite().geography.weights)
    ensures TheSite().Sound() && IsRun(TheSite(), TheStates(), TheSteps())
    ensures ProcessedIn(InHourTwo().inventory, 1) == {} && 1 in InHourTwo().hourly
  {
    OneRegionLoads();
    TheRun();
  }

  /** After the same run the cell still shows what the superseded revision saw, though the
      granule's current content does not observe the cell at all. */
  lemma SupersededCellSurvives()
    ensures TheSite().Sound() && IsRun(TheSite(), TheStates(), TheSteps())
    ensures InHourTwo().latest[(0, 0)].granuleId == "g" && InHourTwo().latest[(0, 0)].time == 60
    ensures InHourTwo().inventory["g"].checksum == Some(Sha256("second"))
    ensures !Backed(TheSite(), InHourTwo(), (0, 0))
  {
    TheRun();
    LatestOfSecond(0);
  }

  lemma LatestOfSecond(ingestedAt: int)
    ensures TheSite().Sound() && (0, 0) !in GridLatest.LatestBatch(OneRegion(), "g", GridAt(2), ingestedAt)
  {
    SiteIsSound();
  }

  // A requeue that stops after its UPDATE, and the discovery that is run after it.
  ghost function Repeated(): State
  {
    var s := InHourOne();
    AfterDiscovery(TheSite(), AfterRequeue(s, FoundAt(2), {}), FoundAt(2))
  }

  lemma RepeatedTables()
    ensures Repeated().inventory == Waiting(2) && Repeated().files == map["g" := "first"]
  {
    var s := InHourOne();
    SecondDiscovery();
    RepeatedDiscoveryKeepsStaleFiles(TheSite(), s, FoundAt(2), {});
    NothingRemoved(s.files);
  }

  /** The row waits for revision 2, and what it will be processed from is the file of
      revision 1 that the interruption left behind, although revision 2 could be downloaded. */
  lemma LeftoverFileWins()
    ensures Repeated().inventory == Waiting(2)
    ensures GranuleWarehouse.Fetched(Repeated().files, "g", TheSite().rawPath("g"), Repeated().inventory["g"].checksum,
                                     map["g" := "second"]) == Some("first")
  {
    RepeatedTables();
  }

  /** Revision 1 was fetched and the process stopped before committing it; revision 2 is then
      discovered, and it too will be processed from the file of revision 1. */
  lemma WaitingFileWins()
    ensures var t := AfterDiscovery(TheSite(), FETCHED, FoundAt(2));
      && t.inventory == Waiting(2)
      && GranuleWarehouse.Fetched(t.files, "g", TheSite().rawPath("g"), t.inventory["g"].checksum, map["g" := "second"])
         == Some("first")
  {
    var waiting, batch := Waiting(1), FoundAt(2);
    assert Requeued(waiting, batch) == {};
    NothingReset(TheSite(), waiting, FETCHED.files, {});
    assert batch[..0] == [] && MergeAll(waiting, []) == waiting;
    assert MergeAll(waiting, batch) == Waiting(2);
  }

  /** A granule processed without an inventory row: its hour is stored and counts one
      granule, of which the inventory knows nothing. */
  lemma UnlistedGranuleIsPooled()
    ensures TheSite().Sound()
    ensures var t := State(map[], map[1 := LoneRows(1)], map[], {}, SEEN);
      && RowsOk(TheSite(), t.inventory)
      && Commits(TheSite(), NOTHING, t, "g", "g", GridAt(1), Sha256("first"), 0)
      && !HourOk(TheSite(), t, 1)
  {
    SeenByFirstOnly();
    var t := State(map[], map[1 := LoneRows(1)], map[], {}, SEEN);
    LoneCommit(NOTHING, 1, "first", t);
    CommittedHourRightExactlyWhenListed(TheSite(), NOTHING, t, "g", "g", GridAt(1), "first", 0);
  }
}
