# TitanSkies pipeline: a verified model

A Dafny 4.11 model of the decisions inside the TitanSkies data pipeline, and proofs of what
those decisions promise. The pipeline ingests TEMPO NO2 granules into exact hourly regional
aggregates, tracks plumes and publishes analysis generations (PlumeGraph), selects river
corridors and ingests Hydrocron observations (RiverPulse), publishes immutable geography
artifacts, and gates paper reproductions on an inventory of sources.

`dafny verify dfyconfig.toml` checks the whole project.

## How the model reads

Tables are maps or sets keyed by their primary keys. `INSERT OR IGNORE` adds a key if it is
absent, `INSERT OR REPLACE` overwrites it, and a rolled-back transaction restores the tables.
A SHA-256 digest is modelled as the parts it digests, so it is injective. Floating-point
numbers are reals. Geometry (areas, overlaps, intersection), `exp`, file parsing, clocks,
downloads and database failures are parameters. Objects whose methods update their fields
are classes; protocols with crashes and interleaving are step relations over a state value,
and the class methods are proved to be runs of those steps.

What an operation does is stated over its inputs and tables, apart from the functions that
compute it: predicates such as `DiscoveryOutcome`, `HourReports`, `Summarizes`, `Continues` or
`IsNextUp` write the condition out, and a lemma or the method's own contract connects the two.
Induction is always explicit: lemmas on which Dafny would add an induction hypothesis of its own
carry `{:induction false}`.

| modules | what they cover |
|---|---|
| `Prelude` | sums, stable sorting, text order, listings of sets |
| `WeightedStats`, `RegionWeights`, `RegionHour`, `WeightStream` | weighted quantiles, run-length region slices, pooling one hour, the weight generator |
| `GranuleInventory`, `GranuleRefinement`, `GranuleWarehouse`, `StrandedHour`, `GridLatest` | the granule inventory as a state machine, its refinement to "pool every processed granule from scratch", the calls that drive it, and the latest-observation grid |
| `Reachability`, `PixelComponents`, `AnalysisRegions`, `Tracking` | the three worklist searches as reachability classes |
| `Lineage`, `Meteorology`, `Candidates` | plume lineage, wind brackets and sensitivity variants, candidate ranking |
| `Identities`, `Promotion`, `PromotionStore` | order-free identities, the promotion, validation and release protocol, and the calls that drive it |
| `Mainstem`, `NetworkValidation` | the corridor walk and the validators of its output |
| `HydrocronIngest`, `HydrocronStore` | append-only ingest and request handling |
| `Publication`, `PublicationStore` | crash-safe publication and its reader |
| `CalendarWindows` | month, year and ERA5 windows |
| `Inventory`, `Preflight`, `Resolver` | the reproduction inventory, its gate and its producer |

## Where the code does less than one might expect

Each of these is proved, with the exact condition under which the expectation does hold.

- A requeue clears a granule's hour and leaves the hour's stored aggregate alone. The aggregate
  stays right exactly when the requeue takes none of the hour's granules
  (`StaleExactlyWhenRequeued`), and an hour can be left with rows nothing backs
  (`StrandedHourExists`). The same holds cell by cell for the latest observations
  (`CellBackedExactlyWhen`, `SupersededCellSurvives`).
- A requeue that stops between its UPDATE and the deletion of the granule's file leaves a
  pending row without a checksum, and the leftover file is processed as the new revision. A
  requeued granule is downloaded again exactly when its file was absent or deleted in time
  (`LeftoverFileIsTrusted`, `LeftoverFileWins`). So is the file of a granule that was fetched and
  never committed when a newer revision is discovered (`WaitingFileIsTrusted`, `WaitingFileWins`).
- A granule processed without an inventory row is pooled into its hour but not recorded
  (`CommittedHourRightExactlyWhenListed`, `UnlistedGranuleIsPooled`).
- The message "must be sorted by canonical_region_id" is stricter than the check: contiguous
  regions in any order are accepted (`AcceptedExactlyWhenGrouped`).
- An analysis call that finds its run already successful returns it without promoting it, so
  the returned run need not be the current generation (`ReturnedRunIsCurrentWhen`,
  `RevertedInputsKeepNewerGeneration`). The figure named `episodes_inserted` counts the episodes
  of such runs again: it is the growth of the episode table exactly when no returned run was
  already a success with episodes and no attempt repeats a track identity
  (`FigureIsGrowthWhen`, `SecondPassCountsAgain`).
- A validation row keeps its first verdict: the stored verdict is the reported one exactly when
  the first call with the same identity came to it too (`ReportedVerdictIsStoredWhen`,
  `RelaxedThresholdsLeaveOldVerdict`).
- Without an identifier a release is gated on the newest validation, and a repeated validation
  keeps its first completion time, so the one just made need not be the one that gates
  (`JustValidatedIsChosenWhen`, `RepeatedValidationIsNotChosen`).
- A release exports the episode table of the last dbt build and names the generations current
  now. The two agree exactly when no promotion in between went into the partition of an exported
  episode (`ExportedRowsBelongWhen`, `StaleMartIsReleased`).
- A release whose row cannot be inserted has already put its directory in place. The call can
  be repeated exactly while it would publish the same manifest (`RetryAfterFailedRecord`). A
  publisher that cannot write the manifest leaves its generation, and can always be repeated
  (`RetryAfterFailedAnnounce`).
- Analysis attempts must not overlap: a late failure does no harm exactly when its run has not
  been promoted meanwhile (`OverlapWouldBreak`, `LateFailureIsHarmlessWhen`).
- Publishers at work must have distinct process ids, which name their drafts
  (`SharedProcessIdBreaks`).
- A likely top candidate rules out ambiguous ones exactly for contracts whose likely margin, or
  twice the likely probability less one, exceeds the ambiguous margin, or whose likely threshold
  is one (`ExclusionExactlyWhen`, `MarginsMatter`). The shipped contract is one of them.
- A pixel whose coordinate a later one took is found by no neighbour lookup. Adjacency is
  symmetric, and components are reachability classes, exactly when no such pixel has an
  eligible neighbour (`SymmetricExactlyWhenNoShadowedNeighbor`, `ConnectedComponents`,
  `ShadowedPixelIsSplitOff`).
- A publisher does not read the version column of its files, the reader does
  (`ReaderAcceptsExactlyWhen`, `PublishedButUnreadable`).
- The month and year planners fail for ranges that reach past the start of the last month or
  year of the calendar, and the ERA5 planner plans a window for some reversed ranges
  (`MonthWindows`, `CalendarYearWindows`, `ReversedRangeIsPlanned`).
- A source whose provider failed is published as exact without objects
  (`FailedSourceStaysExact`, `TimedOutSourceIsExact`), and a published inventory is refused by
  the gate exactly for a checksum other than the pinned one, a contract address that is not
  HTTP(S), or too many bytes (`PublishedInventoryPasses`, with one inventory for each).

## Model

| member | source | states |
|---|---|---|
| `WeightedStats.QuantileInIsQuantile` | src/titanskies_pipeline/ingestion/tempo/netcdf.py:163-193 | For non-negative weights and a target within the total, sort, cumulative sum and search return the least data value whose cumulative weight reaches the target; the search never runs off the end, so the index clamp never fires |
| `WeightedStats.QuantileUnique` | src/titanskies_pipeline/ingestion/tempo/netcdf.py:177-186 | At most one value is the least one whose cumulative weight reaches a target |
| `WeightedStats.OrderDoesNotMatter` | src/titanskies_pipeline/ingestion/tempo/netcdf.py:163-193 | The statistics are a function of the multiset of pairs: neither arrival order nor how the sort breaks ties matters |
| `WeightedStats.ComputeIsAnyArrangement` | src/titanskies_pipeline/ingestion/tempo/netcdf.py:173-193 | The result is the same for every order by value a sort may return |
| `WeightedStats.ComputePermutation` | src/titanskies_pipeline/ingestion/tempo/netcdf.py:163-193 | Permuting the samples leaves mean, median, ninetieth percentile and count unchanged |
| `WeightedStats.StatsAreOrdered` | src/titanskies_pipeline/ingestion/tempo/netcdf.py:163-193 | With positive total weight, low <= median <= p90 <= high and low <= mean <= high for any bounds of the data, its minimum and maximum included |
| `WeightedStats.ComputeSummarizes` | src/titanskies_pipeline/ingestion/tempo/netcdf.py:163-194 | For non-negative weights of positive sum, mean times the sum of the weights is the sum of value times weight, median and p90 are the least data values whose cumulative weight reaches half and nine tenths of the sum, and the count is the number of pairs; without positive weight all three are missing |
| `WeightedStats.SummaryUnique` | src/titanskies_pipeline/ingestion/tempo/netcdf.py:163-194 | Those statements leave one answer |
| `RegionWeights.AcceptedExactlyWhenGrouped` | src/titanskies_pipeline/ingestion/tempo/aggregate.py:76-115 | A table passed as sorted is accepted if and only if every region's rows are contiguous; ascending order is not needed |
| `RegionWeights.SlicesAreFilters` | src/titanskies_pipeline/ingestion/tempo/aggregate.py:99-115 | Offsets of an accepted table start at 0, end at the row count, list each region once, and each slice is exactly the rows of its region in order |
| `RegionWeights.UnsortedInputIsAccepted` | src/titanskies_pipeline/ingestion/tempo/aggregate.py:84-98 | Without the sorted flag every table is accepted, because sorting groups it |
| `RegionHour.CheckScans` | src/titanskies_pipeline/ingestion/tempo/aggregate.py:127-156 | The hour is refused for mixed hours first, then for the first scan with a shape, reference-grid or weight-range fault |
| `RegionHour.PoolRegion` | src/titanskies_pipeline/ingestion/tempo/aggregate.py:158-206 | The accumulating loop over scans yields the row built from all pooled samples at once |
| `RegionHour.AggregateRegionHour` | src/titanskies_pipeline/ingestion/tempo/aggregate.py:127-206 | Rows if and only if there are scans, all of one hour, every grid as large as its quality grid, on the reference grid where that is pinned and reached by every weight row, and every region known; otherwise the first fault in that order. Row k is of region k: its pool is, scan by scan, the value and area of exactly the cells with a finite value and an accepted flag, and its statistics, counts, areas, coverage and quality are those of the pool |
| `RegionHour.RowForReports` | src/titanskies_pipeline/ingestion/tempo/aggregate.py:158-206 | The row of one region reports the weighted mean, median and p90 of the cells that count, their number and area, the area offered by all scans and the ratio of the two |
| `RegionHour.PoolOrderFree` | src/titanskies_pipeline/ingestion/tempo/aggregate.py:158-177 | Scans pooled in any order give the same rows |
| `RegionHour.PoolBySliceIsPoolByFilter` | src/titanskies_pipeline/ingestion/tempo/aggregate.py:158-206 | Aggregating by offset slices equals filtering the whole weight table by region identifier |
| `RegionHour.CoverageIsFraction` | src/titanskies_pipeline/ingestion/tempo/aggregate.py:178-206 | Coverage lies in [0, 1], valid pixels never exceed total pixels, valid area never exceeds total area |
| `GranuleInventory.DiscoveryDoes` | src/titanskies_pipeline/storage/duckdb/granules.py:84-192 | One discovery batch, row by row: progress is lost exactly by processed rows seen at a revision when they have none or a smaller one, revisions never fall, an older or missing revision does not bring its address, unseen rows stay; and exactly the files on the default and recorded paths of those rows are gone |
| `GranuleInventory.ProcessedUnlessSuperseded` | src/titanskies_pipeline/storage/duckdb/granules.py:84-142 | A processed row stops being processed if and only if some entry of its granule carries a revision and the stored one is missing or strictly smaller; with no such row every file, checksum and hour stays |
| `GranuleInventory.CommitDoes` | src/titanskies_pipeline/ingestion/tempo/sync.py:279-314 | What a commit writes: the granule's row, the paths of restored siblings, its hour pooled with every processed sibling, and the newer of stored and shown observation in every cell |
| `GranuleInventory.DiscoveryRow` | src/titanskies_pipeline/storage/duckdb/granules.py:121-192 | Every row after a discovery kept its processing columns, was reset, or is new |
| `GranuleRefinement.EveryRunIsConsistent` | src/titanskies_pipeline/ingestion/tempo/sync.py:158-318 | In every run from an empty warehouse, interrupted discoveries included, the three statuses move together, checksum and hour are present exactly when processed, and every hour not dirtied since its last commit equals pooling all its processed granules from scratch |
| `GranuleRefinement.StepKeepsConsistent` | src/titanskies_pipeline/ingestion/tempo/sync.py:209-318 | Discover, a discovery that stops before its merge, process, fail, prune and file changes each keep that invariant |
| `GranuleRefinement.AnyListingPoolsAlike` | src/titanskies_pipeline/storage/duckdb/granules.py:292-313 | Pooling an hour from its inventory rows does not depend on the order the rows are listed in |
| `GranuleRefinement.StaleExactlyWhenRequeued` | src/titanskies_pipeline/storage/duckdb/granules.py:109-142 | A discovery leaves an hour's stored aggregate right if and only if none of the hour's processed granules is seen at a revision when it has none or a smaller one |
| `GranuleRefinement.RequeueCanStrandAnHour` | src/titanskies_pipeline/storage/duckdb/granules.py:121-142 | A granule requeued out of an hour it held alone and processed into another leaves the old hour's rows with nothing behind them |
| `StrandedHour.StrandedHourExists` | src/titanskies_pipeline/storage/duckdb/granules.py:109-142 | The same as a run of six steps with every input written out, on weights the reader loads and with each content on disk when it is processed |
| `GranuleRefinement.CommittedHourRightExactlyWhenListed` | src/titanskies_pipeline/ingestion/tempo/sync.py:287-318 | After a commit the hour is right if and only if the granule has an inventory row; without one the last UPDATE touches nothing |
| `StrandedHour.UnlistedGranuleIsPooled` | src/titanskies_pipeline/ingestion/tempo/sync.py:287-318 | A concrete commit of a granule without a row: its hour is stored and the inventory knows no granule of it |
| `GranuleRefinement.RepeatedDiscoveryKeepsStaleFiles` | src/titanskies_pipeline/storage/duckdb/granules.py:109-192 | A discovery interrupted after its UPDATE and run again ends with the tables of an undisturbed one and deletes no further file |
| `GranuleWarehouse.Warehouse.LeftoverFileIsTrusted` | src/titanskies_pipeline/ingestion/tempo/sync.py:366-375 | A requeued granule is downloaded again after an undisturbed discovery; after an interrupted one if and only if its file was absent or already deleted |
| `StrandedHour.LeftoverFileWins` | src/titanskies_pipeline/ingestion/tempo/sync.py:366-380 | A concrete interruption after which revision 2 will be processed from the file of revision 1 |
| `GranuleWarehouse.Warehouse.WaitingFileIsTrusted` | src/titanskies_pipeline/ingestion/tempo/sync.py:366-375 | A granule that is pending, failed or unknown when a revision is discovered is processed from the file on its raw path if and only if there is one and no requeue of the batch deletes it |
| `StrandedHour.WaitingFileWins` | src/titanskies_pipeline/ingestion/tempo/sync.py:366-380 | A concrete stop between download and commit after which revision 2 will be processed from the file of revision 1 |
| `GranuleRefinement.PendingHasNoChecksum` | src/titanskies_pipeline/ingestion/tempo/sync.py:366-380 | In consistent states a pending granule has no recorded checksum, so comparing a download with it never rejects |
| `GranuleRefinement.RevisionIsRunningMaximum` | src/titanskies_pipeline/storage/duckdb/granules.py:155-192 | The stored revision is the maximum over the whole discovery history, missing lowest, for any batch order with unique ids per batch |
| `GranuleRefinement.RevisionFollowsDiscoveries` | src/titanskies_pipeline/storage/duckdb/granules.py:155-192 | The same at every moment of every run, with processing, failures, prunes and interrupted discoveries in between |
| `GranuleRefinement.HistoryRevisionIsMaximum` | src/titanskies_pipeline/storage/duckdb/granules.py:155-192 | That maximum occurs in the history and nothing in the history exceeds it |
| `GranuleWarehouse.Warehouse.Discover` | src/titanskies_pipeline/storage/duckdb/granules.py:61-201 | Rows, files, stale hours and counts after a discovery that goes through, in terms of revisions; requeued counts the processed rows seen at a revision when they have none or a smaller one. A failing UPDATE leaves everything; it fails on a file exactly when one of theirs cannot be deleted, and a file or a failing MERGE leaves those rows cleared, all others as they were, and only such files gone |
| `GranuleWarehouse.Warehouse.LoadSiblings` | src/titanskies_pipeline/ingestion/tempo/sync.py:158-206 | Every processed sibling of the hour is loaded once, with the content its checksum names; it fails only if, among the files restored so far, some sibling's file is not the recorded content of the hour, or is absent and its download is not |
| `GranuleWarehouse.Warehouse.LoadSibling` | src/titanskies_pipeline/ingestion/tempo/sync.py:178-203 | Succeeds if and only if the file on the recorded path, or a download when there is none, is the recorded content of that hour; a failed restore is removed again |
| `GranuleWarehouse.Warehouse.ProcessDownloaded` | src/titanskies_pipeline/ingestion/tempo/sync.py:209-318 | Success is one committed step of the machine, told column by column, latest observations included, and is certain when the file reads, every sibling can be had, the scans pool and the database commits; any failure leaves every table as it was |
| `GranuleWarehouse.Warehouse.FetchGranule` | src/titanskies_pipeline/ingestion/tempo/sync.py:366-380 | A file is downloaded if and only if none is there or the one there contradicts a recorded checksum; the digest returned is that of the file left behind |
| `GranuleWarehouse.Warehouse.ProcessPending` | src/titanskies_pipeline/ingestion/tempo/sync.py:321-426 | The loop is a run of the machine, one step per granule in order: its commit, or its recorded failure, which changes no other row, no hour and no latest observation, also when the failed file cannot be deleted; none fails that could be processed at its turn |
| `GranuleWarehouse.Warehouse.Prune` | src/titanskies_pipeline/storage/duckdb/granules.py:316-356 | Exactly the processed granules with a recorded path, processed more than the retention before now, lose file and path and nothing else; it is refused for a retention under a day, and stops, with some of them pruned, if and only if one of the paths lies outside the raw directory |
| `GridLatest.ContributedExactlyWhen` | src/titanskies_pipeline/storage/duckdb/granules.py:414-434 | A granule contributes a cell if and only if its grid has a value or a flag other than -9999 there and some weight row of a country names the cell, and contributes what the grid shows |
| `GranuleWarehouse.Warehouse.UpsertGridLatest` | src/titanskies_pipeline/storage/duckdb/granules.py:464-493 | A batch is applied row by row; a cell takes the new observation if and only if it had none, or one of an earlier time, or of the same time and an earlier ingestion |
| `GranuleRefinement.LatestFollowsCommits` | src/titanskies_pipeline/ingestion/tempo/sync.py:279-314 | After any run the latest observations are the merge of what each commit contributed, in order; discoveries, requeues, failures and prunes leave them alone |
| `GranuleRefinement.CellBackedExactlyUnlessRequeued` | src/titanskies_pipeline/storage/duckdb/granules.py:121-142 | A discovery leaves a cell's observation without its granule's current content behind it if and only if it requeues that granule |
| `GranuleRefinement.ChecksumIsOfStandingCommit` | src/titanskies_pipeline/ingestion/tempo/sync.py:300-313 | In any run a row has a checksum if and only if some commit of the granule has not been requeued since, and it is the checksum of the content that commit read |
| `GranuleRefinement.CellBackedExactlyWhen` | src/titanskies_pipeline/storage/duckdb/granules.py:464-493 | In any run a cell's observation is backed if and only if its granule has not been requeued since the commit that wrote it, or a later standing commit of the granule read the same observation |
| `StrandedHour.SupersededCellSurvives` | src/titanskies_pipeline/storage/duckdb/granules.py:464-493 | The six-step run again: the cell still shows the superseded revision, which the granule's current content does not confirm |
| `GridLatest.StoredIsFirstMaximum` | src/titanskies_pipeline/storage/duckdb/granules.py:464-493 | Each cell stores, of all that ever arrived, the observation of the greatest time and among those of the greatest ingestion time, the first to arrive |
| `GridLatest.FirstMaximumUnique` | src/titanskies_pipeline/storage/duckdb/granules.py:464-493 | Only one arrival is the first maximum |
| `GridLatest.ReplayIsNoOp` | src/titanskies_pipeline/storage/duckdb/granules.py:484-493 | Replaying any part of the history changes nothing |
| `WeightStream.RangeCovers` | src/titanskies_pipeline/geography/weights.py:33-66 | The rounded bounding range omits no grid index whose box meets the bounds with positive overlap |
| `WeightStream.WeightTables` | src/titanskies_pipeline/geography/weights.py:18-105 | The chunked bounding-box generator yields, concatenated, the plain enumeration of every cell sharing area, and never an empty table |
| `WeightStream.StreamIsCompleteAndIncreasing` | src/titanskies_pipeline/geography/weights.py:29-105 | The stream is strictly increasing in (region, row, column) and a row is in it if and only if some region shares positive area with that in-grid cell and the row states that area |
| `WeightStream.StreamIsAccepted` | src/titanskies_pipeline/ingestion/tempo/aggregate.py:99-115 | The run-length reader accepts every such stream as already sorted |
| `AnalysisRegions.GroupAreas` | src/titanskies_pipeline/plumegraph/sources.py:267-285 | Groups come out by smallest index, each what that index reaches and no earlier one did; as intersection is symmetric, areas share a region if and only if a chain of pairwise intersections joins them |
| `PixelComponents.SymmetricExactlyWhenNoShadowedNeighbor` | src/titanskies_pipeline/plumegraph/science.py:131-162 | Pixel adjacency is symmetric if and only if no eligible pixel that lost its coordinate to a later one has an eligible neighbour |
| `PixelComponents.DistinctCoordinatesSuffice` | src/titanskies_pipeline/plumegraph/science.py:131-162 | Unique coordinates make adjacency symmetric |
| `PixelComponents.ReachSymmetricExactlyWhenShadowedStandAlone` | src/titanskies_pipeline/plumegraph/science.py:131-162 | Reaching goes both ways if and only if no eligible pixel that lost its coordinate to a later one has an eligible neighbour |
| `PixelComponents.ShadowedIsItsOwnRoot` | src/titanskies_pipeline/plumegraph/science.py:139-161 | A pixel that lost its coordinate joins no component but the one it starts |
| `PixelComponents.ShadowedPixelIsSplitOff` | src/titanskies_pipeline/plumegraph/analysis.py:121-127 | Two granules cover one place beside a third pixel: the overwritten pixel is adjacent to that pixel and every result separates them |
| `PixelComponents.ConnectedComponents` | src/titanskies_pipeline/plumegraph/science.py:131-162 | Each component is what the smallest identifier left reaches and no earlier root did; the components are the reachability classes of the eligible pixels if and only if no eligible pixel that lost its coordinate to a later one has an eligible neighbour |
| `Reachability.ClassesExactlyWhenReachSymmetric` | src/titanskies_pipeline/plumegraph/science.py:131-162 | What a worklist search returns is the partition into reachability classes if and only if reachability is symmetric |
| `Tracking.Deduplicate` | src/titanskies_pipeline/plumegraph/analysis.py:287-310 | Each component is kept or represented by the first kept one of its moment with which it shares at least the given part of their pixels, no two kept ones are such a pair, and each kept one gathers exactly the targets of those it represents |
| `Tracking.TrackingEdgeSymmetric` | src/titanskies_pipeline/plumegraph/analysis.py:350-397 | An edge does not depend on argument order, runs forward in time and stays within the permitted gap |
| `Tracking.TrackingEdgeExactly` | src/titanskies_pipeline/plumegraph/analysis.py:346-395 | An edge exists if and only if the later component follows within the permitted gap, the smaller over the larger enhancement, zero unless both are positive, reaches the limit, and the shapes share area relative to a non-zero union or the drift is within its limit; the edge carries those four figures |
| `Tracking.ComponentTracks` | src/titanskies_pipeline/plumegraph/analysis.py:313-339 | Components share a track if and only if a chain joins them in which each continues, or is continued by, the next, in gap, enhancement, and overlap or drift; each track lists its class once in time order |
| `Lineage.ComputeMatch` | src/titanskies_pipeline/plumegraph/analysis.py:460-485 | A track and a prior episode match if and only if they have an overlap that suffices, and the figures returned are that overlap |
| `Lineage.MatchOfExactly` | src/titanskies_pipeline/plumegraph/analysis.py:460-485 | The overlap is the number of common instants over the smaller number of instants of the two, and the mean, over the common instants, of the shared area relative to a non-zero union, the last component of an instant standing for it; it suffices when both reach their limits |
| `Lineage.FindMatches` | src/titanskies_pipeline/plumegraph/analysis.py:460-485 | The nested loops list every matching pair once, in index order |
| `Lineage.CountDegrees` | src/titanskies_pipeline/plumegraph/analysis.py:486-490 | The counters are the numbers of matches at each track and at each prior episode |
| `Lineage.AssignLineage` | src/titanskies_pipeline/plumegraph/analysis.py:491-509 | Identifiers are inherited along superseding matches only, and each track's edge list is that of its matches in order |
| `Lineage.SupersedesIsPartialMatching` | src/titanskies_pipeline/plumegraph/analysis.py:491-509 | Two superseding matches that share a track or an episode are the same match |
| `Lineage.RelationsPartition` | src/titanskies_pipeline/plumegraph/analysis.py:491-509 | Supersedes holds exactly at degree one on both ends; merged_from and split_from divide the rest by the track's degree |
| `Lineage.OneEdgePerMatch` | src/titanskies_pipeline/plumegraph/analysis.py:491-509 | A track has exactly as many lineage edges as matches |
| `Meteorology.CompleteWindsHaveCompleteBracket` | src/titanskies_pipeline/plumegraph/analysis.py:179-213 | Four interpolated winds mean both bracketing rows carry all four |
| `Meteorology.InterpolationIsBetween` | src/titanskies_pipeline/plumegraph/analysis.py:199-213 | Each interpolated value lies between the two bracketing values |
| `Meteorology.InterpolatesExactly` | src/titanskies_pipeline/plumegraph/analysis.py:179-213 | Values are interpolated if and only if the first latest row at or before the instant and the first earliest at or after it lie within the gap; exactly the quantities both carry are given, each on the line between the two |
| `Meteorology.SceneComponents` | src/titanskies_pipeline/plumegraph/analysis.py:704-772 | Components are made exactly of the plumes detected along the 80 m wind, and none without ready pixels, complete winds or a wind that is not calm; each is of its scene's instant and interpolated winds, and reading those never fails |
| `Meteorology.WindVariantsTotal` | src/titanskies_pipeline/plumegraph/analysis.py:216-242 | The sensitivity variants are defined on every track built from such components: the mean 10 m and 80 m speeds of the track, and those of the first latest row at or before its start and of the first earliest row at or after its end, both within the gap and complete |
| `Candidates.NormalizedInUnitInterval` | src/titanskies_pipeline/plumegraph/science.py:282-287 | Every normalised value lies in [0, 1], constant inputs included |
| `Candidates.SoftmaxIsProbability` | src/titanskies_pipeline/plumegraph/science.py:290-297 | Probabilities are positive, sum to one, and order candidates exactly as the scores do |
| `Candidates.ScoresAre` | src/titanskies_pipeline/plumegraph/science.py:309-334 | Each score weighs the alignment clamped to [0, 1], the normalised reported emissions or zero when any is missing, the exponential of the distance over its decay, and the normalised annual emissions, negative inputs counting as zero |
| `Candidates.SoftmaxExactly` | src/titanskies_pipeline/plumegraph/science.py:290-297 | Each probability is the share of the exponential of how far score over temperature falls short of the greatest one |
| `Candidates.ClassifyExactly` | src/titanskies_pipeline/plumegraph/science.py:347-370 | Which class a candidate gets, in terms of its rank, its probability, the greatest and the second greatest probability; every other class is wrong |
| `Candidates.OrderIsRankOrder` | src/titanskies_pipeline/plumegraph/science.py:342-345 | Ranks list every candidate once, by falling score and then identifier |
| `Candidates.RanksFollowProbability` | src/titanskies_pipeline/plumegraph/science.py:341-353 | Rank one holds the maximum probability, rank two the runner-up the lead is measured against |
| `Candidates.TopIsLikelyOrAmbiguous` | src/titanskies_pipeline/plumegraph/science.py:347-370 | With several calibrated candidates the top is likely if and only if it meets both thresholds, and likely or ambiguous if and only if it does or the ambiguous margin is not negative |
| `Candidates.LikelyExcludesAmbiguous` | src/titanskies_pipeline/plumegraph/science.py:347-370 | If likely margin > ambiguous margin, or 2 * likely probability - 1 > ambiguous margin, or a likely threshold is at least 1, a likely top leaves no other candidate ambiguous |
| `Candidates.ExclusionExactlyWhen` | src/titanskies_pipeline/plumegraph/science.py:349-370 | For thresholds the loader accepts, no calibrated answer has a likely top beside an ambiguous candidate if and only if likely margin > ambiguous margin, or 2 * likely probability - 1 > ambiguous margin, or a likely threshold is 1 |
| `Candidates.PairIsSoftmax` | src/titanskies_pipeline/plumegraph/science.py:349-370 | The two-candidate answers that decide the other half are softmax outputs |
| `Candidates.MarginsMatter` | src/titanskies_pipeline/plumegraph/science.py:347-370 | The shipped thresholds exclude, also with the ambiguous margin at 0.3; with a likely probability of 0.5 a top of 0.6 is likely beside an ambiguous 0.4 |
| `Candidates.LoneCandidate` | src/titanskies_pipeline/plumegraph/science.py:347-370 | A single calibrated candidate gets probability one and is never ambiguous |
| `Candidates.RankAll` | src/titanskies_pipeline/plumegraph/science.py:346-390 | The ranking loop emits, rank by rank, the record of the candidate in that place |
| `Candidates.ClassifyCandidates` | src/titanskies_pipeline/plumegraph/science.py:300-390 | Empty input gives an empty answer; a calibrated call with a non-positive temperature raises; every other answer lists all candidates by falling score and then identifier, with score, and with probability and class exactly when calibrated |
| `Identities.PartitionIdentityIgnoresOrder` | src/titanskies_pipeline/plumegraph/identity.py:82-95 | Two run identities are equal if and only if partition, versions and the multiset of input hashes are |
| `Identities.ManifestIdentityIgnoresOrder` | src/titanskies_pipeline/plumegraph/identity.py:98-109 | Two generation manifests have one identity if and only if they hold the same rows, in whatever order |
| `Identities.ManifestIdentityNamesTable` | src/titanskies_pipeline/plumegraph/identity.py:98-109 | Readings of two keyed tables share an identity if and only if the tables are equal |
| `Identities.RevisionIdentityIgnoresOrder` | src/titanskies_pipeline/plumegraph/identity.py:112-125 | A revision identity depends on its candidates, edges and pixels only as multisets |
| `Promotion.EveryRunIsSound` | src/titanskies_pipeline/plumegraph/analysis.py:649-681 | In every run, with failures and crashes, each current generation is a success run of its own partition, every episode belongs to a success run, release rows carry their directory's manifest, and successes, episodes, validations, directories and release rows are never rewritten |
| `Promotion.OnlyPromotionMovesGenerations` | src/titanskies_pipeline/plumegraph/analysis.py:785-792 | Episode tables and current generations change in a promotion only, so failed and crashed attempts leave both unchanged |
| `Promotion.PromotedRowsAreTheTracks` | src/titanskies_pipeline/plumegraph/analysis.py:878-925 | The rows a promotion leaves for its run are exactly its tracks |
| `Promotion.GatedReleaseIsValidated` | src/titanskies_pipeline/plumegraph/release.py:173-214 | A release completed by a gated call has, ever after, a directory with its manifest and a passing validation of exactly the generations it publishes, all success runs |
| `Promotion.GatedReleaseMetThresholds` | src/titanskies_pipeline/plumegraph/validation.py:356-411 | Behind a release completed by a gated call stands an earlier validation call on the generations it publishes whose precision, recall and top-one accuracy were all there and at least the thresholds of that call |
| `Promotion.VerdictsFollowMetrics` | src/titanskies_pipeline/plumegraph/validation.py:356-411 | Under unchanged thresholds every stored verdict says whether precision, recall and top-one accuracy of its own metrics are all there and reach their thresholds |
| `Promotion.StoredVerdictIsTheFirst` | src/titanskies_pipeline/plumegraph/validation.py:384-411 | In every run a verdict is stored if and only if some call recorded its identity, and it is the verdict of the first such call |
| `Promotion.ReportedVerdictIsStoredWhen` | src/titanskies_pipeline/plumegraph/validation.py:356-425 | A validation call stores the verdict it reports if and only if the first call with this identity came to the same verdict under its own thresholds |
| `Promotion.VerdictIsStoredUnlessOneStands` | src/titanskies_pipeline/plumegraph/validation.py:384-411 | The same for one call on any tables: if and only if no row stands or the row agrees |
| `Promotion.RelaxedThresholdsLeaveOldVerdict` | src/titanskies_pipeline/plumegraph/validation.py:384-411 | On a promoted generation, metrics of 17 true and 3 false detections, none missed, fail strict and pass relaxed thresholds: the second validation reports a pass, the stored row keeps the failure and a gated release is refused |
| `Promotion.OverlapWouldBreak` | src/titanskies_pipeline/plumegraph/analysis.py:1133-1146 | Two workers begin the same run, one promotes it and the other fails: the current generation points at a failed run |
| `Promotion.LateFailureIsHarmlessWhen` | src/titanskies_pipeline/plumegraph/analysis.py:1133-1146 | A failure recorded by an overlapping worker leaves runs sound if and only if its run is no current generation and owns no episode |
| `Promotion.BelongsUntilReplaced` | src/titanskies_pipeline/plumegraph/analysis.py:1120-1128 | An episode of a current generation still belongs to one if and only if no promotion into its partition has come since |
| `Promotion.ExportedRowsBelongWhen` | src/titanskies_pipeline/plumegraph/release.py:228-236 | Every exported episode belongs to a generation the release names if and only if no promotion since the dbt build of the episode table went into the partition of an exported episode |
| `Promotion.StaleMartIsReleased` | src/titanskies_pipeline/plumegraph/release.py:200-236 | A concrete gated release, on a passing validation, that names the new generation and exports the episode of the old one |
| `PromotionStore.AttemptIsARun` | src/titanskies_pipeline/plumegraph/analysis.py:664-681 | One call is no step, a begun and promoted run, or a begun and failed run of the machine |
| `PromotionStore.AttemptIsAtomicAndIdempotent` | src/titanskies_pipeline/plumegraph/analysis.py:649-681 | A failed call changes only its own run row; repeating a successful one changes nothing, whatever it would now compute |
| `PromotionStore.ReturnedRunIsCurrentWhen` | src/titanskies_pipeline/plumegraph/analysis.py:664-665 | After success the returned run is the current generation if and only if it was not already a success, or was current before |
| `PromotionStore.RevertedInputsKeepNewerGeneration` | src/titanskies_pipeline/plumegraph/analysis.py:664-665 | Inputs that change and change back return the first run while the second stays current |
| `PromotionStore.PassKeepsSound` | src/titanskies_pipeline/plumegraph/analysis.py:1150-1207 | A pass with any failures keeps the store sound, rewrites nothing, and returns success runs only |
| `PromotionStore.SecondPassReportsAgain` | src/titanskies_pipeline/plumegraph/analysis.py:1185-1207 | A pass over runs that already succeeded changes nothing, yet reports all of them |
| `PromotionStore.FigureIsGrowthWhen` | src/titanskies_pipeline/plumegraph/analysis.py:1185-1202 | The episode figure of a pass is the growth of the episode table if and only if no returned run was already a success with episodes at its turn and no promoted attempt repeats a track identity; otherwise it is too large |
| `PromotionStore.AlreadySuccessWhen` | src/titanskies_pipeline/plumegraph/analysis.py:649-665 | A run is already a success at its turn if and only if it was one before the pass or an earlier attempt of it in the pass went through |
| `PromotionStore.SecondPassCountsAgain` | src/titanskies_pipeline/plumegraph/analysis.py:1185-1202 | Two passes over one partition with one episode: both report one, only the first adds a row |
| `PromotionStore.Store.RunAnalysisPartition` | src/titanskies_pipeline/plumegraph/analysis.py:619-681 | The tables after a call, and its answer, in terms of the tables before |
| `PromotionStore.Store.RunPendingAnalysis` | src/titanskies_pipeline/plumegraph/analysis.py:1150-1207 | All partitions are tried, successes and failures add up, the episode figure is the stored count of every returned run, never below the growth of the episode table and equal to it exactly when every attempt reports growth |
| `PromotionStore.Store.RunValidation` | src/titanskies_pipeline/plumegraph/validation.py:364-411 | Passed if and only if precision, recall and top-one accuracy are each present and at least their own threshold; a validation is stored once per identity and bound to the generations current at the call; stored and reported verdict agree if and only if no row stood or the standing row agrees |
| `PromotionStore.Store.BuildRelease` | src/titanskies_pipeline/plumegraph/release.py:156-437 | The validation asked for, or else the newest, gates the release; success is a prepare, place and record run of the machine; an insert that fails after the rename leaves the release directory and nothing else; every other error leaves all tables and directories unchanged |
| `PromotionStore.ChoiceIsUnique` | src/titanskies_pipeline/plumegraph/release.py:173-193 | The validation table and the request determine the validation that gates |
| `PromotionStore.JustValidatedIsChosenWhen` | src/titanskies_pipeline/plumegraph/release.py:184-192 | Without an identifier the validation just made gates the release if and only if the call stored a row or its row was the newest already |
| `PromotionStore.RepeatedValidationIsNotChosen` | src/titanskies_pipeline/plumegraph/validation.py:389-411 | Metrics that come, change and come back: the last call reports a pass and the release is gated on the failure in between |
| `PromotionStore.VersionIsWrittenOnce` | src/titanskies_pipeline/plumegraph/release.py:400-427 | Repeating a release, also after a crash before its row, succeeds with the same row; the same version with other files is refused |
| `PromotionStore.RetryAfterFailedRecord` | src/titanskies_pipeline/plumegraph/release.py:393-428 | After such a failed insert, whatever came since, the call succeeds with the same row if and only if generations, validation, exported episodes and files are what they were |
| `Mainstem.LengthsFindBadIds` | src/titanskies_pipeline/riverpulse/network.py:192-198 | Comparing lengths detects exactly the missing and repeated reach identifiers |
| `Mainstem.AnchorIsNearestOutlet` | src/titanskies_pipeline/riverpulse/network.py:199-239 | The nearest outlet: a matching outlet if the river has one, at the smallest known distance, an unknown one counting as infinite and the smallest identifier winning ties |
| `Mainstem.ChooseAnchorAnswers` | src/titanskies_pipeline/riverpulse/network.py:199-243 | With a reviewed identifier the anchor is that record, or the error that it is unknown or does not match; without one it is the nearest outlet, or the error that nothing matches |
| `Mainstem.NextUpIsBest` | src/titanskies_pipeline/riverpulse/network.py:245-268 | The next reach is an in-network upstream neighbour with a known accumulation if any has one, none has a larger one, and among those that tie it has the greatest identifier; there is none only without in-network neighbours |
| `Mainstem.Walk` | src/titanskies_pipeline/riverpulse/network.py:239-268 | The loop ends with at most the allowed number of distinct reaches, each the upstream neighbour of its predecessor with the largest accumulation, and stops only at the limit, at a headwater or at a reach already taken |
| `Mainstem.MainstemIsUnique` | src/titanskies_pipeline/riverpulse/network.py:239-268 | There is one such walk from an anchor |
| `Mainstem.EdgesFrom` | src/titanskies_pipeline/riverpulse/network.py:311-338 | A reach yields one edge per neighbour, or an error if and only if it neighbours itself or a walked neighbour does not name it back |
| `Mainstem.Collect` | src/titanskies_pipeline/riverpulse/network.py:269-338 | Reaches and edges of the whole walk, or an error if and only if some walked reach has no shape, no centroid or a bad neighbour |
| `Mainstem.DedupeKeepsDistinctPairs` | src/titanskies_pipeline/riverpulse/network.py:339-342 | The final deduplication never drops an edge |
| `Mainstem.SelectMainstem` | src/titanskies_pipeline/riverpulse/network.py:182-342 | Exact conditions for the limit, identifier and anchor errors and for success, and what a returned selection holds: along its reaches each is the upstream neighbour of the one before with the largest accumulation |
| `NetworkValidation.ValidateNetworkTables` | src/titanskies_pipeline/riverpulse/network.py:413-446 | The validator accepts if and only if identifiers are present and distinct, edges are well formed, distinct and reciprocal inside, and no basin exceeds 100 reaches |
| `NetworkValidation.ValidateResolvedAnchors` | src/titanskies_pipeline/riverpulse/network.py:449-463 | The validator accepts if and only if the anchored basins are the basins present and each has exactly its one anchor |
| `NetworkValidation.SelectionPassesValidators` | src/titanskies_pipeline/riverpulse/network.py:182-342 | Whatever the walk returns, both validators accept |
| `NetworkValidation.UnionPassesExactlyWhenIndependent` | src/titanskies_pipeline/riverpulse/network.py:775-826 | Selections that pass alone pass together if and only if there is one at least, basin keys differ and no reach is shared |
| `NetworkValidation.ValidatorsIgnoreRowOrder` | src/titanskies_pipeline/riverpulse/network.py:413-463 | Both validators give one answer for every order of the rows |
| `NetworkValidation.PublishedUnionPassesExactlyWhenIndependent` | src/titanskies_pipeline/riverpulse/network.py:483-496 | The same exact condition for the sorted tables that are validated and published |
| `HydrocronIngest.VersionedCollectionIsSameObservation` | src/titanskies_pipeline/riverpulse/hydrocron.py:186-202 | Collection names with and without the _D suffix name the same observations |
| `HydrocronIngest.SameRevisionExactlyWhen` | src/titanskies_pipeline/riverpulse/hydrocron.py:186-222 | Two lines name one observation if and only if they agree on collection up to the _D suffix, reach, time, cycle and pass, and one revision if and only if also on release, granule and content |
| `HydrocronIngest.FourteenDischarges` | src/titanskies_pipeline/riverpulse/hydrocron.py:47-62 | The fourteen codes expand to seven algorithms, unconstrained and constrained, each once |
| `HydrocronIngest.CommitKeepsDerived` | src/titanskies_pipeline/riverpulse/collection.py:413-482 | After every commit, the keys of all four tables are a function of the set of committed responses |
| `HydrocronIngest.ReplayChangesNothing` | src/titanskies_pipeline/riverpulse/collection.py:413-482 | Committing a response again changes no table |
| `HydrocronIngest.OrderLeavesSameKeys` | src/titanskies_pipeline/riverpulse/collection.py:413-482 | Two responses in either order leave the same keys; a stamp differs if and only if the revision is new, both responses hold it and their bodies differ |
| `HydrocronIngest.RevisionIsComplete` | src/titanskies_pipeline/riverpulse/collection.py:320-370 | Every stored revision has exactly fourteen discharge rows and at least one snapshot link |
| `HydrocronStore.Store.PlanSourceRequests` | src/titanskies_pipeline/riverpulse/collection.py:149-239 | Fails exactly for an empty registry, an unknown or an empty choice of reaches; otherwise every absent request of a covered reach and a window is added as planned, none is changed, and the two figures are the requests added and the requests found |
| `HydrocronStore.ReplanAddsNothing` | src/titanskies_pipeline/riverpulse/collection.py:197-239 | Planning the same requests again adds nothing |
| `HydrocronStore.Store.PendingRequests` | src/titanskies_pipeline/riverpulse/collection.py:253-276 | Exactly the requests that are planned, failed or running for more than an hour, once each, by window start, reach and digest, cut at the limit |
| `HydrocronStore.PendingIsUnique` | src/titanskies_pipeline/riverpulse/collection.py:253-276 | Requests, clock and limit determine the pending list |
| `HydrocronStore.Store.InsertObservation` | src/titanskies_pipeline/riverpulse/collection.py:320-370 | Inserts what is absent and reports exactly the growth of both tables |
| `HydrocronStore.Store.PersistFetchResult` | src/titanskies_pipeline/riverpulse/collection.py:373-487 | Succeeds if and only if the body parses, every row is of the requested reach and the transaction commits; reports exact growth; a failure leaves all tables unchanged |
| `HydrocronStore.ResponseAdds` | src/titanskies_pipeline/riverpulse/collection.py:413-482 | An accepted response adds its snapshot and, unless it says there is no data, of each of its lines what the tables do not hold yet |
| `HydrocronStore.Store.SyncPendingRequests` | src/titanskies_pipeline/riverpulse/collection.py:531-598 | Every offered request ends as success or failure, failure if and only if its fetch raised, its response was refused or its transaction rolled back; the responses of the others are committed, untouched requests stay, the counters count successes, successes without data, failures and lines, and the reported insertions are the growth of the tables |
| `HydrocronStore.SweptKeepsSuccess` | src/titanskies_pipeline/riverpulse/collection.py:253-276 | A success is never offered and never taken back |
| `Publication.EveryRunIsSound` | src/titanskies_pipeline/geography/publish.py:109-175 | After any steps of any number of publishers with distinct process ids, with failures, crashes and ids reused after a publisher has ended, the manifest is whole and names a complete generation with the digests it states, and no generation is ever modified |
| `Publication.ReuseNeverFindsCorruption` | src/titanskies_pipeline/geography/publish.py:143-154 | A publisher that finds its generation present always finds it intact |
| `Publication.ReaderAcceptsExactlyWhen` | src/titanskies_pipeline/geography/registry.py:84-193 | Reading the manifest at one moment of a run and the files at any later ones, the reader accepts if and only if the mode is allowed and both version columns hold exactly the build's version |
| `Publication.LoadsExactlyWhen` | src/titanskies_pipeline/geography/registry.py:84-193 | On any directory: loads if and only if the manifest is whole, of a mode asked for, and both files are present, non-empty, complete, of the stated digest, row count and metadata, and stamped with the one version; an error names a fault that is there |
| `Publication.PublishedButUnreadable` | src/titanskies_pipeline/geography/publish.py:47-107 | A concrete build that passes every publisher check and that no reader loads |
| `PublicationStore.SoloPublishIsARun` | src/titanskies_pipeline/geography/publish.py:35-175 | An undisturbed publisher reaches its goal by steps of the machine, from any state |
| `PublicationStore.FailedAnnounceIsARun` | src/titanskies_pipeline/geography/publish.py:22-32 | A publisher whose manifest cannot be written has placed its generation and done nothing else, by steps of the machine |
| `PublicationStore.RetryAfterFailedAnnounce` | src/titanskies_pipeline/geography/publish.py:143-175 | Whatever happens after that, any publisher of the same build can publish, reuses the generation and points the manifest at it |
| `PublicationStore.SharedProcessIdBreaks` | src/titanskies_pipeline/geography/publish.py:22-32 | Two publishers that share a process id share a draft: one swaps in what the other has only begun to write |
| `PublicationStore.OutputDirectory.AtomicJson` | src/titanskies_pipeline/geography/publish.py:22-32 | The manifest is replaced whole or, on a fault, left as it was; no draft is left |
| `PublicationStore.OutputDirectory.PlaceGeneration` | src/titanskies_pipeline/geography/publish.py:125-142 | The generation appears if and only if no move fails and the moved files still have their digests; the private directory never remains |
| `PublicationStore.OutputDirectory.Publish` | src/titanskies_pipeline/geography/publish.py:35-175 | Exact conditions for success and for a failed announcement, the whole state after each, and nothing changed on any other error |
| `CalendarWindows.MonthWindows` | src/titanskies_pipeline/plumegraph/sources.py:121-153 | Raises on an unordered range, raises if and only if the range passes the first instant of December 9999, and otherwise lists the months of the range |
| `CalendarWindows.CalendarYearWindows` | src/titanskies_pipeline/riverpulse/hydrocron.py:520-533 | The same for years, raising if and only if the range passes the first instant of 9999 |
| `CalendarWindows.WindowsTile` | src/titanskies_pipeline/plumegraph/sources.py:121-153 | The windows are non-empty, contiguous, cover the range and never cross a period boundary |
| `CalendarWindows.TilingIsUnique` | src/titanskies_pipeline/plumegraph/sources.py:121-153 | Any list with those properties is the planner's |
| `CalendarWindows.YearsAreRunsOfMonths` | src/titanskies_pipeline/riverpulse/hydrocron.py:520-533 | The month windows are the year windows, each cut into its own month windows |
| `CalendarWindows.CanonicalEra5Requests` | src/titanskies_pipeline/reproductions/readiness.py:1241-1290 | For an ordered range, exactly the month windows, each once per facility in identifier order; raises past the first instant of December 9999 |
| `CalendarWindows.EraGridIsComplete` | src/titanskies_pipeline/reproductions/readiness.py:1252-1290 | Requests are exactly the pairs of a visited window and a facility, as many as their product |
| `CalendarWindows.ReversedRangeIsPlanned` | src/titanskies_pipeline/reproductions/readiness.py:1251-1259 | A reversed range yields one reversed window if and only if it starts in the month it ends in, after that month's first instant; otherwise none |
| `Inventory.BytesAreConserved` | src/titanskies_pipeline/reproductions/preflight.py:873-906 | Summed over objects or over completeness rows, counts and bytes agree, in whatever order the sources are listed |
| `Preflight.CheckObjects` | src/titanskies_pipeline/reproductions/preflight.py:391-476 | Objects are accepted if and only if identifiers are distinct and every object is well formed, and the counters are their exact tally |
| `Preflight.ValidateInventory` | src/titanskies_pipeline/reproductions/preflight.py:312-585 | Raises if and only if a structural check fails or planned bytes exceed the BIGINT limit; otherwise rows, objects and blockers as specified |
| `Preflight.Conservation` | src/titanskies_pipeline/reproductions/preflight.py:873-906 | Totals over objects are the sums over rows, 0 <= total <= planned, and nothing is unbounded exactly when every object has a size or a bound |
| `Preflight.ReadyExactlyWhen` | src/titanskies_pipeline/reproductions/preflight.py:497-585 | No blockers if and only if every contract is met, required sources are present, non-empty, allowed and in production resolved, the gauge rule and both budgets hold, and sizes are bounded where they must be |
| `Preflight.ReasonFor` | src/titanskies_pipeline/reproductions/preflight.py:500-541 | Which reason blocks a contract: in production an unresolved source, a required one that is not resolved, a resolved one without objects; otherwise a required one without objects, or of an exactness neither asked for nor, outside exact mode, a fallback |
| `Preflight.GaugeRuleHolds` | src/titanskies_pipeline/reproductions/preflight.py:543-559 | In production an L4 snapshot without embedded gauge priors needs a resolved gauge source with objects |
| `Preflight.ReadyIsMonotone` | src/titanskies_pipeline/reproductions/preflight.py:497-585 | Ready stays ready from exact to fallback mode and when a budget is raised or dropped |
| `Resolver.ValidateEvidence` | src/titanskies_pipeline/reproductions/readiness.py:253-292 | Accepts if and only if sources are named once, with a valid outcome and at least one well-formed record each |
| `Resolver.NormalizeObject` | src/titanskies_pipeline/reproductions/readiness.py:329-365 | Accepts if and only if identifier, public HTTP(S) address, sizes that fit and a size or a bound are there; missing provider and revision identities are filled from the next best field, the fragment is dropped, and the rest is kept |
| `Resolver.CheckAttachable` | src/titanskies_pipeline/reproductions/readiness.py:1081-1118 | Objects are attached if and only if object ids and provider identities are unique, none is past the cutoff, and every revision identity is present |
| `Resolver.ResolveSource` | src/titanskies_pipeline/reproductions/readiness.py:974-1129 | When a source resolves, and what the provider's answer leaves in it |
| `Resolver.ResolveReproductionSources` | src/titanskies_pipeline/reproductions/readiness.py:1132-1212 | An inventory is published if and only if evidence is well formed and known and every source resolves; it has one source per contract in identifier order, sorted objects in each, and a placeholder for an operator where there is no evidence |
| `Resolver.PublishedInventoryPasses` | src/titanskies_pipeline/reproductions/readiness.py:1132-1212 | The gate accepts a published inventory if and only if every stated object meets its contract's pinned checksum, every contract without evidence has an HTTP(S) address, and the stated bytes together fit the BIGINT limit; no object is unbounded |
| `Resolver.PlannedBytesAreStated` | src/titanskies_pipeline/reproductions/preflight.py:462-476 | The bytes the gate plans for a published inventory are the bytes the providers stated |
| `Resolver.PinnedChecksumIsRefused` | src/titanskies_pipeline/reproductions/preflight.py:477-487 | A concrete inventory that is published and refused: the contract pins a checksum, the object states none |
| `Resolver.TooManyBytesAreRefused` | src/titanskies_pipeline/reproductions/preflight.py:560-563 | A concrete inventory that is published, passes every structural check and is refused for its bytes |
| `Resolver.OtherAddressIsRefused` | src/titanskies_pipeline/reproductions/readiness.py:1165-1179 | A concrete inventory that is published and refused: no evidence, and a contract address that is not HTTP(S) |
| `Resolver.FailedSourceStaysExact` | src/titanskies_pipeline/reproductions/readiness.py:985-1080 | Whatever resolving returns is exact and without objects if and only if the evidence said resolved and the provider's answer held no objects |
| `Resolver.TimedOutSourceIsExact` | src/titanskies_pipeline/reproductions/readiness.py:1066-1080 | A provider that times out on resolved evidence leaves such a source, as a transient error |

## Left out

- Floating point: rounding, overflow, infinities and not-a-number; values are reals, and a missing or not-a-number input is modelled as absent.
- Negative pixel weights: areas are taken to be non-negative, as the weight generator makes them.
- Foreign readers and geometry: NetCDF, Parquet, CSV and GeoPackage parsing, map projection, polygon clipping; their results are parameters.
- Network clients, retries, rate limits, authentication, and the pagination of provider catalogs.
- The secret filters of `readiness.py` and `preflight.py`; URLs carry flags for credentials and signatures instead.
- JSON type errors: inventories, evidence and manifests are typed values, so only their value checks are modelled.
- SHA-256 collisions and the truncation of build identifiers to twenty digits.
- The coordinate, area and accepted-flag columns of the latest-observation table, which no decision reads.
- A weight table that changes under an unchanged geometry version, which would make stored hours incomparable.
- Duplicate granule identifiers within one discovery batch; the merge statement rejects them.
- GranuleWarehouse.Warehouse.ProcessPending: takes the pending list as given and leaves out the manifest checks before the loop and the exception raised after it.
- The reason texts of evidence and inventories, and the order evidence records are listed in.
- Bookkeeping columns: sizes, messages, attempt counters and timestamps that no decision reads.
- Tracking.ComponentTracks: leaves out the stored edge records of a track and their sort by identifier.
- `expected_calibration_error`, the temperature search of `validation.py`, the benchmark loader and the emission estimates.
- Candidates.ClassifyCandidates: the ranking record keeps rank, score, probability, class and readiness; the component scores it also copies are left out.
- Promotion.EveryRunIsSound: analysis attempts are serial, as the jobs run them, and a release reads generations, validation and episodes at one moment.
- PromotionStore.Store.BuildRelease: of the exported tables only the episodes are followed, by identifier, and which revision of a plume the dbt build keeps is left open; the duplicate-key checks and evidence bundles are not modelled.
- GranuleWarehouse.Warehouse.LoadSibling: deleting a failed restore is taken to succeed.
- PromotionStore.Store.RunPendingAnalysis: takes the partitions and what each attempt computes as a list, in the order the nested loops visit them.
- PublicationStore.OutputDirectory.Publish: the files are private to the publisher until their digests are taken, later changes are modelled; a failed placement also loses the source files it had moved, which the model does not track.
- The RiverPulse variant of publication, `publish_network_generation`, which follows the same protocol without re-hashing the moved files.
- HydrocronStore.Store.PersistFetchResult: parsing a response body is a function of the body; the column conversions are not modelled.
- Concurrent workers on one request or analysis queue: the pending lists are computed once and worked through serially.
- Mainstem.SelectMainstem: reaches keep identifier, basin and anchor flag; the descriptive columns are left out.
- Resolver.ResolveSource: each access method is one provider answer; hourly EPA coverage and the geophysical family checks are left out.
- CalendarWindows.CanonicalEra5Requests: each request is a window and a facility; the area, variables and hours it also lists are constants of the facility and the contract.
