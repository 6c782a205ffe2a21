/** Content identities of the plume graph (plumegraph/identity.py). A SHA-256 digest of
    its parts is modelled as the parts themselves: it forgets nothing and adds nothing. */
module Identities {
  import opened Prelude

  datatype RunId = RunId(region: string, date: int, contract: string, algorithm: string, inputs: seq<string>)

  datatype RevisionId = RevisionId(
    run: RunId, candidates: seq<string>, edges: seq<string>, pixels: seq<string>, result: string)

  datatype GenerationRow = GenerationRow(region: string, date: string, run: string)

  function AnalysisPartitionIdentity(region: string, date: int, contract: string, algorithm: string, hashes: seq<string>): RunId
  {
    RunId(region, date, contract, algorithm, SortBy(hashes, TextLeq))
  }

  function EpisodeRevisionIdentity(
    run: RunId, candidates: seq<string>, edges: seq<string>, pixels: seq<string>, result: string): RevisionId
  {
    RevisionId(run, SortBy(candidates, TextLeq), SortBy(edges, TextLeq), SortBy(pixels, TextLeq), result)
  }

  function GenerationManifestIdentity(rows: seq<GenerationRow>): seq<GenerationRow>
  {
    SortBy(rows, RowLeq)
  }

  predicate RowLeq(a: GenerationRow, b: GenerationRow)
  {
    if a.region != b.region then TextLeq(a.region, b.region)
    else if a.date != b.date then TextLeq(a.date, b.date)
    else TextLeq(a.run, b.run)
  }

  lemma RowLeqIsOrder()
    ensures TotalPreorder(RowLeq) && Antisymmetric(RowLeq)
  {
    TextLeqPreorder();
    TextLeqIsAntisymmetric();
  }

  /** A run identity is fixed by its partition, its versions and the bag of input hashes. */
  lemma PartitionIdentityIgnoresOrder(
    region: string, date: int, contract: string, algorithm: string, hashes: seq<string>,
    region': string, date': int, contract': string, algorithm': string, hashes': seq<string>)
    ensures AnalysisPartitionIdentity(region, date, contract, algorithm, hashes)
         == AnalysisPartitionIdentity(region', date', contract', algorithm', hashes')
       <==> (region == region' && date == date' && contract == contract' && algorithm == algorithm'
             && multiset(hashes) == multiset(hashes'))
  {
    TextLeqPreorder();
    TextLeqIsAntisymmetric();
    SortIsCanonical(hashes, hashes', TextLeq);
  }

  /** A revision identity ignores the order of its candidates, edges and pixels. */
  lemma RevisionIdentityIgnoresOrder(
    run: RunId, candidates: seq<string>, edges: seq<string>, pixels: seq<string>, result: string,
    run': RunId, candidates': seq<string>, edges': seq<string>, pixels': seq<string>, result': string)
    ensures EpisodeRevisionIdentity(run, candidates, edges, pixels, result)
         == EpisodeRevisionIdentity(run', candidates', edges', pixels', result')
       <==> (run == run' && result == result' && multiset(candidates) == multiset(candidates')
             && multiset(edges) == multiset(edges') && multiset(pixels) == multiset(pixels'))
  {
    TextLeqPreorder();
    TextLeqIsAntisymmetric();
    SortIsCanonical(candidates, candidates', TextLeq);
    SortIsCanonical(edges, edges', TextLeq);
    SortIsCanonical(pixels, pixels', TextLeq);
  }

  /** The manifest identity of a table is a function of its rows, however they are read. */
  lemma ManifestIdentityIgnoresOrder(rows: seq<GenerationRow>, rows': seq<GenerationRow>)
    ensures GenerationManifestIdentity(rows) == GenerationManifestIdentity(rows')
       <==> multiset(rows) == multiset(rows')
  {
    RowLeqIsOrder();
    SortIsCanonical(rows, rows', RowLeq);
  }

  /** Two readings of keyed tables have one identity exactly when the tables are equal. */
  lemma ManifestIdentityNamesTable(rows: seq<GenerationRow>, table: set<GenerationRow>,
                                   rows': seq<GenerationRow>, table': set<GenerationRow>)
    requires IsListing(rows, table) && IsListing(rows', table')
    ensures GenerationManifestIdentity(rows) == GenerationManifestIdentity(rows') <==> table == table'
  {
    ManifestIdentityIgnoresOrder(rows, rows');
    if table == table' {
      ListingsArePermutations(rows, rows', table);
    }
    if multiset(rows) == multiset(rows') {
      forall x ensures x in table <==> x in table' {
        assert x in rows <==> x in multiset(rows);
        assert x in rows' <==> x in multiset(rows');
      }
    }
  }
}
