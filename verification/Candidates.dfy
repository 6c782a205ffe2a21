/** Ranking and classification of candidate emission sources (plumegraph/science.py). */
module Candidates {
  import opened Prelude

  datatype Candidate = Candidate(
    facilityId: string, alignment: real, noxLbs: Option<real>, distance: real, annualTons: real, isCohort: bool)

  datatype Contract = Contract(
    trajectoryWeight: real, emissionsWeight: real, distanceWeight: real, annualWeight: real,
    distanceDecay: real, eceMax: real,
    likelyProbability: real, likelyMargin: real, plausibleProbability: real, ambiguousMargin: real)

  datatype Class = Likely | Plausible | Ambiguous | InsufficientEvidence

  datatype Ranking = Ranking(
    facilityId: string, rank: nat, score: real, probability: Option<real>, class_: Class, isCohort: bool,
    probabilityReady: bool)

  datatype ClassifyError = BadTemperature

  /** The exponential, known only to be positive and strictly increasing. */
  ghost predicate ExpLike(exp: real -> real)
  {
    (forall x :: exp(x) > 0.0) && (forall x, y :: x < y ==> exp(x) < exp(y))
  }

  // ---------- Scores ----------

  function Max(a: real, b: real): real { if a < b then b else a }

  function Min(a: real, b: real): real { if b < a then b else a }

  function Abs(a: real): real { if a < 0.0 then -a else a }

  function MaxOf(s: seq<real>): (m: real)
    requires s != []
    ensures m in s && forall x :: x in s ==> x <= m
  {
    if |s| == 1 then s[0]
    else
      assert forall x :: x in s ==> x == s[0] || x in s[1..];
      Max(s[0], MaxOf(s[1..]))
  }

  function MinOf(s: seq<real>): (m: real)
    requires s != []
    ensures m in s && forall x :: x in s ==> m <= x
  {
    if |s| == 1 then s[0]
    else
      assert forall x :: x in s ==> x == s[0] || x in s[1..];
      Min(s[0], MinOf(s[1..]))
  }

  // math.isclose with its default tolerances.
  predicate IsClose(a: real, b: real)
  {
    Abs(a - b) <= 0.000000001 * Max(Abs(a), Abs(b))
  }

  predicate Flat(low: real, high: real) { low == high || IsClose(low, high) }

  function Rescale(v: real, low: real, high: real): real
    requires low < high
  {
    (v - low) / (high - low)
  }

  function Normalized(values: seq<real>): (r: seq<real>)
    requires values != []
    ensures |r| == |values|
  {
    var low, high := MinOf(values), MaxOf(values);
    assert values[0] in values;
    if Flat(low, high) then seq(|values|, i => 1.0)
    else seq(|values|, i requires 0 <= i < |values| => Rescale(values[i], low, high))
  }

  lemma RescaleInUnitInterval(v: real, low: real, high: real)
    requires low < high && low <= v <= high
    ensures 0.0 <= Rescale(v, low, high) <= 1.0
  {
    var d, n := high - low, v - low;
    var q := n / d;
    assert q * d == n;
    assert q < 0.0 ==> q * d < 0.0;
    assert q > 1.0 ==> (q - 1.0) * d > 0.0;
  }

  lemma NormalizedInUnitInterval(values: seq<real>, i: nat)
    requires i < |values|
    ensures 0.0 <= Normalized(values)[i] <= 1.0
  {
    var low, high := MinOf(values), MaxOf(values);
    assert values[i] in values;
    if !Flat(low, high) {
      RescaleInUnitInterval(values[i], low, high);
    }
  }

  function EmissionScores(cs: seq<Candidate>): (r: Option<seq<real>>)
    requires cs != []
    ensures r.Some? ==> |r.value| == |cs|
  {
    if forall c | c in cs :: c.noxLbs.Some? then
      Some(Normalized(seq(|cs|, i requires 0 <= i < |cs| =>
        assert cs[i] in cs; Max(0.0, cs[i].noxLbs.value))))
    else None
  }

  function Scores(cs: seq<Candidate>, k: Contract, exp: real -> real): (r: seq<real>)
    requires cs != [] && k.distanceDecay != 0.0
    ensures |r| == |cs|
  {
    var annual := Normalized(seq(|cs|, i requires 0 <= i < |cs| => Max(0.0, cs[i].annualTons)));
    var emissions := EmissionScores(cs);
    seq(|cs|, i requires 0 <= i < |cs| =>
      ScoreOf(cs[i], k, exp, if emissions.Some? then emissions.value[i] else 0.0, annual[i]))
  }

  function ScoreOf(c: Candidate, k: Contract, exp: real -> real, emission: real, annual: real): real
    requires k.distanceDecay != 0.0
  {
    k.trajectoryWeight * Max(0.0, Min(1.0, c.alignment))
    + k.emissionsWeight * emission
    + k.distanceWeight * exp(-Max(0.0, c.distance) / k.distanceDecay)
    + k.annualWeight * annual
  }

  // ---------- What the scores are ----------

  ghost predicate AreExtremes(low: real, high: real, values: seq<real>)
  {
    low in values && high in values && forall v :: v in values ==> low <= v <= high
  }

  /** The values between their extremes as fractions of the span, and one throughout when the
      extremes are equal or closer than a billionth of the larger magnitude. */
  ghost predicate AreFractions(fractions: seq<real>, values: seq<real>, low: real, high: real)
  {
    && |fractions| == |values|
    && forall i :: 0 <= i < |values| ==>
         if low == high || high - low <= 0.000000001 * high || high - low <= 0.000000001 * -low
         then fractions[i] == 1.0 else IsFraction(fractions[i], values[i] - low, high - low)
  }

  ghost predicate IsFraction(fraction: real, part: real, whole: real) { fraction * whole == part }

  ghost predicate AreNormalized(fractions: seq<real>, values: seq<real>)
  {
    exists low, high :: AreExtremes(low, high, values) && AreFractions(fractions, values, low, high)
  }

  // The values themselves, and zero for the negative ones.
  ghost predicate ArePositiveParts(parts: seq<real>, values: seq<real>)
  {
    |parts| == |values| && forall i :: 0 <= i < |values| ==> parts[i] == if values[i] < 0.0 then 0.0 else values[i]
  }

  ghost predicate AllReported(cs: seq<Candidate>)
  {
    forall i :: 0 <= i < |cs| ==> cs[i].noxLbs.Some?
  }

  ghost function Reported(cs: seq<Candidate>): (r: seq<real>)
    requires AllReported(cs)
    ensures |r| == |cs| && forall i :: 0 <= i < |cs| ==> r[i] == cs[i].noxLbs.value
  {
    seq(|cs|, i requires 0 <= i < |cs| => cs[i].noxLbs.value)
  }

  ghost function AnnualTons(cs: seq<Candidate>): (r: seq<real>)
    ensures |r| == |cs| && forall i :: 0 <= i < |cs| ==> r[i] == cs[i].annualTons
  {
    seq(|cs|, i requires 0 <= i < |cs| => cs[i].annualTons)
  }

  ghost predicate IsEmissionTerm(emissions: seq<real>, cs: seq<Candidate>)
  {
    if AllReported(cs) then exists parts :: ArePositiveParts(parts, Reported(cs)) && AreNormalized(emissions, parts)
    else |emissions| == |cs| && forall i :: 0 <= i < |cs| ==> emissions[i] == 0.0
  }

  ghost predicate IsAnnualTerm(annual: seq<real>, cs: seq<Candidate>)
  {
    exists parts :: ArePositiveParts(parts, AnnualTons(cs)) && AreNormalized(annual, parts)
  }

  ghost function Clamped(v: real): real { if v < 0.0 then 0.0 else if v > 1.0 then 1.0 else v }

  /** A score weighs the alignment within the unit interval, the candidate's share of reported
      emissions, its nearness, which falls off with the distance, and its share of annual ones. */
  ghost predicate IsScore(score: real, c: Candidate, k: Contract, exp: real -> real, emission: real, annual: real)
    requires k.distanceDecay != 0.0
  {
    var distance := if c.distance < 0.0 then 0.0 else c.distance;
    IsWeighted(score, k, Clamped(c.alignment), emission, exp(-distance / k.distanceDecay), annual)
  }

  ghost predicate IsWeighted(score: real, k: Contract, trajectory: real, emission: real, nearness: real, annual: real)
  {
    score == k.trajectoryWeight * trajectory + k.emissionsWeight * emission
             + k.distanceWeight * nearness + k.annualWeight * annual
  }

  ghost predicate ScoredWith(scores: seq<real>, cs: seq<Candidate>, k: Contract, exp: real -> real, emissions: seq<real>,
                             annual: seq<real>)
    requires k.distanceDecay != 0.0
  {
    && |scores| == |emissions| == |annual| == |cs|
    && forall i :: 0 <= i < |cs| ==> IsScore(scores[i], cs[i], k, exp, emissions[i], annual[i])
  }

  ghost predicate AreScores(scores: seq<real>, cs: seq<Candidate>, k: Contract, exp: real -> real)
    requires k.distanceDecay != 0.0
  {
    exists emissions, annual ::
      && IsEmissionTerm(emissions, cs) && IsAnnualTerm(annual, cs)
      && ScoredWith(scores, cs, k, exp, emissions, annual)
  }

  lemma FlatIs(low: real, high: real)
    requires low <= high
    ensures Flat(low, high) <==> low == high || high - low <= 0.000000001 * high || high - low <= 0.000000001 * -low
  {
  }

  lemma NormalizedExactly(values: seq<real>)
    requires values != []
    ensures AreNormalized(Normalized(values), values)
  {
    var low, high := MinOf(values), MaxOf(values);
    assert values[0] in values;
    FlatIs(low, high);
    if !Flat(low, high) {
      forall i | 0 <= i < |values| ensures IsFraction(Normalized(values)[i], values[i] - low, high - low) {
        RescaleTimes(values[i], low, high);
      }
    }
    assert AreFractions(Normalized(values), values, low, high);
  }

  lemma RescaleTimes(v: real, low: real, high: real)
    requires low < high
    ensures IsFraction(Rescale(v, low, high), v - low, high - low)
  {
  }

  lemma EmissionTermIs(cs: seq<Candidate>)
    requires cs != []
    ensures EmissionScores(cs).Some? <==> AllReported(cs)
    ensures EmissionScores(cs).Some? ==> IsEmissionTerm(EmissionScores(cs).value, cs)
  {
    if EmissionScores(cs).Some? {
      forall i | 0 <= i < |cs| ensures cs[i].noxLbs.Some? {
        assert cs[i] in cs;
      }
      var parts := seq(|cs|, i requires 0 <= i < |cs| => Max(0.0, cs[i].noxLbs.value));
      assert ArePositiveParts(parts, Reported(cs));
      NormalizedExactly(parts);
      assert EmissionScores(cs).value == Normalized(parts);
    }
  }

  lemma AnnualTermIs(cs: seq<Candidate>)
    requires cs != []
    ensures IsAnnualTerm(Normalized(seq(|cs|, i requires 0 <= i < |cs| => Max(0.0, cs[i].annualTons))), cs)
  {
    var parts := seq(|cs|, i requires 0 <= i < |cs| => Max(0.0, cs[i].annualTons));
    assert ArePositiveParts(parts, AnnualTons(cs));
    NormalizedExactly(parts);
  }

  lemma OneScore(c: Candidate, k: Contract, exp: real -> real, emission: real, annual: real)
    requires k.distanceDecay != 0.0
    ensures IsScore(ScoreOf(c, k, exp, emission, annual), c, k, exp, emission, annual)
  {
    assert Max(0.0, Min(1.0, c.alignment)) == Clamped(c.alignment);
    assert Max(0.0, c.distance) == if c.distance < 0.0 then 0.0 else c.distance;
  }

  lemma ScoresAre(cs: seq<Candidate>, k: Contract, exp: real -> real)
    requires cs != [] && k.distanceDecay != 0.0
    ensures AreScores(Scores(cs, k, exp), cs, k, exp)
  {
    var annual := Normalized(seq(|cs|, i requires 0 <= i < |cs| => Max(0.0, cs[i].annualTons)));
    var reported := EmissionScores(cs);
    var emissions := if reported.Some? then reported.value else seq(|cs|, i => 0.0);
    AnnualTermIs(cs);
    EmissionTermIs(cs);
    forall i | 0 <= i < |cs|
      ensures IsScore(Scores(cs, k, exp)[i], cs[i], k, exp, emissions[i], annual[i])
    {
      OneScore(cs[i], k, exp, emissions[i], annual[i]);
    }
    assert ScoredWith(Scores(cs, k, exp), cs, k, exp, emissions, annual);
  }

  // ---------- Softmax ----------

  function Total(s: seq<real>): real
  {
    if s == [] then 0.0 else s[0] + Total(s[1..])
  }

  function Exponentials(scores: seq<real>, temperature: real, exp: real -> real): (r: seq<real>)
    requires scores != [] && temperature > 0.0
    ensures |r| == |scores|
  {
    var maximum := MaxOf(scores) / temperature;
    seq(|scores|, i requires 0 <= i < |scores| => exp(scores[i] / temperature - maximum))
  }

  function Quotients(e: seq<real>, total: real): (r: seq<real>)
    requires total > 0.0
    ensures |r| == |e|
  {
    seq(|e|, i requires 0 <= i < |e| => e[i] / total)
  }

  function Softmax(scores: seq<real>, temperature: real, exp: real -> real): (r: seq<real>)
    requires scores != [] && temperature > 0.0 && ExpLike(exp)
    ensures |r| == |scores|
  {
    var e := Exponentials(scores, temperature, exp);
    TotalBoundsParts(e);
    Quotients(e, Total(e))
  }

  lemma {:induction false} TotalBoundsParts(e: seq<real>)
    requires forall i :: 0 <= i < |e| ==> e[i] > 0.0
    ensures e != [] ==> Total(e) > 0.0
    ensures Total(e) >= 0.0
    ensures forall i :: 0 <= i < |e| ==> e[i] <= Total(e)
  {
    if e != [] {
      TotalBoundsParts(e[1..]);
      forall i | 0 <= i < |e|
        ensures e[i] <= Total(e)
      {
        assert i > 0 ==> e[i] == e[1..][i - 1];
      }
    }
  }

  lemma QuotientSum(a: real, b: real, t: real)
    requires t > 0.0
    ensures a / t + b / t == (a + b) / t
    ensures t / t == 1.0
    ensures 0.0 / t == 0.0
  {
  }

  lemma {:induction false} TotalOfQuotients(e: seq<real>, total: real)
    requires total > 0.0
    ensures Total(Quotients(e, total)) == Total(e) / total
  {
    if e == [] {
      QuotientSum(0.0, 0.0, total);
    } else {
      TotalOfQuotients(e[1..], total);
      assert Quotients(e, total)[1..] == Quotients(e[1..], total);
      QuotientSum(e[0], Total(e[1..]), total);
    }
  }

  lemma QuotientLess(a: real, b: real, t: real)
    requires t > 0.0 && a < b
    ensures a / t < b / t
  {
    var p, q := a / t, b / t;
    assert p * t == a && q * t == b;
    assert p >= q ==> (p - q) * t >= 0.0;
  }

  lemma QuotientsKeepOrder(e: seq<real>, total: real, i: nat, j: nat)
    requires total > 0.0 && i < |e| && j < |e|
    ensures e[i] < e[j] <==> Quotients(e, total)[i] < Quotients(e, total)[j]
    ensures 0.0 < e[i] <= total ==> 0.0 < Quotients(e, total)[i] <= 1.0
  {
    if e[i] < e[j] {
      QuotientLess(e[i], e[j], total);
    } else if e[j] < e[i] {
      QuotientLess(e[j], e[i], total);
    }
    QuotientSum(0.0, 0.0, total);
    if 0.0 < e[i] {
      QuotientLess(0.0, e[i], total);
    }
    if e[i] < total {
      QuotientLess(e[i], total, total);
    }
  }

  lemma ExponentialsKeepOrder(scores: seq<real>, temperature: real, exp: real -> real, i: nat, j: nat)
    requires temperature > 0.0 && ExpLike(exp) && i < |scores| && j < |scores|
    ensures scores[i] < scores[j] <==>
      Exponentials(scores, temperature, exp)[i] < Exponentials(scores, temperature, exp)[j]
  {
    if scores[i] < scores[j] {
      QuotientLess(scores[i], scores[j], temperature);
    } else if scores[j] < scores[i] {
      QuotientLess(scores[j], scores[i], temperature);
    }
  }

  /** A probability vector that ranks exactly as its scores do. */
  ghost predicate IsProbabilityOf(p: seq<real>, scores: seq<real>)
  {
    && |p| == |scores|
    && Total(p) == 1.0
    && (forall i :: 0 <= i < |p| ==> 0.0 < p[i] <= 1.0)
    && (forall i, j :: 0 <= i < |p| && 0 <= j < |p| ==> (scores[i] < scores[j] <==> p[i] < p[j]))
  }

  /** Probabilities are positive, sum to one and follow the score order both ways. */
  lemma SoftmaxIsProbability(scores: seq<real>, temperature: real, exp: real -> real)
    requires scores != [] && temperature > 0.0 && ExpLike(exp)
    ensures IsProbabilityOf(Softmax(scores, temperature, exp), scores)
  {
    var e := Exponentials(scores, temperature, exp);
    TotalBoundsParts(e);
    var total := Total(e);
    TotalOfQuotients(e, total);
    QuotientSum(0.0, 0.0, total);
    var p := Softmax(scores, temperature, exp);
    forall i | 0 <= i < |p|
      ensures 0.0 < p[i] <= 1.0
    {
      QuotientsKeepOrder(e, total, i, i);
    }
    forall i, j | 0 <= i < |p| && 0 <= j < |p|
      ensures scores[i] < scores[j] <==> p[i] < p[j]
    {
      ExponentialsKeepOrder(scores, temperature, exp, i, j);
      QuotientsKeepOrder(e, total, i, j);
    }
  }

  // ---------- What the probabilities are ----------

  ghost predicate AreScaled(scaled: seq<real>, scores: seq<real>, temperature: real)
  {
    |scaled| == |scores| && forall i :: 0 <= i < |scores| ==> IsFraction(scaled[i], scores[i], temperature)
  }

  ghost predicate AreShares(p: seq<real>, e: seq<real>, total: real)
  {
    |p| == |e| && forall i :: 0 <= i < |e| ==> IsFraction(p[i], e[i], total)
  }

  ghost predicate AreExponentials(e: seq<real>, scaled: seq<real>, exp: real -> real)
  {
    exists top :: IsTop(top, scaled) && FallShort(e, scaled, top, exp)
  }

  ghost predicate FallShort(e: seq<real>, scaled: seq<real>, top: real, exp: real -> real)
  {
    |e| == |scaled| && forall i :: 0 <= i < |scaled| ==> e[i] == exp(scaled[i] - top)
  }

  /** Each probability is the share of its exponential in their sum: the exponential of how far
      the score over the temperature falls short of the greatest one. */
  ghost predicate AreProbabilities(p: seq<real>, scores: seq<real>, temperature: real, exp: real -> real)
  {
    exists scaled, e ::
      && AreScaled(scaled, scores, temperature) && AreExponentials(e, scaled, exp)
      && AreShares(p, e, Sum(e, (x: real) => x))
  }

  lemma {:induction false} TotalIsSum(s: seq<real>)
    ensures Total(s) == Sum(s, (x: real) => x)
  {
    if s != [] {
      TotalIsSum(s[1..]);
    }
  }

  lemma QuotientIsFraction(part: real, whole: real)
    requires whole != 0.0
    ensures IsFraction(part / whole, part, whole)
  {
  }

  lemma ExponentialsAre(scores: seq<real>, temperature: real, exp: real -> real) returns (scaled: seq<real>)
    requires scores != [] && temperature > 0.0
    ensures AreScaled(scaled, scores, temperature)
    ensures AreExponentials(Exponentials(scores, temperature, exp), scaled, exp)
  {
    scaled := seq(|scores|, i requires 0 <= i < |scores| => scores[i] / temperature);
    forall i | 0 <= i < |scores| ensures IsFraction(scaled[i], scores[i], temperature) {
      QuotientIsFraction(scores[i], temperature);
    }
    var top := MaxOf(scores) / temperature;
    var h :| 0 <= h < |scores| && scores[h] == MaxOf(scores);
    assert scaled[h] == top;
    forall x | x in scaled ensures x <= top {
      var i :| 0 <= i < |scaled| && scaled[i] == x;
      assert scores[i] in scores;
      if scores[i] < MaxOf(scores) {
        QuotientLess(scores[i], MaxOf(scores), temperature);
      }
    }
    assert FallShort(Exponentials(scores, temperature, exp), scaled, top, exp);
  }

  lemma SoftmaxExactly(scores: seq<real>, temperature: real, exp: real -> real)
    requires scores != [] && temperature > 0.0 && ExpLike(exp)
    ensures AreProbabilities(Softmax(scores, temperature, exp), scores, temperature, exp)
  {
    var e, p := Exponentials(scores, temperature, exp), Softmax(scores, temperature, exp);
    var scaled := ExponentialsAre(scores, temperature, exp);
    TotalBoundsParts(e);
    TotalIsSum(e);
    forall i | 0 <= i < |e| ensures IsFraction(p[i], e[i], Total(e)) {
      QuotientIsFraction(e[i], Total(e));
    }
    assert AreShares(p, e, Sum(e, (x: real) => x));
  }

  // ---------- Ranking ----------

  function RankedBefore(cs: seq<Candidate>, scores: seq<real>): (int, int) -> bool
    requires |scores| == |cs|
  {
    (i: int, j: int) =>
      if 0 <= i < |cs| && 0 <= j < |cs| then
        scores[i] > scores[j] || (scores[i] == scores[j] && TextLeq(cs[i].facilityId, cs[j].facilityId))
      else 0 <= i < |cs| || !(0 <= j < |cs|)
  }

  function Range(n: nat): (r: seq<int>)
    ensures |r| == n && forall i :: 0 <= i < n ==> r[i] == i
  {
    seq(n, i => i)
  }

  function Order(cs: seq<Candidate>, scores: seq<real>): (r: seq<int>)
    requires |scores| == |cs|
    ensures |r| == |cs|
    ensures forall k :: 0 <= k < |r| ==> 0 <= r[k] < |cs|
  {
    var r := SortBy(Range(|cs|), RankedBefore(cs, scores));
    assert forall x :: x in multiset(r) ==> x in Range(|cs|);
    assert forall k :: 0 <= k < |r| ==> r[k] in multiset(r);
    r
  }

  /** Every candidate is ranked exactly once, by falling score and then identifier. */
  ghost predicate IsRankOrder(order: seq<int>, cs: seq<Candidate>, scores: seq<real>)
    requires |scores| == |cs|
  {
    && |order| == |cs|
    && Distinct(order)
    && (forall i :: 0 <= i < |cs| <==> i in order)
    && (forall k :: 0 <= k < |order| ==> 0 <= order[k] < |cs|)
    && (forall a, b :: 0 <= a < b < |order| ==>
          && scores[order[a]] >= scores[order[b]]
          && (scores[order[a]] == scores[order[b]] ==> TextLeq(cs[order[a]].facilityId, cs[order[b]].facilityId)))
  }

  lemma OrderIsRankOrder(cs: seq<Candidate>, scores: seq<real>)
    requires |scores| == |cs|
    ensures IsRankOrder(Order(cs, scores), cs, scores)
  {
    var r, range := Order(cs, scores), Range(|cs|);
    RankedBeforePreorder(cs, scores);
    SortSorts(range, RankedBefore(cs, scores));
    forall i
      ensures 0 <= i < |cs| <==> i in r
    {
      assert i in r <==> i in multiset(r);
      assert i in range <==> i in multiset(range);
      assert 0 <= i < |cs| ==> range[i] == i;
    }
    assert Distinct(range);
    DistinctMultiset(range);
    CountsMakeDistinct(r);
  }

  lemma RankedBeforePreorder(cs: seq<Candidate>, scores: seq<real>)
    requires |scores| == |cs|
    ensures TotalPreorder(RankedBefore(cs, scores))
  {
    TextLeqPreorder();
  }

  // ---------- Classification ----------

  predicate Ready(cs: seq<Candidate>, k: Contract, temperature: Option<real>, ece: Option<real>)
    requires cs != []
  {
    EmissionScores(cs).Some? && temperature.Some? && ece.Some? && ece.value <= k.eceMax
  }

  predicate Descending(a: real, b: real) { a >= b }

  // The second largest probability.
  function RunnerUp(probabilities: seq<real>): real
    requires |probabilities| > 1
  {
    SortBy(probabilities, Descending)[1]
  }

  function Lead(probabilities: seq<real>, probability: real): real
  {
    if |probabilities| > 1 then probability - RunnerUp(probabilities) else probability
  }

  function Classify(k: Contract, probabilities: seq<real>, rank: nat, probability: real): Class
    requires probabilities != []
  {
    var first :=
      if rank == 1 && probability >= k.likelyProbability && Lead(probabilities, probability) >= k.likelyMargin then Likely
      else if probability >= k.plausibleProbability then Plausible
      else InsufficientEvidence;
    if |probabilities| > 1 && MaxOf(probabilities) - probability <= k.ambiguousMargin && first != Likely
    then Ambiguous else first
  }

  // ---------- What a class is ----------

  /** The greatest of the others once one place of the greatest is set aside. */
  ghost predicate IsRunnerUp(r: real, p: seq<real>)
  {
    exists i, j :: 0 <= i < |p| && 0 <= j < |p| && i != j && p[j] == r && p[i] >= r
      && forall h :: 0 <= h < |p| && h != i ==> p[h] <= r
  }

  ghost predicate IsTop(top: real, p: seq<real>)
  {
    top in p && forall x :: x in p ==> x <= top
  }

  /** The first rank, at least the likely probability, and ahead of the runner-up, or of
      nothing when alone, by at least the likely margin. */
  ghost predicate IsLikely(k: Contract, p: seq<real>, rank: nat, probability: real)
  {
    && rank == 1 && probability >= k.likelyProbability
    && if |p| > 1 then exists r :: IsRunnerUp(r, p) && probability - r >= k.likelyMargin else probability >= k.likelyMargin
  }

  // One of several, and no further below the greatest than the ambiguous margin.
  ghost predicate IsNearTop(k: Contract, p: seq<real>, probability: real)
  {
    |p| > 1 && exists top :: IsTop(top, p) && top - probability <= k.ambiguousMargin
  }

  ghost predicate IsClass(c: Class, k: Contract, p: seq<real>, rank: nat, probability: real)
  {
    match c
    case Likely => IsLikely(k, p, rank, probability)
    case Ambiguous => !IsLikely(k, p, rank, probability) && IsNearTop(k, p, probability)
    case Plausible =>
      && !IsLikely(k, p, rank, probability) && !IsNearTop(k, p, probability)
      && probability >= k.plausibleProbability
    case InsufficientEvidence =>
      && !IsLikely(k, p, rank, probability) && !IsNearTop(k, p, probability)
      && probability < k.plausibleProbability
  }

  lemma RunnerUpUnique(p: seq<real>, r: real, s: real)
    requires IsRunnerUp(r, p) && IsRunnerUp(s, p)
    ensures r == s
  {
    var i, j :| 0 <= i < |p| && 0 <= j < |p| && i != j && p[j] == r && p[i] >= r
      && forall h :: 0 <= h < |p| && h != i ==> p[h] <= r;
    var a, b :| 0 <= a < |p| && 0 <= b < |p| && a != b && p[b] == s && p[a] >= s
      && forall h :: 0 <= h < |p| && h != a ==> p[h] <= s;
    assert j != a ==> p[j] <= s;
    assert b != i ==> p[b] <= r;
  }

  // The second of the sorted probabilities is where the first was set aside.
  lemma RunnerUpIs(p: seq<real>)
    requires |p| > 1
    ensures IsRunnerUp(RunnerUp(p), p)
  {
    var order := SortBy(Range(|p|), FallingAt(p));
    FallingAtPreorder(p);
    SortSorts(Range(|p|), FallingAt(p));
    PlacesAre(p, order);
    InOrderPermutes(p, order);
    forall a, b | 0 <= a < b < |p| ensures InOrder(p, order)[a] >= InOrder(p, order)[b] {
      assert FallingAt(p)(order[a], order[b]);
    }
    SortedListing(p, InOrder(p, order));
    var i, j := order[0], order[1];
    forall h | 0 <= h < |p| && h != i ensures p[h] <= p[j] {
      assert h in order;
      var a :| 0 <= a < |order| && order[a] == h;
      assert a > 1 ==> InOrder(p, order)[1] >= InOrder(p, order)[a];
    }
  }

  function FallingAt(p: seq<real>): (int, int) -> bool
  {
    (i: int, j: int) => if 0 <= i < |p| && 0 <= j < |p| then p[i] >= p[j] else 0 <= i < |p| || !(0 <= j < |p|)
  }

  lemma FallingAtPreorder(p: seq<real>)
    ensures TotalPreorder(FallingAt(p))
  {
  }

  lemma PlacesAre(p: seq<real>, order: seq<int>)
    requires multiset(order) == multiset(Range(|p|))
    ensures |order| == |p| && Distinct(order)
    ensures forall k :: 0 <= k < |order| ==> 0 <= order[k] < |p|
    ensures forall h :: 0 <= h < |p| ==> h in order
  {
    var range := Range(|p|);
    MultisetLength(order, range);
    assert Distinct(range);
    DistinctMultiset(range);
    CountsMakeDistinct(order);
    forall k | 0 <= k < |order| ensures 0 <= order[k] < |p| {
      assert order[k] in multiset(order);
      assert order[k] in multiset(range);
    }
    forall h | 0 <= h < |p| ensures h in order {
      assert range[h] == h;
      assert h in multiset(range);
      assert h in multiset(order);
    }
  }

  /** The class given is the one whose description fits, and no other does. */
  lemma ClassifyExactly(k: Contract, p: seq<real>, rank: nat, probability: real, c: Class)
    requires p != []
    ensures Classify(k, p, rank, probability) == c <==> IsClass(c, k, p, rank, probability)
  {
    LikelyIs(k, p, rank, probability);
    if |p| > 1 {
      TopIs(k, p, probability);
    }
  }

  lemma LikelyIs(k: Contract, p: seq<real>, rank: nat, probability: real)
    ensures IsLikely(k, p, rank, probability) <==>
      rank == 1 && probability >= k.likelyProbability && Lead(p, probability) >= k.likelyMargin
  {
    if |p| > 1 {
      RunnerUpIs(p);
      if r :| IsRunnerUp(r, p) && probability - r >= k.likelyMargin {
        RunnerUpUnique(p, r, RunnerUp(p));
      }
    }
  }

  lemma {:induction false} TopIs(k: Contract, p: seq<real>, probability: real)
    requires |p| > 1
    ensures IsNearTop(k, p, probability) <==> MaxOf(p) - probability <= k.ambiguousMargin
  {
    assert IsTop(MaxOf(p), p);
    if top :| IsTop(top, p) && top - probability <= k.ambiguousMargin {
      assert top <= MaxOf(p) <= top;
    }
  }

  function RankingAt(cs: seq<Candidate>, k: Contract, scores: seq<real>, probabilities: Option<seq<real>>, order: seq<int>, j: nat): Ranking
    requires |scores| == |cs| == |order| && j < |order| && 0 <= order[j] < |cs|
    requires probabilities.Some? ==> |probabilities.value| == |cs|
  {
    var index := order[j];
    match probabilities
    case Some(p) =>
      Ranking(cs[index].facilityId, j + 1, scores[index], Some(p[index]), Classify(k, p, j + 1, p[index]), cs[index].isCohort, true)
    case None =>
      Ranking(cs[index].facilityId, j + 1, scores[index], None, InsufficientEvidence, cs[index].isCohort, false)
  }

  method RankAll(cs: seq<Candidate>, k: Contract, scores: seq<real>, probabilities: Option<seq<real>>, order: seq<int>)
    returns (result: seq<Ranking>)
    requires |scores| == |cs| == |order| && forall j :: 0 <= j < |order| ==> 0 <= order[j] < |cs|
    requires probabilities.Some? ==> |probabilities.value| == |cs|
    ensures |result| == |cs|
    ensures forall j :: 0 <= j < |cs| ==> result[j] == RankingAt(cs, k, scores, probabilities, order, j)
  {
    result := [];
    for j := 0 to |order|
      invariant |result| == j
      invariant forall h :: 0 <= h < j ==> result[h] == RankingAt(cs, k, scores, probabilities, order, h)
    {
      var index, rank := order[j], j + 1;
      var probability, class_ := None, InsufficientEvidence;
      if probabilities.Some? {
        probability := Some(probabilities.value[index]);
        class_ := Classify(k, probabilities.value, rank, probabilities.value[index]);
      }
      result := result + [Ranking(cs[index].facilityId, rank, scores[index], probability, class_,
        cs[index].isCohort, probabilities.Some?)];
    }
  }

  /** What the caller reads off a non-empty answer. */
  ghost predicate Answers(cs: seq<Candidate>, k: Contract, scores: seq<real>, probabilities: Option<seq<real>>, answer: seq<Ranking>)
    requires |scores| == |cs|
    requires probabilities.Some? ==> |probabilities.value| == |cs|
  {
    && |answer| == |cs|
    && forall j :: 0 <= j < |cs| ==> answer[j] == RankingAt(cs, k, scores, probabilities, Order(cs, scores), j)
  }

  /** Every quantity needed for calibrated probabilities is known and the calibration error is
      within its limit. */
  ghost predicate IsCalibrated(cs: seq<Candidate>, k: Contract, temperature: Option<real>, ece: Option<real>)
  {
    AllReported(cs) && temperature.Some? && (ece.Some? && ece.value <= k.eceMax)
  }

  // What the answer says of the candidate in place j of the order.
  ghost predicate IsEntry(entry: Ranking, c: Candidate, j: nat, score: real, k: Contract, p: Option<seq<real>>, probability: real)
  {
    && entry.facilityId == c.facilityId && entry.isCohort == c.isCohort && entry.rank == j + 1 && entry.score == score
    && (entry.probabilityReady <==> p.Some?)
    && (p.Some? ==> entry.probability == Some(probability) && IsClass(entry.class_, k, p.value, j + 1, probability))
    && (p.None? ==> entry.probability.None? && entry.class_ == InsufficientEvidence)
  }

  ghost predicate AreEntries(answer: seq<Ranking>, cs: seq<Candidate>, order: seq<int>, scores: seq<real>, k: Contract,
                             p: Option<seq<real>>)
    requires |scores| == |cs|
  {
    && IsRankOrder(order, cs, scores) && |answer| == |cs|
    && (p.Some? ==> |p.value| == |cs|)
    && forall j :: 0 <= j < |cs| ==>
         var i := order[j];
         IsEntry(answer[j], cs[i], j, scores[i], k, p, if p.Some? then p.value[i] else 0.0)
  }

  /** The answer ranks the scored candidates; calibrated, it carries their probabilities and
      classes, and otherwise neither. */
  ghost predicate IsAnswer(answer: seq<Ranking>, cs: seq<Candidate>, k: Contract, temperature: Option<real>, ece: Option<real>,
                           exp: real -> real)
    requires k.distanceDecay != 0.0
  {
    exists scores: seq<real>, order: seq<int>, p: Option<seq<real>> ::
      && AreScores(scores, cs, k, exp) && |scores| == |cs|
      && (p.Some? <==> IsCalibrated(cs, k, temperature, ece))
      && (p.Some? ==> AreProbabilities(p.value, scores, temperature.value, exp))
      && AreEntries(answer, cs, order, scores, k, p)
  }

  lemma EntriesAre(cs: seq<Candidate>, k: Contract, scores: seq<real>, p: Option<seq<real>>, answer: seq<Ranking>)
    requires cs != [] && |scores| == |cs| && (p.Some? ==> |p.value| == |cs|)
    requires Answers(cs, k, scores, p, answer)
    ensures AreEntries(answer, cs, Order(cs, scores), scores, k, p)
  {
    OrderIsRankOrder(cs, scores);
    var order := Order(cs, scores);
    forall j | 0 <= j < |cs|
      ensures IsEntry(answer[j], cs[order[j]], j, scores[order[j]], k, p, if p.Some? then p.value[order[j]] else 0.0)
    {
      if p.Some? {
        ClassifyExactly(k, p.value, j + 1, p.value[order[j]], answer[j].class_);
      }
    }
  }

  lemma ReadyIsCalibrated(cs: seq<Candidate>, k: Contract, temperature: Option<real>, ece: Option<real>)
    requires cs != []
    ensures Ready(cs, k, temperature, ece) <==> IsCalibrated(cs, k, temperature, ece)
  {
    EmissionTermIs(cs);
  }

  lemma AnswersAre(cs: seq<Candidate>, k: Contract, temperature: Option<real>, ece: Option<real>, exp: real -> real,
                   p: Option<seq<real>>, answer: seq<Ranking>)
    requires cs != [] && k.distanceDecay != 0.0 && ExpLike(exp)
    requires p.Some? <==> Ready(cs, k, temperature, ece)
    requires p.Some? ==> temperature.value > 0.0 && p.value == Softmax(Scores(cs, k, exp), temperature.value, exp)
    requires Answers(cs, k, Scores(cs, k, exp), p, answer)
    ensures IsAnswer(answer, cs, k, temperature, ece, exp)
  {
    var scores := Scores(cs, k, exp);
    ScoresAre(cs, k, exp);
    ReadyIsCalibrated(cs, k, temperature, ece);
    if p.Some? {
      SoftmaxExactly(scores, temperature.value, exp);
    }
    EntriesAre(cs, k, scores, p, answer);
  }

  method ClassifyCandidates(cs: seq<Candidate>, k: Contract, temperature: Option<real>, ece: Option<real>, exp: real -> real)
    returns (r: Result<seq<Ranking>, ClassifyError>)
    requires k.distanceDecay != 0.0 && ExpLike(exp)
    ensures cs == [] ==> r == Ok([])
    ensures r.Err? <==> cs != [] && IsCalibrated(cs, k, temperature, ece) && temperature.value <= 0.0
    ensures r.Ok? && cs != [] ==> IsAnswer(r.value, cs, k, temperature, ece, exp)
    ensures r.Ok? && cs != [] ==>
      var scores := Scores(cs, k, exp);
      if Ready(cs, k, temperature, ece)
      then Answers(cs, k, scores, Some(Softmax(scores, temperature.value, exp)), r.value)
      else Answers(cs, k, scores, None, r.value)
  {
    if cs == [] {
      return Ok([]);
    }
    ReadyIsCalibrated(cs, k, temperature, ece);
    var scores := Scores(cs, k, exp);
    var probabilities := None;
    if Ready(cs, k, temperature, ece) {
      if temperature.value <= 0.0 {
        return Err(BadTemperature);
      }
      probabilities := Some(Softmax(scores, temperature.value, exp));
    }
    var result := RankAll(cs, k, scores, probabilities, Order(cs, scores));
    AnswersAre(cs, k, temperature, ece, exp, probabilities, result);
    r := Ok(result);
  }

  // ---------- Coherence ----------

  // Probabilities read off in rank order.
  function InOrder(p: seq<real>, order: seq<int>): (r: seq<real>)
    requires forall k :: 0 <= k < |order| ==> 0 <= order[k] < |p|
    ensures |r| == |order|
    ensures forall k :: 0 <= k < |order| ==> r[k] == p[order[k]]
  {
    seq(|order|, k requires 0 <= k < |order| => p[order[k]])
  }

  function Pick(p: seq<real>): int -> seq<real>
  {
    (i: int) => if 0 <= i < |p| then [p[i]] else []
  }

  lemma {:induction false} InOrderAsFlatMap(p: seq<real>, order: seq<int>)
    requires forall k :: 0 <= k < |order| ==> 0 <= order[k] < |p|
    ensures InOrder(p, order) == FlatMap(order, Pick(p))
  {
    if order != [] {
      InOrderAsFlatMap(p, order[1..]);
      assert InOrder(p, order) == [p[order[0]]] + InOrder(p, order[1..]);
    }
  }

  lemma InOrderPermutes(p: seq<real>, order: seq<int>)
    requires multiset(order) == multiset(Range(|p|))
    requires forall k :: 0 <= k < |order| ==> 0 <= order[k] < |p|
    ensures multiset(InOrder(p, order)) == multiset(p)
  {
    InOrderAsFlatMap(p, order);
    InOrderAsFlatMap(p, Range(|p|));
    assert InOrder(p, Range(|p|)) == p;
    FlatMapPermutation(order, Range(|p|), Pick(p));
  }

  /** Read in rank order, the first probability is the maximum and the second the runner-up. */
  lemma {:induction false} TopAndRunnerUp(p: seq<real>, order: seq<int>)
    requires p != [] && |order| == |p| && multiset(order) == multiset(Range(|p|))
    requires forall k :: 0 <= k < |order| ==> 0 <= order[k] < |p|
    requires SortedBy(InOrder(p, order), Descending)
    ensures MaxOf(p) == p[order[0]]
    ensures |p| > 1 ==> RunnerUp(p) == p[order[1]]
  {
    var listed := InOrder(p, order);
    InOrderPermutes(p, order);
    HeadIsMaximum(p, listed);
    SortedListing(p, listed);
  }

  lemma {:induction false} HeadIsMaximum(p: seq<real>, listed: seq<real>)
    requires p != [] && multiset(p) == multiset(listed) && |p| == |listed|
    requires SortedBy(listed, Descending)
    ensures MaxOf(p) == listed[0]
  {
    var top := MaxOf(p);
    assert top in p;
    assert top in multiset(p);
    assert top in multiset(listed);
    var i :| 0 <= i < |listed| && listed[i] == top;
    assert i > 0 ==> Descending(listed[0], listed[i]);
    assert listed[0] in multiset(p);
    assert listed[0] in p;
  }

  lemma {:induction false} SortedListing(p: seq<real>, listed: seq<real>)
    requires multiset(p) == multiset(listed) && |p| == |listed|
    requires SortedBy(listed, Descending)
    ensures SortBy(p, Descending) == listed
  {
    DescendingPreorder();
    SortSorts(p, Descending);
    SortedListsAgree(listed, SortBy(p, Descending), Descending);
  }

  lemma DescendingPreorder()
    ensures TotalPreorder(Descending) && Antisymmetric(Descending)
  {
  }

  /** With calibrated probabilities the ranks run down the probabilities too, the first
      rank holds the maximum and the second the runner-up. */
  lemma {:induction false} RanksFollowProbability(cs: seq<Candidate>, scores: seq<real>, p: seq<real>)
    requires cs != [] && |scores| == |cs| && IsProbabilityOf(p, scores)
    ensures SortedBy(InOrder(p, Order(cs, scores)), Descending)
    ensures MaxOf(p) == p[Order(cs, scores)[0]]
    ensures |cs| > 1 ==> RunnerUp(p) == p[Order(cs, scores)[1]]
  {
    var order := Order(cs, scores);
    OrderIsRankOrder(cs, scores);
    forall a, b | 0 <= a < b < |cs|
      ensures p[order[a]] >= p[order[b]]
    {
      assert scores[order[a]] >= scores[order[b]];
    }
    TopAndRunnerUp(p, order);
  }

  predicate MeetsLikely(k: Contract, p: seq<real>, probability: real)
  {
    probability >= k.likelyProbability && Lead(p, probability) >= k.likelyMargin
  }

  /** With several calibrated candidates the top one is likely when it meets both
      thresholds, and otherwise ambiguous exactly when the margin is not negative. */
  lemma TopIsLikelyOrAmbiguous(cs: seq<Candidate>, k: Contract, scores: seq<real>, p: seq<real>)
    requires |cs| > 1 && |scores| == |cs| && IsProbabilityOf(p, scores)
    ensures var top := p[Order(cs, scores)[0]];
      && (Classify(k, p, 1, top) == Likely <==> MeetsLikely(k, p, top))
      && (Classify(k, p, 1, top) in {Likely, Ambiguous} <==> MeetsLikely(k, p, top) || 0.0 <= k.ambiguousMargin)
  {
    RanksFollowProbability(cs, scores, p);
  }

  // What loading a contract guarantees about its thresholds.
  predicate ThresholdsLoad(k: Contract)
  {
    && 0.0 <= k.likelyProbability <= 1.0 && 0.0 <= k.likelyMargin <= 1.0
    && 0.0 <= k.plausibleProbability <= 1.0 && 0.0 <= k.ambiguousMargin <= 1.0
  }

  // A likely top of probability L leads every other candidate by at least 2L - 1, and no top
  // of several reaches probability or lead one.
  predicate MarginsExclude(k: Contract)
  {
    || k.likelyMargin > k.ambiguousMargin
    || 2.0 * k.likelyProbability - 1.0 > k.ambiguousMargin
    || k.likelyProbability >= 1.0 || k.likelyMargin >= 1.0
  }

  lemma {:induction false} PairWithinTotal(p: seq<real>, i: nat, j: nat)
    requires i < j < |p| && forall h :: 0 <= h < |p| ==> p[h] > 0.0
    ensures p[i] + p[j] <= Total(p)
  {
    if i == 0 {
      TotalBoundsParts(p[1..]);
      assert p[j] == p[1..][j - 1];
    } else {
      PairWithinTotal(p[1..], i - 1, j - 1);
    }
  }

  // What separates the top from the candidate of any other rank.
  lemma {:induction false} TopLeads(cs: seq<Candidate>, scores: seq<real>, p: seq<real>, j: nat)
    requires 0 < j < |cs| && |scores| == |cs| && IsProbabilityOf(p, scores)
    ensures var top, other := p[Order(cs, scores)[0]], p[Order(cs, scores)[j]];
      && MaxOf(p) == top && other > 0.0 && RunnerUp(p) > 0.0
      && top + other <= 1.0 && Lead(p, top) <= top - other
  {
    RanksFollowProbability(cs, scores, p);
    OrderIsRankOrder(cs, scores);
    var order := Order(cs, scores);
    var listed := InOrder(p, order);
    assert j > 1 ==> Descending(listed[1], listed[j]);
    assert order[0] != order[j];
    if order[0] < order[j] {
      PairWithinTotal(p, order[0], order[j]);
    } else {
      PairWithinTotal(p, order[j], order[0]);
    }
  }

  /** Under that condition a likely top leaves no other candidate ambiguous. */
  lemma LikelyExcludesAmbiguous(cs: seq<Candidate>, k: Contract, scores: seq<real>, p: seq<real>, j: nat)
    requires 0 < j < |cs| && |scores| == |cs| && IsProbabilityOf(p, scores)
    requires MarginsExclude(k)
    ensures !Coexist(cs, k, scores, p, j)
  {
    TopLeads(cs, scores, p, j);
  }

  // The top candidate is likely and the one of a later rank ambiguous.
  ghost predicate Coexist(cs: seq<Candidate>, k: Contract, scores: seq<real>, p: seq<real>, j: nat)
  {
    && 0 < j < |cs| && |scores| == |cs| && IsProbabilityOf(p, scores)
    && Classify(k, p, 1, p[Order(cs, scores)[0]]) == Likely
    && Classify(k, p, j + 1, p[Order(cs, scores)[j]]) == Ambiguous
  }

  // Two candidates whose probabilities differ by `lead`.
  function Pair(lead: real): seq<real> { [(1.0 + lead) / 2.0, (1.0 - lead) / 2.0] }

  function Two(): seq<Candidate>
  {
    [Candidate("a", 0.0, None, 0.0, 0.0, true), Candidate("b", 0.0, None, 0.0, 0.0, true)]
  }

  lemma SortedPair<T>(x: T, y: T, leq: (T, T) -> bool)
    requires leq(x, y)
    ensures SortBy([x, y], leq) == [x, y]
  {
    assert [x, y][1..] == [y] && [y][1..] == [];
    assert SortBy([y], leq) == [y];
  }

  lemma PairIsProbability(lead: real)
    requires 0.0 <= lead < 1.0
    ensures IsProbabilityOf(Pair(lead), Pair(lead))
  {
    var p := Pair(lead);
    assert p[1..] == [p[1]] && p[1..][1..] == [];
    assert Total(p[1..]) == p[1];
  }

  lemma PairRanks(lead: real)
    requires 0.0 <= lead < 1.0
    ensures IsProbabilityOf(Pair(lead), Pair(lead))
    ensures Order(Two(), Pair(lead)) == [0, 1]
    ensures MaxOf(Pair(lead)) == Pair(lead)[0] && Lead(Pair(lead), Pair(lead)[0]) == lead
  {
    var p := Pair(lead);
    PairIsProbability(lead);
    assert Range(2) == [0, 1];
    SortedPair(0, 1, RankedBefore(Two(), p));
    SortedPair(p[0], p[1], Descending);
    RanksFollowProbability(Two(), p, p);
  }

  lemma PairClasses(k: Contract, lead: real)
    requires 0.0 <= lead < 1.0 && k.likelyMargin <= lead && k.likelyProbability <= (1.0 + lead) / 2.0 && lead <= k.ambiguousMargin
    ensures Classify(k, Pair(lead), 1, Pair(lead)[0]) == Likely
    ensures Classify(k, Pair(lead), 2, Pair(lead)[1]) == Ambiguous
  {
    PairRanks(lead);
  }

  lemma PairCoexists(k: Contract)
    requires ThresholdsLoad(k) && !MarginsExclude(k)
    ensures var p := Pair(Max(k.likelyMargin, 2.0 * k.likelyProbability - 1.0)); Coexist(Two(), k, p, p, 1)
  {
    PairRanks(Max(k.likelyMargin, 2.0 * k.likelyProbability - 1.0));
    PairClasses(k, Max(k.likelyMargin, 2.0 * k.likelyProbability - 1.0));
  }

  /** A contract rules out a likely top beside an ambiguous candidate, for every calibrated
      answer, exactly when its likely margin exceeds its ambiguous margin, or twice its likely
      probability less one does, or one of its likely thresholds is one. */
  lemma ExclusionExactlyWhen(k: Contract)
    requires ThresholdsLoad(k)
    ensures (forall cs: seq<Candidate>, scores: seq<real>, p: seq<real>, j: nat :: !Coexist(cs, k, scores, p, j)) <==> MarginsExclude(k)
  {
    if MarginsExclude(k) {
      forall cs: seq<Candidate>, scores: seq<real>, p: seq<real>, j: nat
        ensures !Coexist(cs, k, scores, p, j)
      {
        if 0 < j < |cs| && |scores| == |cs| && IsProbabilityOf(p, scores) {
          LikelyExcludesAmbiguous(cs, k, scores, p, j);
        }
      }
    } else {
      PairCoexists(k);
    }
  }

  lemma QuotientIs(a: real, t: real, q: real)
    requires t > 0.0 && q * t == a
    ensures a / t == q
  {
    var p := a / t;
    assert p * t == a;
    assert (p - q) * t == 0.0;
  }

  /** Such a pair is a softmax: of scores as far apart, at temperature one, as the
      exponential takes to fall to (1 - lead) / (1 + lead). */
  lemma PairIsSoftmax(lead: real, gap: real, exp: real -> real)
    requires ExpLike(exp) && exp(0.0) == 1.0
    requires 0.0 <= lead < 1.0 && gap >= 0.0 && exp(-gap) * (1.0 + lead) == 1.0 - lead
    ensures Softmax([gap, 0.0], 1.0, exp) == Pair(lead)
  {
    var e := Exponentials([gap, 0.0], 1.0, exp);
    assert MaxOf([gap, 0.0]) == gap;
    assert e == [1.0, exp(-gap)];
    assert e[1..] == [exp(-gap)] && e[1..][1..] == [];
    assert Total(e[1..]) == exp(-gap);
    var fall := exp(-gap);
    SharesOfTwo(lead, fall);
    assert Total(e) == 1.0 + fall;
  }

  lemma SharesOfTwo(lead: real, fall: real)
    requires 0.0 <= lead < 1.0 && fall * (1.0 + lead) == 1.0 - lead && fall > 0.0
    ensures 1.0 / (1.0 + fall) == (1.0 + lead) / 2.0
    ensures fall / (1.0 + fall) == (1.0 - lead) / 2.0
  {
    assert (1.0 + fall) * (1.0 + lead) == 2.0;
    QuotientIs(1.0, 1.0 + fall, (1.0 + lead) / 2.0);
    QuotientIs(fall, 1.0 + fall, (1.0 - lead) / 2.0);
  }

  function Thresholds(likelyProbability: real, likelyMargin: real, ambiguousMargin: real): Contract
  {
    Contract(1.0, 0.0, 0.0, 0.0, 1.0, 1.0, likelyProbability, likelyMargin, 0.4, ambiguousMargin)
  }

  /** The shipped thresholds exclude, and would with the ambiguous margin raised to three
      tenths, above the likely margin; with a likely probability of one half they would not:
      a top of six tenths is likely while the second, at four tenths, is ambiguous. */
  lemma MarginsMatter()
    ensures MarginsExclude(Thresholds(0.7, 0.2, 0.15)) && MarginsExclude(Thresholds(0.7, 0.2, 0.3))
    ensures Pair(0.2) == [0.6, 0.4] && Coexist(Two(), Thresholds(0.5, 0.2, 0.3), Pair(0.2), Pair(0.2), 1)
  {
    PairCoexists(Thresholds(0.5, 0.2, 0.3));
  }

  /** A lone calibrated candidate carries probability one and is never ambiguous. */
  lemma LoneCandidate(score: real, k: Contract, temperature: real, exp: real -> real)
    requires ExpLike(exp) && temperature > 0.0
    ensures var p := Softmax([score], temperature, exp);
      && p == [1.0]
      && Classify(k, p, 1, 1.0) != Ambiguous
      && (Classify(k, p, 1, 1.0) == Likely <==> k.likelyProbability <= 1.0 && k.likelyMargin <= 1.0)
  {
    var p := Softmax([score], temperature, exp);
    SoftmaxIsProbability([score], temperature, exp);
    assert p[1..] == [];
    assert Total(p) == p[0];
  }
}
