/** Bracketing meteorology, component construction and wind sensitivity
    (plumegraph/analysis.py, plumegraph/science.py). */
module Meteorology {
  import opened Prelude

  // Columns 0..3 are u10, v10, u80, v80; the rest are boundary layer, pressure, temperature.
  datatype MetRow = MetRow(time: int, values: seq<Option<real>>)

  const COLUMNS: nat := 7

  type Values = map<nat, real>

  ghost predicate WellFormed(rows: seq<MetRow>)
  {
    forall row :: row in rows ==> |row.values| == COLUMNS
  }

  function UpTo(rows: seq<MetRow>, t: int): seq<MetRow>
  {
    if rows == [] then []
    else (if rows[0].time <= t then [rows[0]] else []) + UpTo(rows[1..], t)
  }

  function From(rows: seq<MetRow>, t: int): seq<MetRow>
  {
    if rows == [] then []
    else (if rows[0].time >= t then [rows[0]] else []) + From(rows[1..], t)
  }

  // The first row with the greatest time.
  function Latest(rows: seq<MetRow>): MetRow
    requires rows != []
  {
    if |rows| == 1 then rows[0]
    else
      var rest := Latest(rows[1..]);
      if rows[0].time >= rest.time then rows[0] else rest
  }

  // The first row with the least time.
  function Earliest(rows: seq<MetRow>): MetRow
    requires rows != []
  {
    if |rows| == 1 then rows[0]
    else
      var rest := Earliest(rows[1..]);
      if rows[0].time <= rest.time then rows[0] else rest
  }

  function Fraction(lower: int, t: int, upper: int): real
    requires lower != upper
  {
    (t - lower) as real / (upper - lower) as real
  }

  function Scaled(f: real, d: real): real { f * d }

  function Blend(a: real, b: real, f: real): real { a + Scaled(f, b - a) }

  function Interpolate(rows: seq<MetRow>, t: int, maxGap: int): Option<Values>
    requires WellFormed(rows)
  {
    var before, after := UpTo(rows, t), From(rows, t);
    if before == [] || after == [] then None
    else
      var lower, upper := Latest(before), Earliest(after);
      InRows(rows, t);
      if t - lower.time > maxGap || upper.time - t > maxGap then None
      else if lower.time == upper.time then
        Some(map i: nat | i < COLUMNS && lower.values[i].Some? :: lower.values[i].value)
      else
        var f := Fraction(lower.time, t, upper.time);
        Some(map i: nat | i < COLUMNS && lower.values[i].Some? && upper.values[i].Some? ::
          Blend(lower.values[i].value, upper.values[i].value, f))
  }

  lemma {:induction false} UpToFacts(rows: seq<MetRow>, t: int)
    ensures forall row :: row in UpTo(rows, t) <==> row in rows && row.time <= t
  {
    if rows != [] {
      UpToFacts(rows[1..], t);
    }
  }

  lemma {:induction false} FromFacts(rows: seq<MetRow>, t: int)
    ensures forall row :: row in From(rows, t) <==> row in rows && row.time >= t
  {
    if rows != [] {
      FromFacts(rows[1..], t);
    }
  }

  lemma {:induction false} LatestFacts(rows: seq<MetRow>)
    requires rows != []
    ensures Latest(rows) in rows && forall row :: row in rows ==> row.time <= Latest(rows).time
  {
    if |rows| > 1 {
      LatestFacts(rows[1..]);
    }
  }

  lemma {:induction false} EarliestFacts(rows: seq<MetRow>)
    requires rows != []
    ensures Earliest(rows) in rows && forall row :: row in rows ==> Earliest(rows).time <= row.time
  {
    if |rows| > 1 {
      EarliestFacts(rows[1..]);
    }
  }

  lemma {:induction false} InRows(rows: seq<MetRow>, t: int)
    ensures UpTo(rows, t) != [] ==> Latest(UpTo(rows, t)) in rows && Latest(UpTo(rows, t)).time <= t
    ensures From(rows, t) != [] ==> Earliest(From(rows, t)) in rows && t <= Earliest(From(rows, t)).time
  {
    UpToFacts(rows, t);
    FromFacts(rows, t);
    if UpTo(rows, t) != [] {
      LatestFacts(UpTo(rows, t));
    }
    if From(rows, t) != [] {
      EarliestFacts(From(rows, t));
    }
  }

  // ---------- The bracket ----------

  function FirstAt(rows: seq<MetRow>, t: int): MetRow
    requires exists row :: row in rows && row.time == t
  {
    if rows[0].time == t then rows[0] else FirstAt(rows[1..], t)
  }

  lemma {:induction false} LatestIsFirstAt(rows: seq<MetRow>, t: int)
    requires exists row :: row in rows && row.time == t
    ensures UpTo(rows, t) != [] && Latest(UpTo(rows, t)) == FirstAt(rows, t)
    ensures FirstAt(rows, t).time == t
  {
    UpToFacts(rows[1..], t);
    var up := UpTo(rows[1..], t);
    if rows[0].time == t {
      if up != [] { LatestFacts(up); }
      assert ([rows[0]] + up)[1..] == up;
    } else {
      LatestIsFirstAt(rows[1..], t);
      if rows[0].time < t {
        assert ([rows[0]] + up)[1..] == up;
      } else {
        assert UpTo(rows, t) == up;
      }
    }
  }

  lemma {:induction false} EarliestIsFirstAt(rows: seq<MetRow>, t: int)
    requires exists row :: row in rows && row.time == t
    ensures From(rows, t) != [] && Earliest(From(rows, t)) == FirstAt(rows, t)
  {
    FromFacts(rows[1..], t);
    var from := From(rows[1..], t);
    if rows[0].time == t {
      if from != [] { EarliestFacts(from); }
      assert ([rows[0]] + from)[1..] == from;
    } else {
      EarliestIsFirstAt(rows[1..], t);
      LatestIsFirstAt(rows[1..], t);
      if rows[0].time > t {
        assert ([rows[0]] + from)[1..] == from;
      } else {
        assert From(rows, t) == from;
      }
    }
  }

  // Rows sharing the instant: both selections settle on the first of them.
  lemma {:induction false} SameInstant(rows: seq<MetRow>, t: int)
    requires exists row :: row in rows && row.time == t
    ensures UpTo(rows, t) != [] && From(rows, t) != []
    ensures Latest(UpTo(rows, t)) == Earliest(From(rows, t))
    ensures Latest(UpTo(rows, t)).time == t
  {
    LatestIsFirstAt(rows, t);
    EarliestIsFirstAt(rows, t);
  }

  predicate HasWinds(values: Values) { 0 in values && 1 in values && 2 in values && 3 in values }

  ghost predicate CarriesWinds(row: MetRow)
  {
    |row.values| == 7 && forall i :: 0 <= i < 4 ==> row.values[i].Some?
  }

  /** Complete interpolated winds mean both bracketing rows carry all four winds, also
      when several rows share the instant. */
  lemma {:induction false} CompleteWindsHaveCompleteBracket(rows: seq<MetRow>, t: int, maxGap: int)
    requires WellFormed(rows)
    requires Interpolate(rows, t, maxGap).Some? && forall i: nat :: i < 4 ==> i in Interpolate(rows, t, maxGap).value
    ensures UpTo(rows, t) != [] && CarriesWinds(Latest(UpTo(rows, t)))
    ensures From(rows, t) != [] && CarriesWinds(Earliest(From(rows, t)))
  {
    InRows(rows, t);
    var lower, upper := Latest(UpTo(rows, t)), Earliest(From(rows, t));
    assert 0 in Interpolate(rows, t, maxGap).value && 1 in Interpolate(rows, t, maxGap).value;
    assert 2 in Interpolate(rows, t, maxGap).value && 3 in Interpolate(rows, t, maxGap).value;
    if lower.time == upper.time {
      SameInstant(rows, t);
    }
  }

  /** An interpolated value lies between the two bracketing values. */
  lemma {:induction false} InterpolationIsBetween(rows: seq<MetRow>, t: int, maxGap: int, i: nat)
    requires WellFormed(rows)
    requires Interpolate(rows, t, maxGap).Some? && i in Interpolate(rows, t, maxGap).value
    ensures i < COLUMNS
    ensures UpTo(rows, t) != [] && From(rows, t) != []
    ensures var lower, upper, v := Latest(UpTo(rows, t)), Earliest(From(rows, t)), Interpolate(rows, t, maxGap).value[i];
      && lower.time <= t <= upper.time && t - lower.time <= maxGap && upper.time - t <= maxGap
      && |lower.values| == |upper.values| == COLUMNS
      && lower.values[i].Some? && upper.values[i].Some?
      && Between(lower.values[i].value, v, upper.values[i].value)
  {
    InRows(rows, t);
    var lower, upper := Latest(UpTo(rows, t)), Earliest(From(rows, t));
    if lower.time == upper.time {
      SameInstant(rows, t);
    } else {
      FractionBounds(lower.time, t, upper.time);
      BlendBetween(lower.values[i].value, upper.values[i].value, Fraction(lower.time, t, upper.time));
    }
  }

  // ---------- What is interpolated ----------

  /** The first of the rows with the greatest time at or before t. */
  ghost predicate IsLower(rows: seq<MetRow>, t: int, k: nat)
  {
    && k < |rows| && rows[k].time <= t
    && (forall j :: 0 <= j < |rows| && rows[j].time <= t ==> rows[j].time <= rows[k].time)
    && forall j :: 0 <= j < k ==> rows[j].time != rows[k].time
  }

  /** The first of the rows with the least time at or after t. */
  ghost predicate IsUpper(rows: seq<MetRow>, t: int, k: nat)
  {
    && k < |rows| && t <= rows[k].time
    && (forall j :: 0 <= j < |rows| && t <= rows[j].time ==> rows[k].time <= rows[j].time)
    && forall j :: 0 <= j < k ==> rows[j].time != rows[k].time
  }

  ghost predicate IsBracket(rows: seq<MetRow>, t: int, maxGap: int, lower: nat, upper: nat)
  {
    && IsLower(rows, t, lower) && IsUpper(rows, t, upper)
    && t - rows[lower].time <= maxGap && rows[upper].time - t <= maxGap
  }

  // (t, v) lies on the line through (t0, a) and (t1, b), which is a point when t0 == t1.
  ghost predicate OnLine(v: real, t: int, t0: int, a: real, t1: int, b: real)
  {
    if t0 == t1 then v == a == b
    else (v - a) * (t1 - t0) as real == (b - a) * (t - t0) as real
  }

  /** All the quantities that both rows of the bracket carry, each on the line between the two. */
  ghost predicate AreInterpolated(values: Values, lower: MetRow, upper: MetRow, t: int)
    requires |lower.values| == |upper.values| == COLUMNS
  {
    forall i: nat ::
      && (i in values <==> i < 7 && lower.values[i].Some? && upper.values[i].Some?)
      && (i in values ==> OnLine(values[i], t, lower.time, lower.values[i].value, upper.time, upper.values[i].value))
  }

  lemma LowerLater(rows: seq<MetRow>, t: int, h: nat)
    requires rows != [] && IsLower(rows[1..], t, h)
    requires rows[0].time > t || rows[0].time < rows[1..][h].time
    ensures IsLower(rows, t, h + 1)
  {
    var rest := rows[1..];
    forall j | 0 <= j < |rows| && rows[j].time <= t ensures rows[j].time <= rows[h + 1].time {
      assert j > 0 ==> rows[j] == rest[j - 1];
    }
    forall j | 0 <= j < h + 1 ensures rows[j].time != rows[h + 1].time {
      assert j > 0 ==> rows[j] == rest[j - 1];
    }
  }

  lemma UpperLater(rows: seq<MetRow>, t: int, h: nat)
    requires rows != [] && IsUpper(rows[1..], t, h)
    requires rows[0].time < t || rows[0].time > rows[1..][h].time
    ensures IsUpper(rows, t, h + 1)
  {
    var rest := rows[1..];
    forall j | 0 <= j < |rows| && t <= rows[j].time ensures rows[h + 1].time <= rows[j].time {
      assert j > 0 ==> rows[j] == rest[j - 1];
    }
    forall j | 0 <= j < h + 1 ensures rows[j].time != rows[h + 1].time {
      assert j > 0 ==> rows[j] == rest[j - 1];
    }
  }

  lemma {:induction false} LowerFound(rows: seq<MetRow>, t: int) returns (k: nat)
    requires UpTo(rows, t) != []
    ensures IsLower(rows, t, k) && Latest(UpTo(rows, t)) == rows[k]
  {
    var rest := UpTo(rows[1..], t);
    UpToFacts(rows, t);
    if rows[0].time <= t {
      assert UpTo(rows, t) == [rows[0]] + rest && UpTo(rows, t)[1..] == rest;
      LatestFacts(UpTo(rows, t));
    }
    if rows[0].time <= t && (rest == [] || rows[0].time >= Latest(rest).time) {
      k := 0;
      forall j | 0 <= j < |rows| && rows[j].time <= t ensures rows[j].time <= rows[0].time {
        assert rows[j] in UpTo(rows, t);
      }
    } else {
      assert rows[0].time > t ==> UpTo(rows, t) == rest;
      var h := LowerFound(rows[1..], t);
      LowerLater(rows, t, h);
      k := h + 1;
    }
  }

  lemma {:induction false} UpperFound(rows: seq<MetRow>, t: int) returns (k: nat)
    requires From(rows, t) != []
    ensures IsUpper(rows, t, k) && Earliest(From(rows, t)) == rows[k]
  {
    var rest := From(rows[1..], t);
    FromFacts(rows, t);
    if rows[0].time >= t {
      assert From(rows, t) == [rows[0]] + rest && From(rows, t)[1..] == rest;
      EarliestFacts(From(rows, t));
    }
    if rows[0].time >= t && (rest == [] || rows[0].time <= Earliest(rest).time) {
      k := 0;
      forall j | 0 <= j < |rows| && t <= rows[j].time ensures rows[0].time <= rows[j].time {
        assert rows[j] in From(rows, t);
      }
    } else {
      assert rows[0].time < t ==> From(rows, t) == rest;
      var h := UpperFound(rows[1..], t);
      UpperLater(rows, t, h);
      k := h + 1;
    }
  }

  /** Interpolation succeeds exactly when the instant is bracketed within the gap, and
      then gives every quantity both rows carry on the line between them. */
  lemma InterpolatesExactly(rows: seq<MetRow>, t: int, maxGap: int)
    requires WellFormed(rows)
    ensures Interpolate(rows, t, maxGap).Some? <==> exists lower: nat, upper: nat :: IsBracket(rows, t, maxGap, lower, upper)
    ensures forall lower: nat, upper: nat :: IsBracket(rows, t, maxGap, lower, upper) ==>
      && rows[lower] in rows && rows[upper] in rows
      && Interpolate(rows, t, maxGap).Some?
      && AreInterpolated(Interpolate(rows, t, maxGap).value, rows[lower], rows[upper], t)
  {
    UpToFacts(rows, t);
    FromFacts(rows, t);
    if UpTo(rows, t) != [] && From(rows, t) != [] {
      InRows(rows, t);
      var l := LowerFound(rows, t);
      var u := UpperFound(rows, t);
      assert Interpolate(rows, t, maxGap).Some? <==> IsBracket(rows, t, maxGap, l, u);
      if Interpolate(rows, t, maxGap).Some? {
        BracketInterpolates(rows, t, maxGap, rows[l], rows[u]);
      }
      forall lower: nat, upper: nat | IsBracket(rows, t, maxGap, lower, upper)
        ensures lower == l && upper == u
      {
      }
    } else {
      forall lower: nat, upper: nat ensures !IsBracket(rows, t, maxGap, lower, upper) {
        assert lower < |rows| && upper < |rows| ==> rows[lower] in rows && rows[upper] in rows;
      }
    }
  }

  lemma {:induction false} BracketInterpolates(rows: seq<MetRow>, t: int, maxGap: int, lower: MetRow, upper: MetRow)
    requires WellFormed(rows) && lower in rows && upper in rows
    requires UpTo(rows, t) != [] && lower == Latest(UpTo(rows, t))
    requires From(rows, t) != [] && upper == Earliest(From(rows, t))
    requires Interpolate(rows, t, maxGap).Some?
    ensures AreInterpolated(Interpolate(rows, t, maxGap).value, lower, upper, t)
  {
    InRows(rows, t);
    if lower.time == upper.time {
      SameInstant(rows, t);
    } else {
      forall i: nat | i in Interpolate(rows, t, maxGap).value
        ensures OnLine(Interpolate(rows, t, maxGap).value[i], t, lower.time, lower.values[i].value, upper.time, upper.values[i].value)
      {
        BlendOnLine(lower.values[i].value, upper.values[i].value, lower.time, t, upper.time);
      }
    }
  }

  lemma BlendOnLine(a: real, b: real, lower: int, t: int, upper: int)
    requires lower != upper
    ensures OnLine(Blend(a, b, Fraction(lower, t, upper)), t, lower, a, upper, b)
  {
    var n, d, f, rise := (t - lower) as real, (upper - lower) as real, Fraction(lower, t, upper), b - a;
    assert f * d == n;
    assert Blend(a, b, f) - a == Scaled(f, rise);
    Commutes(f, rise, d);
  }

  lemma Commutes(f: real, rise: real, d: real)
    ensures Scaled(f, rise) * d == rise * (f * d)
  {
  }

  predicate Between(a: real, v: real, b: real) { (a <= v <= b) || (b <= v <= a) }

  lemma FractionBounds(lower: int, t: int, upper: int)
    requires lower <= t <= upper && lower != upper
    ensures 0.0 <= Fraction(lower, t, upper) <= 1.0
  {
    var n, d := (t - lower) as real, (upper - lower) as real;
    var q := n / d;
    assert q * d == n;
    assert q < 0.0 ==> q * d < 0.0;
    assert q > 1.0 ==> (q - 1.0) * d > 0.0;
  }

  lemma ProductSign(f: real, d: real)
    requires 0.0 <= f
    ensures 0.0 <= d ==> 0.0 <= f * d
    ensures d <= 0.0 ==> f * d <= 0.0
  {
  }

  lemma ScaleUp(f: real, d: real)
    requires 0.0 <= f <= 1.0 && 0.0 <= d
    ensures 0.0 <= Scaled(f, d) <= d
  {
    ProductSign(f, d);
    ProductSign(1.0 - f, d);
    assert (1.0 - f) * d == d - f * d;
  }

  lemma ScaleDown(f: real, d: real)
    requires 0.0 <= f <= 1.0 && d <= 0.0
    ensures d <= Scaled(f, d) <= 0.0
  {
    ProductSign(f, d);
    ProductSign(1.0 - f, d);
    assert (1.0 - f) * d == d - f * d;
  }

  lemma BlendBetween(a: real, b: real, f: real)
    requires 0.0 <= f <= 1.0
    ensures Between(a, Blend(a, b, f), b)
  {
    if a <= b {
      ScaleUp(f, b - a);
    } else {
      ScaleDown(f, b - a);
    }
  }

  // ---------- Components ----------

  datatype Detection = Detection(plumePixels: seq<string>, ready: bool)

  datatype Wind = Wind(u: real, v: real)

  /** The head of plume detection: without ready pixels, or without a finite non-zero
      wind, it reports one empty detection. NoWind stands for the not-a-number wind
      passed when the bracket is incomplete; the rest of detection is a parameter. */
  function DetectPlumes(readyPixels: seq<string>, wind: Option<Wind>, rest: (seq<string>, Wind) -> seq<Detection>): seq<Detection>
  {
    if readyPixels == [] || wind.None? || (wind.value.u == 0.0 && wind.value.v == 0.0)
    then [Detection([], false)]
    else rest(readyPixels, wind.value)
  }

  datatype Component = Component(time: int, winds: Values, pixels: seq<string>)

  function SceneWind(rows: seq<MetRow>, t: int, maxGap: int): Option<Wind>
    requires WellFormed(rows)
  {
    var m := Interpolate(rows, t, maxGap);
    if m.None? || !HasWinds(m.value) then None else Some(Wind(m.value[2], m.value[3]))
  }

  // The pixels of the detections that have any, in order.
  ghost function PlumesIn(detections: seq<Detection>): seq<seq<string>>
  {
    if detections == [] then []
    else
      var last := detections[|detections| - 1].plumePixels;
      PlumesIn(detections[..|detections| - 1]) + if last != [] then [last] else []
  }

  ghost predicate AreOf(components: seq<Component>, plumes: seq<seq<string>>, t: int, m: Option<Values>)
  {
    && |components| == |plumes|
    && forall k :: 0 <= k < |plumes| ==>
         components[k].pixels == plumes[k] && components[k].time == t && m == Some(components[k].winds)
  }

  // The loop over one scene's detections, given the interpolated values.
  method CollectComponents(t: int, m: Option<Values>, detections: seq<Detection>) returns (r: Result<seq<Component>, string>)
    requires m.None? || !HasWinds(m.value) ==> forall d :: d in detections ==> d.plumePixels == []
    ensures r.Ok? && AreOf(r.value, PlumesIn(detections), t, m)
  {
    var components: seq<Component> := [];
    for i := 0 to |detections|
      invariant AreOf(components, PlumesIn(detections[..i]), t, m)
    {
      TakeSnoc(detections, i);
      assert detections[..i + 1][..i] == detections[..i];
      if detections[i].plumePixels != [] {
        if m.Some? && !HasWinds(m.value) {
          return Err("missing wind");
        }
        components := components + [Component(t, m.value, detections[i].plumePixels)];
      }
    }
    assert detections[..|detections|] == detections;
    r := Ok(components);
  }

  // There are pixels to look at and a complete, not entirely calm wind to look along.
  ghost predicate IsUsable(readyPixels: seq<string>, m: Option<Values>)
  {
    readyPixels != [] && m.Some? && (forall i: nat :: i < 4 ==> i in m.value) && (m.value[2] != 0.0 || m.value[3] != 0.0)
  }

  /** The components one scene contributes for one facility: those the detection finds along
      the wind at 80 m, or none when the scene is not usable. Reading the four winds is an
      error unless all are present, which the collecting loop makes explicit. */
  method SceneComponents(rows: seq<MetRow>, t: int, maxGap: int, readyPixels: seq<string>,
                         rest: (seq<string>, Wind) -> seq<Detection>)
    returns (r: Result<seq<Component>, string>)
    requires WellFormed(rows)
    ensures r.Ok? && forall c :: c in r.value ==> c.time == t && Bracketed(rows, maxGap, c)
    ensures var m := Interpolate(rows, t, maxGap);
      if IsUsable(readyPixels, m) then AreOf(r.value, PlumesIn(rest(readyPixels, Wind(m.value[2], m.value[3]))), t, m)
      else r.value == []
  {
    ghost var m := Interpolate(rows, t, maxGap);
    assert [Detection([], false)][..0] == [] && PlumesIn([Detection([], false)]) == [];
    assert m.Some? ==> (HasWinds(m.value) <==> forall i: nat :: i < 4 ==> i in m.value) by {
      if m.Some? {
        WindsAreFour(m.value);
      }
    }
    r := CollectComponents(t, Interpolate(rows, t, maxGap), DetectPlumes(readyPixels, SceneWind(rows, t, maxGap), rest));
  }

  lemma WindsAreFour(values: Values)
    ensures HasWinds(values) <==> forall i: nat :: i < 4 ==> i in values
  {
    if HasWinds(values) {
      forall i: nat | i < 4 ensures i in values {
        assert i == 0 || i == 1 || i == 2 || i == 3;
      }
    }
  }

  ghost predicate Bracketed(rows: seq<MetRow>, maxGap: int, c: Component)
    requires WellFormed(rows)
  {
    Interpolate(rows, c.time, maxGap) == Some(c.winds) && forall i: nat :: i < 4 ==> i in c.winds
  }

  // ---------- Wind sensitivity ----------

  datatype Variants = Variants(mean10: real, mean80: real, previous10: real, previous80: real, next10: real, next80: real)

  function StartOf(track: seq<Component>): int
    requires track != []
  {
    if |track| == 1 then track[0].time
    else
      var rest := StartOf(track[1..]);
      if track[0].time < rest then track[0].time else rest
  }

  function EndOf(track: seq<Component>): int
    requires track != []
  {
    if |track| == 1 then track[0].time
    else
      var rest := EndOf(track[1..]);
      if track[0].time > rest then track[0].time else rest
  }

  function SpeedAt(hypot: (real, real) -> real, u: nat, v: nat): Component -> real
  {
    (c: Component) => if u in c.winds && v in c.winds then hypot(c.winds[u], c.winds[v]) else 0.0
  }

  function RowSpeed(hypot: (real, real) -> real, row: MetRow, u: nat, v: nat): Option<real>
  {
    if u < |row.values| && v < |row.values| && row.values[u].Some? && row.values[v].Some?
    then Some(hypot(row.values[u].value, row.values[v].value)) else None
  }

  /** None where the source would raise: an empty minimum or maximum, a division by an
      empty track, or the conversion of a missing wind to a number. */
  function WindVariants(rows: seq<MetRow>, track: seq<Component>, hypot: (real, real) -> real): Option<Variants>
  {
    if track == [] then None
    else
      var lower, upper := UpTo(rows, StartOf(track)), From(rows, EndOf(track));
      if lower == [] || upper == [] then None
      else
        var previous, next := Latest(lower), Earliest(upper);
        var p10, p80 := RowSpeed(hypot, previous, 0, 1), RowSpeed(hypot, previous, 2, 3);
        var n10, n80 := RowSpeed(hypot, next, 0, 1), RowSpeed(hypot, next, 2, 3);
        if p10.None? || p80.None? || n10.None? || n80.None? then None
        else
          Some(Variants(
            Sum(track, SpeedAt(hypot, 0, 1)) / |track| as real,
            Sum(track, SpeedAt(hypot, 2, 3)) / |track| as real,
            p10.value, p80.value, n10.value, n80.value))
  }

  lemma {:induction false} EndpointsAreMembers(track: seq<Component>)
    requires track != []
    ensures exists c :: c in track && c.time == StartOf(track)
    ensures exists c :: c in track && c.time == EndOf(track)
    ensures forall c :: c in track ==> StartOf(track) <= c.time <= EndOf(track)
  {
    if |track| == 1 {
      assert track[0] in track;
    } else {
      EndpointsAreMembers(track[1..]);
      var a :| a in track[1..] && a.time == StartOf(track[1..]);
      var b :| b in track[1..] && b.time == EndOf(track[1..]);
      assert a in track && b in track && track[0] in track;
    }
  }

  // The sum of the wind speeds along a track, from the wind's two components.
  ghost function TotalSpeed(track: seq<Component>, hypot: (real, real) -> real, u: nat, v: nat): real
    requires forall c :: c in track ==> u in c.winds && v in c.winds
  {
    if track == [] then 0.0 else hypot(track[0].winds[u], track[0].winds[v]) + TotalSpeed(track[1..], hypot, u, v)
  }

  lemma {:induction false} SpeedsSum(track: seq<Component>, hypot: (real, real) -> real, u: nat, v: nat)
    requires forall c :: c in track ==> u in c.winds && v in c.winds
    ensures Sum(track, SpeedAt(hypot, u, v)) == TotalSpeed(track, hypot, u, v)
  {
    if track != [] {
      SpeedsSum(track[1..], hypot, u, v);
    }
  }

  ghost predicate IsMean(mean: real, total: real, count: nat) { mean * count as real == total }

  lemma QuotientIsMean(total: real, count: nat)
    requires count > 0
    ensures IsMean(total / count as real, total, count)
  {
  }

  ghost predicate SpeedsOf(speed10: real, speed80: real, row: MetRow, hypot: (real, real) -> real)
  {
    && CarriesWinds(row)
    && speed10 == hypot(row.values[0].value, row.values[1].value)
    && speed80 == hypot(row.values[2].value, row.values[3].value)
  }

  // The rows the variants read are those that bracketed the end components.
  lemma EndRows(rows: seq<MetRow>, maxGap: int, track: seq<Component>)
    returns (first: Component, last: Component, previous: nat, next: nat)
    requires WellFormed(rows) && track != []
    requires forall c :: c in track ==> Bracketed(rows, maxGap, c)
    ensures first in track && last in track && forall c :: c in track ==> first.time <= c.time <= last.time
    ensures first.time == StartOf(track) && last.time == EndOf(track)
    ensures IsLower(rows, first.time, previous) && first.time - rows[previous].time <= maxGap
    ensures IsUpper(rows, last.time, next) && rows[next].time - last.time <= maxGap
    ensures UpTo(rows, first.time) != [] && Latest(UpTo(rows, first.time)) == rows[previous] && CarriesWinds(rows[previous])
    ensures From(rows, last.time) != [] && Earliest(From(rows, last.time)) == rows[next] && CarriesWinds(rows[next])
  {
    EndpointsAreMembers(track);
    first :| first in track && first.time == StartOf(track);
    last :| last in track && last.time == EndOf(track);
    CompleteWindsHaveCompleteBracket(rows, first.time, maxGap);
    CompleteWindsHaveCompleteBracket(rows, last.time, maxGap);
    previous := LowerFound(rows, first.time);
    next := UpperFound(rows, last.time);
    InRows(rows, first.time);
    InRows(rows, last.time);
  }

  lemma TrackHasWinds(rows: seq<MetRow>, maxGap: int, track: seq<Component>)
    requires WellFormed(rows)
    requires forall c :: c in track ==> Bracketed(rows, maxGap, c)
    ensures forall c :: c in track ==> 0 in c.winds && 1 in c.winds && 2 in c.winds && 3 in c.winds
  {
    forall c | c in track ensures 0 in c.winds && 1 in c.winds && 2 in c.winds && 3 in c.winds {
      WindsAreFour(c.winds);
    }
  }

  lemma RowSpeedIs(hypot: (real, real) -> real, row: MetRow)
    requires CarriesWinds(row)
    ensures RowSpeed(hypot, row, 0, 1).Some? && RowSpeed(hypot, row, 2, 3).Some?
    ensures SpeedsOf(RowSpeed(hypot, row, 0, 1).value, RowSpeed(hypot, row, 2, 3).value, row, hypot)
  {
  }

  ghost predicate MeansOf(v: Variants, track: seq<Component>, hypot: (real, real) -> real)
    requires forall c :: c in track ==> 0 in c.winds && 1 in c.winds && 2 in c.winds && 3 in c.winds
  {
    IsMean(v.mean10, TotalSpeed(track, hypot, 0, 1), |track|) && IsMean(v.mean80, TotalSpeed(track, hypot, 2, 3), |track|)
  }

  /** The sensitivity variants are total on every track whose components the pipeline
      built: the rows they read are the very rows that bracketed the end components. The
      figures are the mean speeds of the track and the speeds of those two rows. */
  lemma WindVariantsTotal(rows: seq<MetRow>, maxGap: int, track: seq<Component>, hypot: (real, real) -> real)
    returns (first: Component, last: Component, previous: nat, next: nat)
    requires WellFormed(rows) && track != []
    requires forall c :: c in track ==> Bracketed(rows, maxGap, c)
    ensures first in track && last in track && forall c :: c in track ==> first.time <= c.time <= last.time
    ensures IsLower(rows, first.time, previous) && first.time - rows[previous].time <= maxGap
    ensures IsUpper(rows, last.time, next) && rows[next].time - last.time <= maxGap
    ensures forall c :: c in track ==> 0 in c.winds && 1 in c.winds && 2 in c.winds && 3 in c.winds
    ensures WindVariants(rows, track, hypot).Some?
    ensures var v := WindVariants(rows, track, hypot).value;
      && MeansOf(v, track, hypot)
      && SpeedsOf(v.previous10, v.previous80, rows[previous], hypot)
      && SpeedsOf(v.next10, v.next80, rows[next], hypot)
  {
    first, last, previous, next := EndRows(rows, maxGap, track);
    TrackHasWinds(rows, maxGap, track);
    RowSpeedIs(hypot, rows[previous]);
    RowSpeedIs(hypot, rows[next]);
    SpeedsSum(track, hypot, 0, 1);
    SpeedsSum(track, hypot, 2, 3);
    QuotientIsMean(TotalSpeed(track, hypot, 0, 1), |track|);
    QuotientIsMean(TotalSpeed(track, hypot, 2, 3), |track|);
  }
}
