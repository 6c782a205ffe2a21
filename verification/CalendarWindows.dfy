/** Calendar planners: month windows (plumegraph/sources.py), year windows
    (riverpulse/hydrocron.py) and the ERA5 request grid (reproductions/readiness.py).
    Instants are UTC, in the proleptic Gregorian years 1 to 9999. */
module CalendarWindows {
  import opened Prelude

  datatype Instant = Instant(year: int, month: int, day: int, micros: int)

  datatype Unit = Month | Year

  datatype WindowError = NotOrdered | YearOutOfRange

  type Window = (Instant, Instant)

  // Every fourth year, but of the hundredths only every fourth.
  ghost predicate HasLeapDay(year: int)
  {
    if year % 100 == 0 then year % 4 == 0 && year % 400 == 0 else year % 4 == 0
  }

  predicate IsLeap(year: int)
    ensures IsLeap(year) <==> HasLeapDay(year)
  {
    year % 4 == 0 && (year % 100 != 0 || year % 400 == 0)
  }

  const COMMON_YEAR := [31, 28, 31, 30, 31, 30, 31, 31, 30, 31, 30, 31]

  function DaysIn(year: int, month: int): (days: int)
    ensures 1 <= month <= 12 ==> days == COMMON_YEAR[month - 1] + if month == 2 && HasLeapDay(year) then 1 else 0
  {
    if month == 2 then (if IsLeap(year) then 29 else 28)
    else if month in {4, 6, 9, 11} then 30
    else 31
  }

  // The days of the calendar's years 1 to 9999, to the microsecond.
  predicate Valid(t: Instant)
    ensures Valid(t) <==>
      && 1 <= t.month <= 12 && 0 < t.year < 10_000
      && 0 < t.day <= COMMON_YEAR[t.month - 1] + (if t.month == 2 && HasLeapDay(t.year) then 1 else 0)
      && 0 <= t.micros < 24 * 3600 * 1_000_000
  {
    1 <= t.year <= 9999 && 1 <= t.month <= 12 && 1 <= t.day <= DaysIn(t.year, t.month) && 0 <= t.micros < 86_400_000_000
  }

  predicate Before(a: Instant, b: Instant)
  {
    a.year < b.year || (a.year == b.year && (a.month < b.month || (a.month == b.month &&
      (a.day < b.day || (a.day == b.day && a.micros < b.micros)))))
  }

  predicate AtMost(a: Instant, b: Instant) { a == b || Before(a, b) }

  function Min(a: Instant, b: Instant): Instant { if Before(b, a) then b else a }

  function Max(a: Instant, b: Instant): Instant { if Before(a, b) then b else a }

  // ---------- Periods ----------

  function StartOf(unit: Unit, t: Instant): Instant
  {
    match unit
    case Month => Instant(t.year, t.month, 1, 0)
    case Year => Instant(t.year, 1, 1, 0)
  }

  // The first instant of the next period.
  function Boundary(unit: Unit, t: Instant): Instant
  {
    match unit
    case Month => if t.month == 12 then Instant(t.year + 1, 1, 1, 0) else Instant(t.year, t.month + 1, 1, 0)
    case Year => Instant(t.year + 1, 1, 1, 0)
  }

  function Index(unit: Unit, t: Instant): int
  {
    match unit
    case Month => 12 * t.year + t.month
    case Year => t.year
  }

  // The last period whose boundary the calendar cannot express.
  function LastStart(unit: Unit): Instant
  {
    match unit
    case Month => Instant(9999, 12, 1, 0)
    case Year => Instant(9999, 1, 1, 0)
  }

  predicate InCalendar(t: Instant) { 1 <= t.month <= 12 && t.day >= 1 && t.micros >= 0 }

  lemma BoundaryIsNext(unit: Unit, t: Instant)
    requires InCalendar(t)
    ensures InCalendar(Boundary(unit, t)) && Before(t, Boundary(unit, t))
    ensures StartOf(unit, Boundary(unit, t)) == Boundary(unit, t)
    ensures Index(unit, Boundary(unit, t)) == Index(unit, t) + 1
  {
  }

  lemma IndexFollowsOrder(unit: Unit, a: Instant, b: Instant)
    requires InCalendar(a) && InCalendar(b) && AtMost(a, b)
    ensures Index(unit, a) <= Index(unit, b)
  {
  }

  // ---------- What the planners mean ----------

  /** The periods of [start, end), each cut to it. */
  function Windows(unit: Unit, start: Instant, end: Instant): seq<Window>
    requires InCalendar(start) && InCalendar(end)
    decreases if Before(start, end) then Index(unit, end) - Index(unit, start) + 1 else 0
  {
    if !Before(start, end) then []
    else
      var next := Min(Boundary(unit, start), end);
      BoundaryIsNext(unit, start);
      IndexFollowsOrder(unit, start, end);
      IndexFollowsOrder(unit, next, end);
      [(start, next)] + Windows(unit, next, end)
  }

  // Non-empty windows that cover [start, end) end to end.
  ghost predicate Tiles(windows: seq<Window>, start: Instant, end: Instant)
  {
    if windows == [] then start == end
    else windows[0].0 == start && Before(windows[0].0, windows[0].1) && Tiles(windows[1..], windows[0].1, end)
  }

  // A window that crosses no boundary of its unit.
  predicate StaysIn(unit: Unit, w: Window)
  {
    Before(w.0, w.1) && AtMost(w.1, Boundary(unit, w.0))
  }

  /** For an ordered range the windows tile it, none crosses a period boundary, and every
      interior cut is a period boundary. */
  lemma {:induction false} WindowsTile(unit: Unit, start: Instant, end: Instant)
    requires InCalendar(start) && InCalendar(end) && AtMost(start, end)
    ensures Tiles(Windows(unit, start, end), start, end)
    ensures forall w :: w in Windows(unit, start, end) ==>
      StaysIn(unit, w) && (w.1 == end || w.1 == Boundary(unit, w.0)) && (w.0 == start || StartOf(unit, w.0) == w.0)
    decreases if Before(start, end) then Index(unit, end) - Index(unit, start) + 1 else 0
  {
    if Before(start, end) {
      var next := Min(Boundary(unit, start), end);
      BoundaryIsNext(unit, start);
      IndexFollowsOrder(unit, start, end);
      IndexFollowsOrder(unit, next, end);
      WindowsTile(unit, next, end);
    }
  }

  /** Those three facts leave no choice: any list of windows with them is the planner's. */
  lemma {:induction false} TilingIsUnique(unit: Unit, windows: seq<Window>, start: Instant, end: Instant)
    requires InCalendar(start) && InCalendar(end)
    requires Tiles(windows, start, end)
    requires forall w :: w in windows ==> InCalendar(w.1) && StaysIn(unit, w) && (w.1 == end || w.1 == Boundary(unit, w.0))
    ensures AtMost(start, end) && windows == Windows(unit, start, end)
    decreases |windows|
  {
    if windows != [] {
      var w := windows[0];
      assert w in windows;
      TilingIsUnique(unit, windows[1..], w.1, end);
      assert w.1 == Min(Boundary(unit, start), end);
      assert windows == [w] + windows[1..];
    }
  }

  lemma {:induction false} SplitAtPeriod(unit: Unit, start: Instant, middle: Instant, end: Instant)
    requires InCalendar(start) && InCalendar(middle) && InCalendar(end)
    requires AtMost(start, middle) && AtMost(middle, end) && StartOf(unit, middle) == middle
    ensures Windows(unit, start, end) == Windows(unit, start, middle) + Windows(unit, middle, end)
    decreases if Before(start, middle) then Index(unit, middle) - Index(unit, start) + 1 else 0
  {
    if Before(start, middle) {
      var next := Boundary(unit, start);
      BoundaryIsNext(unit, start);
      IndexFollowsOrder(unit, start, middle);
      assert AtMost(next, middle);
      SplitAtPeriod(unit, next, middle, end);
    }
  }

  function Months(): Window -> seq<Window>
  {
    (w: Window) => if InCalendar(w.0) && InCalendar(w.1) then Windows(Month, w.0, w.1) else []
  }

  /** Each year window is a run of month windows, and together they are all of them. */
  lemma {:induction false} YearsAreRunsOfMonths(start: Instant, end: Instant)
    requires InCalendar(start) && InCalendar(end) && AtMost(start, end)
    ensures Windows(Month, start, end) == FlatMap(Windows(Year, start, end), Months())
    decreases if Before(start, end) then Index(Year, end) - Index(Year, start) + 1 else 0
  {
    if Before(start, end) {
      var next := Min(Boundary(Year, start), end);
      BoundaryIsNext(Year, start);
      IndexFollowsOrder(Year, start, end);
      IndexFollowsOrder(Year, next, end);
      YearsAreRunsOfMonths(next, end);
      assert Windows(Year, start, end)[1..] == Windows(Year, next, end);
      if next == end {
        assert Windows(Year, next, end) == [];
      } else {
        SplitAtPeriod(Month, start, next, end);
      }
    }
  }

  // ---------- The planners ----------

  // Periods still to visit.
  function Distance(unit: Unit, cursor: Instant, end: Instant): nat
    requires InCalendar(cursor) && InCalendar(end)
  {
    if Before(cursor, end) then
      IndexFollowsOrder(unit, cursor, end);
      Index(unit, end) - Index(unit, cursor) + 1
    else 0
  }

  // The windows listed so far and the windows from the cursor on make up the goal.
  ghost predicate Covers(goal: seq<Window>, windows: seq<Window>, unit: Unit, cursor: Instant, end: Instant)
    requires InCalendar(cursor) && InCalendar(end)
  {
    goal == windows + Windows(unit, cursor, end)
  }

  lemma CoversStep(goal: seq<Window>, windows: seq<Window>, unit: Unit, cursor: Instant, end: Instant)
    requires InCalendar(cursor) && InCalendar(end) && Before(cursor, end) && Covers(goal, windows, unit, cursor, end)
    ensures var next := Min(Boundary(unit, cursor), end);
      && InCalendar(next) && AtMost(next, end)
      && Covers(goal, windows + [(cursor, next)], unit, next, end)
      && Distance(unit, next, end) < Distance(unit, cursor, end)
  {
    BoundaryIsNext(unit, cursor);
    var next := Min(Boundary(unit, cursor), end);
    IndexFollowsOrder(unit, next, end);
    assert windows + ([(cursor, next)] + Windows(unit, next, end)) == (windows + [(cursor, next)]) + Windows(unit, next, end);
  }

  method MonthWindows(start: Instant, end: Instant) returns (r: Result<seq<Window>, WindowError>)
    requires Valid(start) && Valid(end)
    ensures r == Err(NotOrdered) <==> !Before(start, end)
    ensures r == Err(YearOutOfRange) <==> Before(start, end) && Before(LastStart(Month), end)
    ensures r.Ok? ==> r.value == Windows(Month, start, end)
  {
    if !Before(start, end) {
      return Err(NotOrdered);
    }
    var cursor, windows: seq<Window> := start, [];
    ghost var goal := Windows(Month, start, end);
    while Before(cursor, end)
      invariant InCalendar(cursor) && cursor.year <= 9999 && AtMost(cursor, end)
      invariant cursor == start || !Before(LastStart(Month), cursor)
      invariant Covers(goal, windows, Month, cursor, end)
      decreases Distance(Month, cursor, end)
    {
      if cursor.month == 12 && cursor.year + 1 > 9999 {
        return Err(YearOutOfRange);
      }
      var boundary := if cursor.month == 12 then Instant(cursor.year + 1, 1, 1, 0) else Instant(cursor.year, cursor.month + 1, 1, 0);
      assert boundary == Boundary(Month, cursor);
      CoversStep(goal, windows, Month, cursor, end);
      var next := Min(boundary, end);
      windows, cursor := windows + [(cursor, next)], next;
    }
    r := Ok(windows);
  }

  method CalendarYearWindows(start: Instant, end: Instant) returns (r: Result<seq<Window>, WindowError>)
    requires Valid(start) && Valid(end)
    ensures r == Err(NotOrdered) <==> !Before(start, end)
    ensures r == Err(YearOutOfRange) <==> Before(start, end) && Before(LastStart(Year), end)
    ensures r.Ok? ==> r.value == Windows(Year, start, end)
  {
    if !Before(start, end) {
      return Err(NotOrdered);
    }
    var cursor, windows: seq<Window> := start, [];
    ghost var goal := Windows(Year, start, end);
    while Before(cursor, end)
      invariant InCalendar(cursor) && cursor.year <= 9999 && AtMost(cursor, end)
      invariant cursor == start || !Before(LastStart(Year), cursor)
      invariant Covers(goal, windows, Year, cursor, end)
      decreases Distance(Year, cursor, end)
    {
      if cursor.year + 1 > 9999 {
        return Err(YearOutOfRange);
      }
      var boundary := Instant(cursor.year + 1, 1, 1, 0);
      assert boundary == Boundary(Year, cursor);
      CoversStep(goal, windows, Year, cursor, end);
      var next := Min(boundary, end);
      windows, cursor := windows + [(cursor, next)], next;
    }
    r := Ok(windows);
  }

  // ---------- The ERA5 grid ----------

  datatype EraRequest = EraRequest(window: Window, facility: string)

  function PerFacility(facilities: seq<string>): Window -> seq<EraRequest>
  {
    (w: Window) => ForWindow(w, facilities)
  }

  function ForWindow(w: Window, facilities: seq<string>): (r: seq<EraRequest>)
    ensures |r| == |facilities|
  {
    seq(|facilities|, i requires 0 <= i < |facilities| => EraRequest(w, facilities[i]))
  }

  // The windows the month loop visits, in a range that need not be ordered.
  function EraWindows(start: Instant, end: Instant): seq<Window>
    requires InCalendar(start) && InCalendar(end)
  {
    if Before(start, end) then Windows(Month, start, end)
    else if Before(StartOf(Month, start), end) then [(start, end)]
    else []
  }

  method RequestsFor(w: Window, facilities: seq<string>) returns (r: seq<EraRequest>)
    ensures r == ForWindow(w, facilities)
  {
    r := [];
    for i := 0 to |facilities|
      invariant |r| == i && forall k :: 0 <= k < i ==> r[k] == EraRequest(w, facilities[k])
    {
      r := r + [EraRequest(w, facilities[i])];
    }
  }

  // What the loop still has to visit from the first instant of a month.
  function Rest(month: Instant, start: Instant, end: Instant): seq<Window>
    requires InCalendar(month) && InCalendar(start) && InCalendar(end)
  {
    if AtMost(month, start) then (if Before(month, end) then EraWindows(start, end) else []) else Windows(Month, month, end)
  }

  lemma RestStep(month: Instant, start: Instant, end: Instant)
    requires InCalendar(start) && InCalendar(end) && InCalendar(month)
    requires StartOf(Month, month) == month && Before(month, end)
    requires month == StartOf(Month, start) || Before(start, month)
    ensures var next := Boundary(Month, month);
      Rest(month, start, end) == [(Max(start, month), Min(end, next))] + Rest(next, start, end)
  {
    var next := Boundary(Month, month);
    BoundaryIsNext(Month, month);
    if month == StartOf(Month, start) {
      assert AtMost(month, start) && next == Boundary(Month, start);
      BoundaryIsNext(Month, start);
      assert !AtMost(next, start);
      if Before(start, end) {
        WindowsStep(Month, start, end);
      } else {
        assert Windows(Month, next, end) == [];
        assert Min(end, next) == end;
      }
    } else {
      WindowsStep(Month, month, end);
    }
  }

  lemma {:induction false} WindowsStep(unit: Unit, start: Instant, end: Instant)
    requires InCalendar(start) && InCalendar(end) && Before(start, end)
    ensures InCalendar(Boundary(unit, start))
    ensures Windows(unit, start, end) == [(start, Min(end, Boundary(unit, start)))] + Windows(unit, Boundary(unit, start), end)
  {
    BoundaryIsNext(unit, start);
  }

  // The windows of `goal` not yet in `done` are those the loop still visits.
  ghost predicate Remains(goal: seq<Window>, done: seq<Window>, month: Instant, start: Instant, end: Instant)
    requires InCalendar(month) && InCalendar(start) && InCalendar(end)
  {
    goal == done + Rest(month, start, end)
  }

  lemma RemainsStep(goal: seq<Window>, done: seq<Window>, month: Instant, start: Instant, end: Instant)
    requires InCalendar(start) && InCalendar(end) && InCalendar(month)
    requires StartOf(Month, month) == month && Before(month, end)
    requires month == StartOf(Month, start) || Before(start, month)
    requires Remains(goal, done, month, start, end)
    ensures InCalendar(Boundary(Month, month))
    ensures Remains(goal, done + [(Max(start, month), Min(end, Boundary(Month, month)))], Boundary(Month, month), start, end)
  {
    RestStep(month, start, end);
  }

  /** Month by month, and facility by facility within the month. For an ordered range the
      visited windows are the month windows of the other planner. */
  method CanonicalEra5Requests(start: Instant, end: Instant, cohort: seq<string>)
    returns (r: Result<seq<EraRequest>, WindowError>)
    requires Valid(start) && Valid(end)
    ensures r.Err? <==> Before(LastStart(Month), end)
    ensures r.Ok? ==> r.value == FlatMap(EraWindows(start, end), PerFacility(SortBy(cohort, TextLeq)))
  {
    var facilities := SortBy(cohort, TextLeq);
    var month, result: seq<EraRequest> := Instant(start.year, start.month, 1, 0), [];
    ghost var done: seq<Window>, goal := [], EraWindows(start, end);
    while Before(month, end)
      invariant InCalendar(month) && month.year <= 9999 && StartOf(Month, month) == month
      invariant month == StartOf(Month, start) || Before(start, month)
      invariant Remains(goal, done, month, start, end)
      invariant result == FlatMap(done, PerFacility(facilities))
      decreases if Before(month, end) then Index(Month, end) - Index(Month, month) + 1 else 0
    {
      IndexFollowsOrder(Month, month, end);
      BoundaryIsNext(Month, month);
      if month.month == 12 && month.year + 1 > 9999 {
        return Err(YearOutOfRange);
      }
      var next := if month.month == 12 then Instant(month.year + 1, 1, 1, 0) else Instant(month.year, month.month + 1, 1, 0);
      assert next == Boundary(Month, month);
      var w := (Max(start, month), Min(end, next));
      RemainsStep(goal, done, month, start, end);
      var more := RequestsFor(w, facilities);
      FlatMapSnoc(done, w, PerFacility(facilities));
      MeasureDrops(month, next, end);
      result, done, month := result + more, done + [w], next;
    }
    NothingRemains(goal, done, month, start, end);
    r := Ok(result);
  }

  lemma MeasureDrops(month: Instant, next: Instant, end: Instant)
    requires InCalendar(month) && InCalendar(next) && InCalendar(end) && Index(Month, next) == Index(Month, month) + 1
    ensures Before(next, end) ==> Index(Month, next) <= Index(Month, end)
  {
  }

  lemma NothingRemains(goal: seq<Window>, done: seq<Window>, month: Instant, start: Instant, end: Instant)
    requires InCalendar(month) && InCalendar(start) && InCalendar(end) && !Before(month, end)
    requires Remains(goal, done, month, start, end)
    ensures goal == done
  {
  }

  /** The ERA5 planner, unlike the other two, does not reject a reversed range: it plans one
      reversed window per facility exactly when the range starts in the month it ends in
      and not at that month's first instant, and nothing for any other reversed range. */
  lemma ReversedRangeIsPlanned(start: Instant, end: Instant)
    requires InCalendar(start) && InCalendar(end) && !Before(start, end)
    ensures EraWindows(start, end) == [(start, end)]
       <==> (start.year == end.year && start.month == end.month && end != StartOf(Month, end))
    ensures EraWindows(start, end) != [(start, end)] ==> EraWindows(start, end) == []
  {
  }

  /** Each facility meets each visited window once. */
  lemma {:induction false} EraGridIsComplete(windows: seq<Window>, facilities: seq<string>)
    ensures |FlatMap(windows, PerFacility(facilities))| == GridSize(windows, facilities)
    ensures forall q :: q in FlatMap(windows, PerFacility(facilities)) <==> q.window in windows && q.facility in facilities
  {
    if windows != [] {
      EraGridIsComplete(windows[1..], facilities);
      var here := ForWindow(windows[0], facilities);
      forall q ensures q in here <==> q.window == windows[0] && q.facility in facilities {
        if q.facility in facilities && q.window == windows[0] {
          var k :| 0 <= k < |facilities| && facilities[k] == q.facility;
          assert here[k] == q;
        }
      }
    }
  }

  function GridSize(windows: seq<Window>, facilities: seq<string>): nat { |windows| * |facilities| }
}
