/** analytics.py: reading the rows of a time series, sorting them by date, and analysing the result. */
module Analytics {
  import opened Text
  import opened Ordering
  import opened Vectors
  import opened Calendar
  import opened Collecting
  import opened Statistics
  import opened AnomalyDetection
  import opened Forecasting

  /** One table cell; Missing stands for an absent column or a value of any other type. */
  datatype Cell = TimeText(text: string) | Number(value: real) | Missing

  datatype Row = Row(time: Cell, value: Cell)

  datatype Point = Point(timestamp: Date, shown: string, value: real)

  datatype Failure = BadTime(row: nat) | BadValue(row: nat) | BadDate(row: nat) | NoForecast(reason: ForecastError)

  /** ISO dates are read by the standard library; what it returns is a valid date. */
  type DateParser = string -> Option<Date>

  ghost predicate ParsesValidDates(parse: DateParser) {
    forall s :: parse(s).Some? ==> ValidDate(parse(s).value)
  }

  // ---- _normalize_points ----

  function ParseRow(parse: DateParser, row: Row, index: nat): Result<Point, Failure> {
    if !row.time.TimeText? then Err(BadTime(index))
    else if !row.value.Number? then Err(BadValue(index))
    else
      match parse(row.time.text)
      case None => Err(BadDate(index))
      case Some(date) => Ok(Point(date, row.time.text, row.value.value))
  }

  function RowReader(parse: DateParser, rows: seq<Row>): nat -> Result<Point, Failure> {
    (i: nat) => ParseRow(parse, if i < |rows| then rows[i] else Row(Missing, Missing), i)
  }

  function ParseRows(parse: DateParser, rows: seq<Row>): Result<seq<Point>, Failure> {
    Collect(RowReader(parse, rows), |rows|)
  }

  predicate ByDate(p: Point, q: Point) { !Before(q.timestamp, p.timestamp) }

  function Normalized(parse: DateParser, rows: seq<Row>): Result<seq<Point>, Failure> {
    match ParseRows(parse, rows)
    case Err(e) => Err(e)
    case Ok(points) => Ok(SortBy(ByDate, points))
  }

  method NormalizePoints(parse: DateParser, rows: seq<Row>) returns (r: Result<seq<Point>, Failure>)
    ensures r == Normalized(parse, rows)
  {
    ghost var reader := RowReader(parse, rows);
    var points: seq<Point> := [];
    for index := 0 to |rows|
      invariant Collect(reader, index) == Ok(points)
    {
      var point := ParseRow(parse, rows[index], index);
      if point.Err? {
        CollectStops(reader, index, |rows|);
        return Err(point.error);
      }
      points := points + [point.value];
    }
    return Ok(SortBy(ByDate, points));
  }

  predicate AllDated(points: seq<Point>) {
    forall i :: 0 <= i < |points| ==> ValidDate(points[i].timestamp)
  }

  lemma ParsedDatesAreValid(parse: DateParser, rows: seq<Row>)
    requires ParsesValidDates(parse) && ParseRows(parse, rows).Ok?
    ensures AllDated(ParseRows(parse, rows).value)
  {
    var reader, parsed := RowReader(parse, rows), ParseRows(parse, rows).value;
    CollectIsPointwise(reader, |rows|);
    forall i | 0 <= i < |parsed| ensures ValidDate(parsed[i].timestamp) {
      assert reader(i) == Ok(parsed[i]);
    }
  }

  lemma ReorderedDatesAreValid(points: seq<Point>, sorted: seq<Point>)
    requires AllDated(points) && multiset(points) == multiset(sorted)
    ensures AllDated(sorted)
  {
    SameElements(points, sorted);
    forall i | 0 <= i < |sorted| ensures ValidDate(sorted[i].timestamp) {
      assert sorted[i] in points;
    }
  }

  lemma NormalizedDatesAreValid(parse: DateParser, rows: seq<Row>)
    requires ParsesValidDates(parse) && Normalized(parse, rows).Ok?
    ensures |Normalized(parse, rows).value| == |rows| && AllDated(Normalized(parse, rows).value)
  {
    ParsedDatesAreValid(parse, rows);
    SortPermutes(ByDate, ParseRows(parse, rows).value);
    ReorderedDatesAreValid(ParseRows(parse, rows).value, Normalized(parse, rows).value);
  }

  lemma DateOrder()
    ensures TotalPreorder(ByDate)
  {
  }

  /** The points come out in date order, and they are the points of the rows. */
  lemma NormalizedIsSorted(parse: DateParser, rows: seq<Row>)
    requires Normalized(parse, rows).Ok?
    ensures var points := Normalized(parse, rows).value;
            forall i, j :: 0 <= i < j < |points| ==> !Before(points[j].timestamp, points[i].timestamp)
    ensures multiset(Normalized(parse, rows).value) == multiset(ParseRows(parse, rows).value)
  {
    DateOrder();
    SortSorts(ByDate, ParseRows(parse, rows).value);
    SortPermutes(ByDate, ParseRows(parse, rows).value);
    var points := Normalized(parse, rows).value;
    forall i, j | 0 <= i < j < |points| ensures ByDate(points[i], points[j]) {
    }
  }

  /** The first row that has no time text, no number or no ISO date decides the error, by what it lacks first. */
  lemma FirstBadRowDecides(parse: DateParser, rows: seq<Row>, i: nat)
    requires i < |rows|
    requires forall j :: 0 <= j < i ==>
               rows[j].time.TimeText? && rows[j].value.Number? && parse(rows[j].time.text).Some?
    ensures !rows[i].time.TimeText? ==> Normalized(parse, rows) == Err(BadTime(i))
    ensures rows[i].time.TimeText? && !rows[i].value.Number? ==> Normalized(parse, rows) == Err(BadValue(i))
    ensures rows[i].time.TimeText? && rows[i].value.Number? && parse(rows[i].time.text) == None ==>
              Normalized(parse, rows) == Err(BadDate(i))
  {
    var reader := RowReader(parse, rows);
    CollectIsPointwise(reader, i);
    if reader(i).Err? {
      CollectStops(reader, i, |rows|);
    }
  }

  function DatedAt(date: Date): Point -> bool {
    (p: Point) => p.timestamp == date
  }

  /** Rows without such a flaw give one point each, with date, date text and number of its row; points of the same date
      keep the order of their rows. */
  lemma PointsOfRows(parse: DateParser, rows: seq<Row>, date: Date) returns (points: seq<Point>)
    requires forall j :: 0 <= j < |rows| ==>
               rows[j].time.TimeText? && rows[j].value.Number? && parse(rows[j].time.text).Some?
    ensures points == seq(|rows|, j requires 0 <= j < |rows| =>
                            Point(parse(rows[j].time.text).value, rows[j].time.text, rows[j].value.value))
    ensures Normalized(parse, rows).Ok? && multiset(Normalized(parse, rows).value) == multiset(points)
    ensures Filter(DatedAt(date), Normalized(parse, rows).value) == Filter(DatedAt(date), points)
  {
    var reader := RowReader(parse, rows);
    CollectIsPointwise(reader, |rows|);
    points := seq(|rows|, j requires 0 <= j < |rows| =>
                    Point(parse(rows[j].time.text).value, rows[j].time.text, rows[j].value.value));
    forall j | 0 <= j < |rows| ensures reader(j) == Ok(points[j]) {
    }
    assert ParseRows(parse, rows).Ok?;
    forall j | 0 <= j < |rows| ensures ParseRows(parse, rows).value[j] == points[j] {
      assert reader(j) == Ok(ParseRows(parse, rows).value[j]);
    }
    assert ParseRows(parse, rows).value == points;
    SortPermutes(ByDate, points);
    SortIsStable(ByDate, DatedAt(date), points);
  }

  // ---- analyze ----

  datatype ShownAnomaly = ShownAnomaly(timestamp: string, anomaly: AnomalyPoint)

  datatype Analysis = Analysis(
    anomalies: seq<ShownAnomaly>,
    forecast: seq<ForecastPoint>,
    confidenceInterval: Option<(real, real)>,
    insufficientData: bool)

  function Values(points: seq<Point>): (values: seq<real>)
    ensures |values| == |points|
  {
    Map((p: Point) => p.value, points)
  }

  /** Every anomaly is shown with the date text of its own point. */
  function Shown(points: seq<Point>, anomalies: seq<AnomalyPoint>): seq<ShownAnomaly> {
    Map((a: AnomalyPoint) => ShownAnomaly(if a.index < |points| then points[a.index].shown else "", a), anomalies)
  }

  function AnalysisOf(sqrt: real -> real, points: seq<Point>, grain: Grain, horizon: nat,
                      threshold: real): Result<Analysis, Failure>
    requires AllDated(points)
  {
    if |points| < 3 then Ok(Analysis([], [], None, true))
    else
      match Forecast(sqrt, Values(points), points[|points| - 1].timestamp, grain, horizon)
      case Err(e) => Err(NoForecast(e))
      case Ok(forecast) =>
        Ok(Analysis(Shown(points, Anomalies(sqrt, Values(points), threshold)), forecast, ConfidenceInterval(forecast),
                    false))
  }

  /** What an analysis consists of: with fewer than 3 points nothing but the warning; else the anomalies of the values,
      each under the date text of its own point, and the forecast from the last point on with its interval. */
  lemma AnalysisParts(sqrt: real -> real, points: seq<Point>, grain: Grain, horizon: nat, threshold: real,
                      values: seq<real>, i: nat)
    requires AllDated(points)
    requires values == seq(|points|, k requires 0 <= k < |points| => points[k].value)
    ensures |points| < 3 ==> AnalysisOf(sqrt, points, grain, horizon, threshold) == Ok(Analysis([], [], None, true))
    ensures |points| >= 3 ==>
              var forecast := Forecast(sqrt, values, points[|points| - 1].timestamp, grain, horizon);
              var r := AnalysisOf(sqrt, points, grain, horizon, threshold);
              && (r.Ok? <==> forecast.Ok?) && (forecast.Err? ==> r == Err(NoForecast(forecast.error)))
              && (r.Ok? ==>
                    && r.value.forecast == forecast.value && !r.value.insufficientData
                    && r.value.confidenceInterval == ConfidenceInterval(forecast.value)
                    && |r.value.anomalies| == |Anomalies(sqrt, values, threshold)|
                    && (i < |r.value.anomalies| ==>
                          var a := Anomalies(sqrt, values, threshold)[i];
                          a.index < |points| && r.value.anomalies[i] == ShownAnomaly(points[a.index].shown, a)))
  {
    assert Values(points) == values;
  }

  method Analyze(sqrt: real -> real, parse: DateParser, rows: seq<Row>, grain: Grain, horizon: nat, threshold: real)
    returns (r: Result<Analysis, Failure>)
    requires ParsesValidDates(parse)
    ensures Normalized(parse, rows).Err? ==> r == Err(Normalized(parse, rows).error)
    ensures Normalized(parse, rows).Ok? ==>
              var points := Normalized(parse, rows).value;
              AllDated(points) && r == AnalysisOf(sqrt, points, grain, horizon, threshold)
  {
    var normalized := NormalizePoints(parse, rows);
    if normalized.Err? {
      return Err(normalized.error);
    }
    NormalizedDatesAreValid(parse, rows);
    var points := normalized.value;
    if |points| < 3 {
      return Ok(Analysis([], [], None, true));
    }
    var anomalies := DetectAnomalies(sqrt, Values(points), threshold);
    var forecast := ComputeForecast(sqrt, Values(points), points[|points| - 1].timestamp, grain, horizon);
    if forecast.Err? {
      return Err(NoForecast(forecast.error));
    }
    return Ok(Analysis(Shown(points, anomalies), forecast.value, ConfidenceInterval(forecast.value), false));
  }

  /** With at least 3 readable rows the analysis fails exactly when the forecast runs past the calendar; a forecast
      point is never refused for its bounds. */
  lemma AnalysisFailsOnlyByDate(sqrt: real -> real, points: seq<Point>, grain: Grain, horizon: nat, threshold: real)
    requires IsSqrt(sqrt) && AllDated(points) && |points| >= 3 && horizon > 0
    ensures var r := AnalysisOf(sqrt, points, grain, horizon, threshold);
            if AddGrain(points[|points| - 1].timestamp, grain, horizon).Ok? then r.Ok? && |r.value.forecast| == horizon
            else r == Err(NoForecast(DateRange))
  {
    var values, start := Values(points), points[|points| - 1].timestamp;
    ForecastIsSound(sqrt, values, start, grain, horizon, DatesAfter(start, grain),
                    TrendLine(values[|values| - 1], Trend(values)));
    assert DatesAfter(start, grain)(horizon) == AddGrain(start, grain, horizon);
  }

  // ---- Row order does not matter ----

  predicate Readable(parse: DateParser, row: Row) { ParseRow(parse, row, 0).Ok? }

  /** What a readable row says, wherever it stands. */
  function ReadRow(parse: DateParser): Row -> Point {
    row => if Readable(parse, row) then ParseRow(parse, row, 0).value else Point(Date(1, 1, 1), "", 0.0)
  }

  lemma ParseRowsIsPointwise(parse: DateParser, rows: seq<Row>)
    ensures ParseRows(parse, rows).Ok? <==> forall row :: row in rows ==> Readable(parse, row)
    ensures ParseRows(parse, rows).Ok? ==> ParseRows(parse, rows).value == Map(ReadRow(parse), rows)
  {
    var reader := RowReader(parse, rows);
    CollectIsPointwise(reader, |rows|);
    forall i | 0 <= i < |rows|
      ensures reader(i).Ok? <==> Readable(parse, rows[i])
      ensures reader(i).Ok? ==> reader(i).value == ReadRow(parse)(rows[i])
    {
    }
    if forall row :: row in rows ==> Readable(parse, row) {
      forall i | 0 <= i < |rows| ensures reader(i).Ok? {
        assert rows[i] in rows;
      }
    }
    if ParseRows(parse, rows).Ok? {
      forall row | row in rows ensures Readable(parse, row) {
        var i :| 0 <= i < |rows| && rows[i] == row;
        assert reader(i).Ok?;
      }
    }
  }

  lemma MapAppend<T, U>(f: T -> U, s: seq<T>, t: seq<T>)
    ensures Map(f, s + t) == Map(f, s) + Map(f, t)
  {
  }

  function Without<T>(t: seq<T>, k: nat): seq<T>
    requires k < |t|
  {
    t[..k] + t[k + 1..]
  }

  lemma TakeOut<T>(t: seq<T>, k: nat)
    requires k < |t|
    ensures multiset(Without(t, k)) == multiset(t) - multiset{t[k]}
  {
    assert t == t[..k] + ([t[k]] + t[k + 1..]);
  }

  lemma TakeOutMapped<T, U>(f: T -> U, t: seq<T>, k: nat)
    requires k < |t|
    ensures multiset(Map(f, t)) == multiset{f(t[k])} + multiset(Map(f, Without(t, k)))
  {
    assert t == t[..k] + ([t[k]] + t[k + 1..]);
    MapAppend(f, t[..k], [t[k]] + t[k + 1..]);
    MapAppend(f, [t[k]], t[k + 1..]);
    MapAppend(f, t[..k], t[k + 1..]);
    assert Map(f, [t[k]]) == [f(t[k])];
  }

  /** Where the first element of `s` stands in a permutation of it, and what is left without it. */
  lemma MatchHead<T>(s: seq<T>, t: seq<T>) returns (k: nat)
    requires multiset(s) == multiset(t) && s != []
    ensures k < |t| && t[k] == s[0]
    ensures multiset(Without(s, 0)) == multiset(Without(t, k))
  {
    assert s[0] in multiset(s) && s[0] in t;
    k :| 0 <= k < |t| && t[k] == s[0];
    TakeOut(s, 0);
    TakeOut(t, k);
  }

  lemma {:induction false} MapPermutes<T, U>(f: T -> U, s: seq<T>, t: seq<T>)
    requires multiset(s) == multiset(t)
    ensures multiset(Map(f, s)) == multiset(Map(f, t))
    decreases |s|
  {
    assert |multiset(s)| == |multiset(t)|;
    if s != [] {
      var k := MatchHead(s, t);
      TakeOutMapped(f, s, 0);
      TakeOutMapped(f, t, k);
      MapPermutes(f, Without(s, 0), Without(t, k));
    }
  }

  /** Rows in another order give the same series when no two different points share a date, and so the same
      anomalies and the same forecast; an unreadable row is found in every order. */
  lemma RowOrderDoesNotMatter(parse: DateParser, rows: seq<Row>, shuffled: seq<Row>)
    requires multiset(rows) == multiset(shuffled)
    requires ParseRows(parse, rows).Ok? ==> NoTies(ByDate, ParseRows(parse, rows).value)
    ensures Normalized(parse, rows).Ok? <==> Normalized(parse, shuffled).Ok?
    ensures Normalized(parse, rows).Ok? ==> Normalized(parse, rows) == Normalized(parse, shuffled)
  {
    SameElements(rows, shuffled);
    ParseRowsIsPointwise(parse, rows);
    ParseRowsIsPointwise(parse, shuffled);
    if ParseRows(parse, rows).Ok? {
      MapPermutes(ReadRow(parse), rows, shuffled);
      DateOrder();
      SortOfPermutation(ByDate, ParseRows(parse, rows).value, ParseRows(parse, shuffled).value);
    }
  }
}
