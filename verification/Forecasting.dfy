/** analytics.py `_forecast`: the average trend continued, with bounds, on the next calendar dates. */
module Forecasting {
  import opened Text
  import opened Rounding
  import opened Vectors
  import opened Calendar
  import opened Collecting
  import opened Statistics

  datatype ForecastPoint = ForecastPoint(timestamp: Date, value: real, lower: real, upper: real)

  datatype ForecastError = DateRange | BadForecastPoint

  function Trend(values: seq<real>): real
    requires |values| >= 2
  {
    (values[|values| - 1] - values[0]) / (|values| - 1) as real
  }

  /** The trend line through `origin`; step k of the forecast loop is the point at k + 1. */
  function TrendLine(origin: real, trend: real): nat -> real { (k: nat) => origin + trend * k as real }

  function Residuals(values: seq<real>, trend: real): seq<real> {
    seq(|values|, i requires 0 <= i < |values| => values[i] - TrendLine(values[0], trend)(i))
  }

  /** A zero residual spread falls back to 5% of the last value, at least 1. */
  function Spread(sqrt: real -> real, values: seq<real>): real
    requires |values| >= 2
  {
    var residual := StdDev(sqrt, Residuals(values, Trend(values)));
    var fallback := Abs(values[|values| - 1]) * 0.05;
    if residual != 0.0 then residual else if fallback > 1.0 then fallback else 1.0
  }

  /** Half the width of a forecast point's bounds. */
  function Margin(sqrt: real -> real, values: seq<real>): real
    requires |values| >= 2
  {
    1.96 * Spread(sqrt, values)
  }

  lemma SpreadPositive(sqrt: real -> real, values: seq<real>)
    requires IsSqrt(sqrt) && |values| >= 2
    ensures Spread(sqrt, values) > 0.0 && Margin(sqrt, values) > 0.0
  {
    StdDevNonNegative(sqrt, Residuals(values, Trend(values)));
  }

  /** The validated constructor refuses a value outside its own bounds. */
  function MakeForecastPoint(timestamp: Date, value: real, lower: real,
                             upper: real): Result<ForecastPoint, ForecastError>
  {
    if lower <= value <= upper then Ok(ForecastPoint(timestamp, value, lower, upper)) else Err(BadForecastPoint)
  }

  function ForecastAt(timestamp: Result<Date, DateError>, value: real,
                      margin: real): Result<ForecastPoint, ForecastError>
  {
    match timestamp
    case Err(_) => Err(DateRange)
    case Ok(date) => MakeForecastPoint(date, value, Round2(value - margin), Round2(value + margin))
  }

  function DatesAfter(start: Date, grain: Grain): nat -> Result<Date, DateError>
    requires ValidDate(start)
  {
    (k: nat) => AddGrain(start, grain, k)
  }

  function ForecastStep(dates: nat -> Result<Date, DateError>, line: nat -> real,
                        margin: real): nat -> Result<ForecastPoint, ForecastError>
  {
    (k: nat) => ForecastAt(dates(k + 1), Round2(line(k + 1)), margin)
  }

  function Forecast(sqrt: real -> real, values: seq<real>, start: Date, grain: Grain,
                    horizon: nat): Result<seq<ForecastPoint>, ForecastError>
    requires |values| >= 2 && ValidDate(start)
  {
    var line := TrendLine(values[|values| - 1], Trend(values));
    Collect(ForecastStep(DatesAfter(start, grain), line, Margin(sqrt, values)), horizon)
  }

  method ForecastLoop(dates: nat -> Result<Date, DateError>, line: nat -> real, margin: real, horizon: nat)
    returns (r: Result<seq<ForecastPoint>, ForecastError>)
    ensures r == Collect(ForecastStep(dates, line, margin), horizon)
  {
    ghost var step := ForecastStep(dates, line, margin);
    var forecast: seq<ForecastPoint> := [];
    for k := 0 to horizon
      invariant Collect(step, k) == Ok(forecast)
    {
      var value := Round2(line(k + 1));
      var point := ForecastAt(dates(k + 1), value, margin);
      if point.Err? {
        CollectStops(step, k, horizon);
        return Err(point.error);
      }
      forecast := forecast + [point.value];
    }
    return Ok(forecast);
  }

  method ComputeForecast(sqrt: real -> real, values: seq<real>, start: Date, grain: Grain, horizon: nat)
    returns (r: Result<seq<ForecastPoint>, ForecastError>)
    requires |values| >= 2 && ValidDate(start)
    ensures r == Forecast(sqrt, values, start, grain, horizon)
  {
    var line := TrendLine(values[|values| - 1], Trend(values));
    r := ForecastLoop(DatesAfter(start, grain), line, Margin(sqrt, values), horizon);
  }

  /** Rounding keeps the value between its bounds. */
  lemma BoundsHold(x: real, margin: real)
    requires margin >= 0.0
    ensures Round2(Round2(x) - margin) <= Round2(x) <= Round2(Round2(x) + margin)
  {
    var value := Round2(x);
    Round2Idempotent(x);
    Round2Monotone(value - margin, value);
    Round2Monotone(value, value + margin);
  }

  lemma NeverRefused(timestamp: Result<Date, DateError>, x: real, margin: real)
    requires margin >= 0.0
    ensures timestamp.Err? ==> ForecastAt(timestamp, Round2(x), margin) == Err(DateRange)
    ensures timestamp.Ok? ==> ForecastAt(timestamp, Round2(x), margin)
                              == Ok(ForecastPoint(timestamp.value, Round2(x), Round2(Round2(x) - margin),
                                                  Round2(Round2(x) + margin)))
    ensures Round2(Round2(x) - margin) <= Round2(x) <= Round2(Round2(x) + margin)
  {
    BoundsHold(x, margin);
  }

  // ---- The dates ----

  /** Up to `horizon`, every step has a valid date strictly after the one before; step 0 is `start`. */
  ghost predicate Ascending(dates: nat -> Result<Date, DateError>, start: Date, horizon: nat) {
    && dates(0) == Ok(start)
    && (forall k: nat :: k <= horizon ==> dates(k).Ok? && ValidDate(dates(k).value))
    && (forall j: nat, k: nat :: j < k <= horizon ==> Before(dates(j).value, dates(k).value))
  }

  lemma StepsInRange(start: Date, grain: Grain, k: nat, horizon: nat)
    requires ValidDate(start) && k <= horizon && AddGrain(start, grain, horizon).Ok?
    ensures AddGrain(start, grain, k).Ok? && ValidDate(AddGrain(start, grain, k).value)
  {
    if k == 0 {
      StepZero(start, grain);
    } else if k < horizon {
      StepsAscend(start, grain, k, horizon);
    } else {
      StepsAscend(start, grain, 0, k);
    }
  }

  lemma DatesAscend(start: Date, grain: Grain, horizon: nat)
    requires ValidDate(start) && AddGrain(start, grain, horizon).Ok?
    ensures Ascending(DatesAfter(start, grain), start, horizon)
  {
    StepZero(start, grain);
    forall k: nat | k <= horizon ensures AddGrain(start, grain, k).Ok? && ValidDate(AddGrain(start, grain, k).value) {
      StepsInRange(start, grain, k, horizon);
    }
    forall j: nat, k: nat | j < k <= horizon
      ensures Before(AddGrain(start, grain, j).value, AddGrain(start, grain, k).value)
    {
      StepsAscend(start, grain, j, k);
    }
  }

  /** What a forecast promises: one point a step on the rounded trend line, between its bounds, on the calendar
      date of that step; these are valid and each is strictly after the one before, the first after `start`. */
  ghost predicate SoundForecast(dates: nat -> Result<Date, DateError>, line: nat -> real, start: Date,
                                forecast: seq<ForecastPoint>)
  {
    && Ascending(dates, start, |forecast|)
    && (forall k :: 0 <= k < |forecast| ==>
          && forecast[k].lower <= forecast[k].value <= forecast[k].upper
          && forecast[k].value == Round2(line(k + 1))
          && dates(k + 1) == Ok(forecast[k].timestamp))
  }

  lemma StepsAreSound(dates: nat -> Result<Date, DateError>, line: nat -> real, margin: real, start: Date,
                      forecast: seq<ForecastPoint>)
    requires margin >= 0.0 && Ascending(dates, start, |forecast|)
    requires forall k :: 0 <= k < |forecast| ==> ForecastStep(dates, line, margin)(k) == Ok(forecast[k])
    ensures SoundForecast(dates, line, start, forecast)
  {
    forall k | 0 <= k < |forecast|
      ensures forecast[k].lower <= forecast[k].value <= forecast[k].upper
      ensures forecast[k].value == Round2(line(k + 1)) && dates(k + 1) == Ok(forecast[k].timestamp)
    {
      assert ForecastStep(dates, line, margin)(k) == Ok(forecast[k]);
      NeverRefused(dates(k + 1), line(k + 1), margin);
    }
  }

  /** The points of a forecast are on strictly ascending dates. */
  lemma ForecastDatesAscend(dates: nat -> Result<Date, DateError>, line: nat -> real, start: Date,
                            forecast: seq<ForecastPoint>, j: nat, k: nat)
    requires SoundForecast(dates, line, start, forecast) && j < k < |forecast|
    ensures Before(start, forecast[j].timestamp) && Before(forecast[j].timestamp, forecast[k].timestamp)
  {
    assert Before(dates(0).value, dates(j + 1).value) && Before(dates(j + 1).value, dates(k + 1).value);
  }

  lemma FailsOnlyByDate(timestamp: Result<Date, DateError>, x: real, margin: real)
    requires margin >= 0.0
    ensures ForecastAt(timestamp, Round2(x), margin).Ok? <==> timestamp.Ok?
    ensures timestamp.Err? ==> ForecastAt(timestamp, Round2(x), margin) == Err(DateRange)
  {
    BoundsHold(x, margin);
  }

  lemma OnlyDatesFail(dates: nat -> Result<Date, DateError>, line: nat -> real, margin: real, horizon: nat)
    requires margin >= 0.0 && horizon > 0 && dates(horizon).Err?
    ensures Collect(ForecastStep(dates, line, margin), horizon) == Err(DateRange)
  {
    var step := ForecastStep(dates, line, margin);
    CollectIsPointwise(step, horizon);
    FailsOnlyByDate(dates(horizon), line(horizon), margin);
    assert step(horizon - 1).Err?;
    var k := CollectError(step, horizon);
    FailsOnlyByDate(dates(k + 1), line(k + 1), margin);
  }

  lemma CollectedIsSound(dates: nat -> Result<Date, DateError>, line: nat -> real, margin: real, start: Date,
                         horizon: nat)
    requires margin >= 0.0 && Ascending(dates, start, horizon)
    ensures var r := Collect(ForecastStep(dates, line, margin), horizon);
            r.Ok? && |r.value| == horizon && SoundForecast(dates, line, start, r.value)
  {
    var step := ForecastStep(dates, line, margin);
    CollectIsPointwise(step, horizon);
    forall k | 0 <= k < horizon ensures step(k).Ok? {
      FailsOnlyByDate(dates(k + 1), line(k + 1), margin);
    }
    StepsAreSound(dates, line, margin, start, Collect(step, horizon).value);
  }

  lemma Outcome(dates: nat -> Result<Date, DateError>, line: nat -> real, margin: real, start: Date, horizon: nat)
    requires margin >= 0.0 && horizon > 0 && (dates(horizon).Ok? ==> Ascending(dates, start, horizon))
    ensures var r := Collect(ForecastStep(dates, line, margin), horizon);
            if dates(horizon).Ok? then r.Ok? && |r.value| == horizon && SoundForecast(dates, line, start, r.value)
            else r == Err(DateRange)
  {
    if dates(horizon).Ok? {
      CollectedIsSound(dates, line, margin, start, horizon);
    } else {
      OnlyDatesFail(dates, line, margin, horizon);
    }
  }

  /** A forecast fails exactly when its last date is outside the calendar, never because of its bounds. */
  lemma ForecastIsSound(sqrt: real -> real, values: seq<real>, start: Date, grain: Grain, horizon: nat,
                        dates: nat -> Result<Date, DateError>, line: nat -> real)
    requires IsSqrt(sqrt) && |values| >= 2 && ValidDate(start) && horizon > 0
    requires dates == DatesAfter(start, grain) && line == TrendLine(values[|values| - 1], Trend(values))
    ensures var r := Forecast(sqrt, values, start, grain, horizon);
            if dates(horizon).Ok? then r.Ok? && |r.value| == horizon && SoundForecast(dates, line, start, r.value)
            else r == Err(DateRange)
  {
    SpreadPositive(sqrt, values);
    if dates(horizon).Ok? {
      DatesAscend(start, grain, horizon);
    }
    Outcome(dates, line, Margin(sqrt, values), start, horizon);
  }

  /** How far each value lies from the line through the first one. */
  ghost predicate AreResiduals(values: seq<real>, trend: real, residuals: seq<real>) {
    |residuals| == |values|
    && forall i :: 0 <= i < |values| ==> residuals[i] == values[i] - (values[0] + trend * i as real)
  }

  /** In plain numbers: point k lies k + 1 average steps beyond the last value, with 1.96 spreads to either side, all to
      two decimals, on the date k + 1 grains after the last one; the spread is that of the values around their own
      trend line or, when they lie on it, 5% of the last value but at least 1. */
  lemma ForecastInNumbers(sqrt: real -> real, values: seq<real>, start: Date, grain: Grain, horizon: nat, trend: real,
                          residuals: seq<real>, spread: real, margin: real, k: nat, x: real)
    requires IsSqrt(sqrt) && |values| >= 2 && ValidDate(start) && k < horizon
    requires AddGrain(start, grain, horizon).Ok?
    requires trend == (values[|values| - 1] - values[0]) / (|values| - 1) as real
    requires AreResiduals(values, trend, residuals)
    requires spread == if StdDev(sqrt, residuals) != 0.0 then StdDev(sqrt, residuals)
                       else if 0.05 * Abs(values[|values| - 1]) > 1.0 then 0.05 * Abs(values[|values| - 1]) else 1.0
    requires margin == 1.96 * spread && x == values[|values| - 1] + trend * (k + 1) as real
    ensures var r := Forecast(sqrt, values, start, grain, horizon);
            && r.Ok? && |r.value| == horizon
            && r.value[k].value == Round2(x)
            && r.value[k].lower == Round2(Round2(x) - margin) && r.value[k].upper == Round2(Round2(x) + margin)
            && AddGrain(start, grain, k + 1) == Ok(r.value[k].timestamp)
  {
    MarginIs(sqrt, values, trend, residuals, spread);
    LineAt(values, trend, k, x);
    var dates, line := DatesAfter(start, grain), TrendLine(values[|values| - 1], Trend(values));
    ForecastIsSound(sqrt, values, start, grain, horizon, dates, line);
    SpreadPositive(sqrt, values);
    PointAt(dates, line, Margin(sqrt, values), horizon, k, x, margin);
  }

  lemma LineAt(values: seq<real>, trend: real, k: nat, x: real)
    requires |values| >= 2 && trend == Trend(values) && x == values[|values| - 1] + trend * (k + 1) as real
    ensures TrendLine(values[|values| - 1], Trend(values))(k + 1) == x
  {
  }

  lemma MarginIs(sqrt: real -> real, values: seq<real>, trend: real, residuals: seq<real>, spread: real)
    requires |values| >= 2 && trend == Trend(values) && AreResiduals(values, trend, residuals)
    requires spread == if StdDev(sqrt, residuals) != 0.0 then StdDev(sqrt, residuals)
                       else if 0.05 * Abs(values[|values| - 1]) > 1.0 then 0.05 * Abs(values[|values| - 1]) else 1.0
    ensures Margin(sqrt, values) == 1.96 * spread
  {
    forall i | 0 <= i < |values| ensures Residuals(values, trend)[i] == residuals[i] {
      ResidualAt(values, trend, i);
    }
    assert Residuals(values, trend) == residuals;
  }

  lemma PointAt(dates: nat -> Result<Date, DateError>, line: nat -> real, margin: real, horizon: nat, k: nat, x: real,
                width: real)
    requires margin >= 0.0 && k < horizon && Collect(ForecastStep(dates, line, margin), horizon).Ok?
    requires x == line(k + 1) && width == margin
    ensures var point := Collect(ForecastStep(dates, line, margin), horizon).value[k];
            && point.value == Round2(x) && dates(k + 1) == Ok(point.timestamp)
            && point.lower == Round2(Round2(x) - width) && point.upper == Round2(Round2(x) + width)
  {
    var step := ForecastStep(dates, line, margin);
    CollectIsPointwise(step, horizon);
    assert step(k) == Ok(Collect(step, horizon).value[k]);
    NeverRefused(dates(k + 1), line(k + 1), margin);
  }

  lemma ResidualAt(values: seq<real>, trend: real, i: nat)
    requires i < |values|
    ensures |Residuals(values, trend)| == |values|
    ensures Residuals(values, trend)[i] == values[i] - (values[0] + trend * i as real)
  {
    assert TrendLine(values[0], trend)(i) == values[0] + trend * i as real;
  }

  lemma LineStep(a: real, b: real, n: real)
    requires n > 0.0
    ensures (a + b * n - a) / n == b
  {
    Cancel(n, b);
  }

  /** A series on a straight line is continued on that line. */
  lemma StraightLineContinues(values: seq<real>, a: real, b: real, k: nat)
    requires |values| >= 2 && forall i :: 0 <= i < |values| ==> values[i] == a + b * i as real
    ensures Trend(values) == b
    ensures TrendLine(values[|values| - 1], Trend(values))(k) == a + b * (|values| - 1) as real + b * k as real
    ensures forall i :: 0 <= i < |values| ==> Residuals(values, Trend(values))[i] == 0.0
  {
    var n := |values| - 1;
    assert values[0] == a + b * 0 as real == a;
    LineStep(a, b, n as real);
    forall i | 0 <= i < |values| ensures Residuals(values, b)[i] == 0.0 {
      ResidualAt(values, b, i);
    }
  }

  // ---- _confidence_interval ----

  function Lowers(forecast: seq<ForecastPoint>): seq<real> {
    seq(|forecast|, k requires 0 <= k < |forecast| => forecast[k].lower)
  }

  function Uppers(forecast: seq<ForecastPoint>): seq<real> {
    seq(|forecast|, k requires 0 <= k < |forecast| => forecast[k].upper)
  }

  function ConfidenceInterval(forecast: seq<ForecastPoint>): Option<(real, real)> {
    if forecast == [] then None else Some((Min(Lowers(forecast)), Max(Uppers(forecast))))
  }

  /** The interval contains every forecast value with its bounds. */
  lemma IntervalCovers(dates: nat -> Result<Date, DateError>, line: nat -> real, start: Date,
                       forecast: seq<ForecastPoint>, k: nat)
    requires SoundForecast(dates, line, start, forecast) && k < |forecast|
    ensures ConfidenceInterval(forecast).Some?
    ensures var (low, high) := ConfidenceInterval(forecast).value;
            low <= forecast[k].lower <= forecast[k].value <= forecast[k].upper <= high
            && (exists i :: 0 <= i < |forecast| && forecast[i].lower == low)
            && (exists i :: 0 <= i < |forecast| && forecast[i].upper == high)
  {
    var low, high := Min(Lowers(forecast)), Max(Uppers(forecast));
    var i :| 0 <= i < |forecast| && Lowers(forecast)[i] == low;
    var j :| 0 <= j < |forecast| && Uppers(forecast)[j] == high;
    assert forecast[i].lower == low && forecast[j].upper == high;
    assert Lowers(forecast)[k] == forecast[k].lower && Uppers(forecast)[k] == forecast[k].upper;
  }
}
