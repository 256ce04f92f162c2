/** analytics.py `_add_grain`, `_add_months`, `_days_in_month` over the proleptic Gregorian calendar,
    years 1 to 9999. */
module Calendar {
  import opened Text

  datatype Date = Date(year: int, month: int, day: int)

  predicate IsLeap(year: int) { year % 4 == 0 && (year % 100 != 0 || year % 400 == 0) }

  function MonthLength(year: int, month: int): (n: int)
    ensures 28 <= n <= 31
  {
    if month == 2 then (if IsLeap(year) then 29 else 28)
    else if month == 4 || month == 6 || month == 9 || month == 11 then 30
    else 31
  }

  predicate ValidDate(d: Date) {
    1 <= d.year <= 9999 && 1 <= d.month <= 12 && 1 <= d.day <= MonthLength(d.year, d.month)
  }

  /** Earlier in the calendar. */
  predicate Before(a: Date, b: Date) {
    a.year < b.year || (a.year == b.year && (a.month < b.month || (a.month == b.month && a.day < b.day)))
  }

  // ---- Day numbers: 1 is 0001-01-01 ----

  function DaysBeforeYear(year: int): int { (year - 1) * 365 + (year - 1) / 4 - (year - 1) / 100 + (year - 1) / 400 }

  function DaysBeforeMonth(year: int, month: int): int
    requires 1 <= month <= 13
    decreases month
  {
    if month == 1 then 0 else DaysBeforeMonth(year, month - 1) + MonthLength(year, month - 1)
  }

  function Ordinal(d: Date): int
    requires ValidDate(d)
  {
    DaysBeforeYear(d.year) + DaysBeforeMonth(d.year, d.month) + d.day
  }

  /** 9999-12-31 */
  const MAX_ORDINAL := 3652059

  function NextDay(d: Date): Date {
    if d.day < MonthLength(d.year, d.month) then Date(d.year, d.month, d.day + 1)
    else if d.month < 12 then Date(d.year, d.month + 1, 1)
    else Date(d.year + 1, 1, 1)
  }

  lemma MonthLengthsAdd(year: int)
    ensures DaysBeforeMonth(year, 13) == if IsLeap(year) then 366 else 365
  {
    assert DaysBeforeMonth(year, 3) == 31 + MonthLength(year, 2);
    assert DaysBeforeMonth(year, 5) == DaysBeforeMonth(year, 3) + 61;
    assert DaysBeforeMonth(year, 7) == DaysBeforeMonth(year, 5) + 61;
    assert DaysBeforeMonth(year, 9) == DaysBeforeMonth(year, 7) + 62;
    assert DaysBeforeMonth(year, 11) == DaysBeforeMonth(year, 9) + 61;
    assert DaysBeforeMonth(year, 13) == DaysBeforeMonth(year, 11) + 61;
  }

  lemma QuotientSteps(year: int)
    ensures year / 4 - (year - 1) / 4 == if year % 4 == 0 then 1 else 0
    ensures year / 100 - (year - 1) / 100 == if year % 100 == 0 then 1 else 0
    ensures year / 400 - (year - 1) / 400 == if year % 400 == 0 then 1 else 0
  {
  }

  lemma Multiples(k: int)
    ensures 4 * k % 4 == 0 && 100 * k % 100 == 0
  {
  }

  lemma LeapRule(year: int)
    ensures year % 100 == 0 ==> year % 4 == 0
    ensures year % 400 == 0 ==> year % 100 == 0
  {
    Multiples(25 * (year / 100));
    Multiples(4 * (year / 400));
  }

  lemma LeapDays(year: int)
    ensures DaysBeforeYear(year + 1) - DaysBeforeYear(year) == if IsLeap(year) then 366 else 365
  {
    QuotientSteps(year);
    LeapRule(year);
  }

  lemma YearLength(year: int)
    ensures DaysBeforeMonth(year, 13) == if IsLeap(year) then 366 else 365
    ensures DaysBeforeYear(year + 1) == DaysBeforeYear(year) + DaysBeforeMonth(year, 13)
  {
    MonthLengthsAdd(year);
    LeapDays(year);
  }

  lemma NextDayIsNext(d: Date)
    requires ValidDate(d) && d != Date(9999, 12, 31)
    ensures ValidDate(NextDay(d)) && Ordinal(NextDay(d)) == Ordinal(d) + 1
  {
    YearLength(d.year);
  }

  lemma {:induction false} MonthsAscend(year: int, m: int, n: int)
    requires 1 <= m <= n <= 13
    ensures DaysBeforeMonth(year, m) <= DaysBeforeMonth(year, n)
    ensures m < n ==> DaysBeforeMonth(year, m) + MonthLength(year, m) <= DaysBeforeMonth(year, n)
    decreases n - m
  {
    if m < n {
      MonthsAscend(year, m, n - 1);
    }
  }

  lemma {:induction false} YearsAscend(y: int, z: int)
    requires y < z
    ensures DaysBeforeYear(y) + DaysBeforeMonth(y, 13) <= DaysBeforeYear(z)
    decreases z - y
  {
    YearLength(y);
    if y + 1 < z {
      YearsAscend(y + 1, z);
      YearLength(y + 1);
    }
  }

  lemma EarlierIsSmaller(a: Date, b: Date)
    requires ValidDate(a) && ValidDate(b) && Before(a, b)
    ensures Ordinal(a) < Ordinal(b)
  {
    if a.year < b.year {
      MonthsAscend(a.year, a.month, 13);
      YearsAscend(a.year, b.year);
      MonthsAscend(b.year, 1, b.month);
    } else {
      MonthsAscend(a.year, a.month, b.month);
    }
  }

  /** Day numbers order dates as the calendar does. */
  lemma OrdinalOrder(a: Date, b: Date)
    requires ValidDate(a) && ValidDate(b)
    ensures Before(a, b) <==> Ordinal(a) < Ordinal(b)
    ensures a == b <==> Ordinal(a) == Ordinal(b)
  {
    if Before(a, b) {
      EarlierIsSmaller(a, b);
    } else if Before(b, a) {
      EarlierIsSmaller(b, a);
    }
  }

  lemma OrdinalRange(d: Date)
    requires ValidDate(d)
    ensures 1 <= Ordinal(d) <= MAX_ORDINAL
    ensures Ordinal(d) == MAX_ORDINAL ==> d == Date(9999, 12, 31)
  {
    MonthsAscend(d.year, 1, d.month);
    var last := Date(9999, 12, 31);
    YearLength(9999);
    assert Ordinal(last) == MAX_ORDINAL;
    OrdinalOrder(d, last);
    if d.year > 1 {
      YearsAscend(1, d.year);
    }
  }

  /** The date `n - 1` days after 0001-01-01. */
  function FromOrdinal(n: int): (d: Date)
    requires 1 <= n <= MAX_ORDINAL
    ensures ValidDate(d) && Ordinal(d) == n
    decreases n
  {
    if n == 1 then Date(1, 1, 1)
    else
      var before := FromOrdinal(n - 1);
      NotTheLast(before);
      NextDayIsNext(before);
      NextDay(before)
  }

  lemma NotTheLast(d: Date)
    requires ValidDate(d) && Ordinal(d) < MAX_ORDINAL
    ensures d != Date(9999, 12, 31)
  {
    YearLength(9999);
  }

  lemma FromOrdinalOf(d: Date)
    requires ValidDate(d)
    ensures 1 <= Ordinal(d) <= MAX_ORDINAL && FromOrdinal(Ordinal(d)) == d
  {
    OrdinalRange(d);
    OrdinalOrder(FromOrdinal(Ordinal(d)), d);
  }

  // ---- date + timedelta ----

  datatype DateError = OutOfRange

  /** OverflowError outside the years 1 to 9999. */
  function AddDays(d: Date, days: int): Result<Date, DateError>
    requires ValidDate(d)
  {
    var n := Ordinal(d) + days;
    if 1 <= n <= MAX_ORDINAL then Ok(FromOrdinal(n)) else Err(OutOfRange)
  }

  /** `date(year, month, day)` for a month and day in range: ValueError when the year is not. */
  function MakeDate(year: int, month: int, day: int): Result<Date, DateError> {
    if 1 <= year <= 9999 then Ok(Date(year, month, day)) else Err(OutOfRange)
  }

  /** `_days_in_month`: 31 for December, else the day before the first of the next month. */
  function DaysInMonth(year: int, month: int): Result<int, DateError>
    requires 1 <= month <= 12
  {
    if month == 12 then Ok(31)
    else
      match MakeDate(year, month + 1, 1)
      case Err(e) => Err(e)
      case Ok(first) =>
        match AddDays(first, -1)
        case Err(e) => Err(e)
        case Ok(last) => Ok(last.day)
  }

  function ClampedDate(year: int, month: int, day: int): Result<Date, DateError>
    requires 1 <= month <= 12
  {
    match DaysInMonth(year, month)
    case Err(e) => Err(e)
    case Ok(length) => MakeDate(year, month, if day < length then day else length)
  }

  /** Year and month `months` later; `//` and `%` by 12 floor as Dafny's do. */
  function MonthsLater(year: int, month: int, months: int): (target: (int, int))
    ensures 1 <= target.1 <= 12
  {
    var index := month - 1 + months;
    (year + index / 12, index % 12 + 1)
  }

  /** `_add_months` */
  function AddMonths(start: Date, months: int): Result<Date, DateError> {
    var target := MonthsLater(start.year, start.month, months);
    ClampedDate(target.0, target.1, start.day)
  }

  datatype Grain = Day | Week | Month

  function AddGrain(start: Date, grain: Grain, step: int): Result<Date, DateError>
    requires ValidDate(start)
  {
    match grain
    case Day => AddDays(start, step)
    case Week => AddDays(start, 7 * step)
    case Month => AddMonths(start, step)
  }

  lemma DayBefore(first: Date, last: Date)
    requires ValidDate(first) && ValidDate(last) && Ordinal(first) == Ordinal(last) + 1
    ensures AddDays(first, -1) == Ok(last)
  {
    FromOrdinalOf(last);
  }

  lemma DaysInMonthIsMonthLength(year: int, month: int)
    requires 1 <= month <= 12 && 1 <= year <= 9999
    ensures DaysInMonth(year, month) == Ok(MonthLength(year, month))
    ensures MonthLength(year, month)
         == [31, if year % 4 == 0 && (year % 100 != 0 || year % 400 == 0) then 29 else 28, 31, 30, 31, 30, 31, 31, 30,
             31, 30, 31][month - 1]
  {
    if month < 12 {
      var first, last := Date(year, month + 1, 1), Date(year, month, MonthLength(year, month));
      NextDayIsNext(last);
      DayBefore(first, last);
    }
  }

  lemma ClampedDay(year: int, month: int, day: int)
    requires 1 <= month <= 12 && 1 <= day
    ensures ClampedDate(year, month, day)
         == if 1 <= year <= 9999
            then Ok(Date(year, month, if day <= MonthLength(year, month) then day else MonthLength(year, month)))
            else Err(OutOfRange)
  {
    if 1 <= year <= 9999 {
      DaysInMonthIsMonthLength(year, month);
    }
  }

  /** Months since the start of year 0. */
  function MonthNumber(d: Date): int { d.year * 12 + d.month - 1 }

  lemma DivisionByTwelve(index: int, q: int, r: int)
    requires index == 12 * q + r && 0 <= r < 12
    ensures index / 12 == q && index % 12 == r
  {
  }

  lemma MonthsLaterIs(year: int, month: int, months: int, y: int, m: int)
    requires 1 <= m <= 12 && 12 * y + m == 12 * year + month + months
    ensures MonthsLater(year, month, months) == (y, m)
  {
    DivisionByTwelve(month - 1 + months, y - year, m - 1);
  }

  /** A month step to the month `year`-`month` lands there, on the same day or on the last day of a shorter month;
      it fails exactly when that year is out of range. */
  lemma MonthStep(start: Date, months: int, year: int, month: int)
    requires ValidDate(start) && 1 <= month <= 12 && 12 * year + month - 1 == MonthNumber(start) + months
    ensures AddMonths(start, months)
         == if 1 <= year <= 9999
            then
              var last := MonthLength(year, month);
              Ok(Date(year, month, if start.day <= last then start.day else last))
            else Err(OutOfRange)
  {
    MonthsLaterIs(start.year, start.month, months, year, month);
    ClampedDay(year, month, start.day);
  }

  /** The month that lies `months` after the start. */
  lemma MonthTarget(start: Date, months: int) returns (year: int, month: int)
    ensures 1 <= month <= 12 && 12 * year + month - 1 == MonthNumber(start) + months
  {
    var target := MonthNumber(start) + months;
    year, month := target / 12, target % 12 + 1;
  }

  lemma MonthStepsAscend(start: Date, s: int, t: int)
    requires ValidDate(start) && 0 <= s < t && AddMonths(start, t).Ok?
    ensures AddMonths(start, s).Ok?
    ensures ValidDate(AddMonths(start, s).value) && ValidDate(AddMonths(start, t).value)
    ensures Before(AddMonths(start, s).value, AddMonths(start, t).value)
  {
    var year, month := MonthTarget(start, s);
    MonthStep(start, s, year, month);
    year, month := MonthTarget(start, t);
    MonthStep(start, t, year, month);
  }

  /** Later steps land on later dates, for every grain; once a step is out of range all later ones are. */
  lemma StepsAscend(start: Date, grain: Grain, s: int, t: int)
    requires ValidDate(start) && 0 <= s < t && AddGrain(start, grain, t).Ok?
    ensures AddGrain(start, grain, s).Ok?
    ensures ValidDate(AddGrain(start, grain, s).value) && ValidDate(AddGrain(start, grain, t).value)
    ensures Before(AddGrain(start, grain, s).value, AddGrain(start, grain, t).value)
  {
    if grain == Month {
      MonthStepsAscend(start, s, t);
    } else {
      OrdinalRange(start);
      OrdinalOrder(AddGrain(start, grain, s).value, AddGrain(start, grain, t).value);
    }
  }

  /** Day steps count days, with 0001-01-01 as day 1 and 9999-12-31 as the last; a week is seven of them. */
  lemma DayAndWeekSteps(start: Date, k: int)
    requires ValidDate(start)
    ensures AddGrain(start, Day, k).Ok? <==> 1 <= Ordinal(start) + k <= Ordinal(Date(9999, 12, 31))
    ensures AddGrain(start, Day, k).Ok? ==>
              var d := AddGrain(start, Day, k).value;
              ValidDate(d) && Ordinal(d) == Ordinal(start) + k
    ensures AddGrain(start, Week, k) == AddGrain(start, Day, 7 * k)
    ensures Ordinal(Date(1, 1, 1)) == 1
  {
    YearLength(9999);
    assert Ordinal(Date(9999, 12, 31)) == MAX_ORDINAL;
  }

  /** Step 0 is the start itself, so every positive step lands strictly after it. */
  lemma StepZero(start: Date, grain: Grain)
    requires ValidDate(start)
    ensures AddGrain(start, grain, 0) == Ok(start)
  {
    MonthStep(start, 0, start.year, start.month);
    FromOrdinalOf(start);
  }
}
