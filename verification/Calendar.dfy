/** The proleptic Gregorian calendar: dates, their day numbers, weekdays. The
    range of years is that of the `time` crate's dates. */
module Calendar {
  import opened Wrappers

  const MIN_YEAR: int := -9999
  const MAX_YEAR: int := 9999

  datatype Date = Date(year: int, month: int, day: int)

  predicate IsLeap(year: int) {
    year % 4 == 0 && (year % 100 != 0 || year % 400 == 0)
  }

  function YearLength(year: int): int {
    if IsLeap(year) then 366 else 365
  }

  function MonthLength(year: int, month: int): (n: int)
    ensures 28 <= n <= 31
  {
    if month == 2 then if IsLeap(year) then 29 else 28
    else if month == 4 || month == 6 || month == 9 || month == 11 then 30
    else 31
  }

  predicate IsDate(d: Date) {
    && MIN_YEAR <= d.year <= MAX_YEAR
    && 1 <= d.month <= 12
    && 1 <= d.day <= MonthLength(d.year, d.month)
  }

  /** The order of dates: by year, then month, then day. */
  predicate Earlier(a: Date, b: Date) {
    || a.year < b.year
    || (a.year == b.year && (a.month < b.month || (a.month == b.month && a.day < b.day)))
  }

  // ---- day numbers ----

  /** Days before the first of January of a year. */
  function YearStart(year: int): int {
    365 * year + (year - 1) / 4 - (year - 1) / 100 + (year - 1) / 400
  }

  lemma YearStartStep(year: int)
    ensures YearStart(year + 1) == YearStart(year) + YearLength(year)
  {
    FourthYears(year);
    Centuries(year);
    FourthCenturies(year);
    if year % 400 == 0 { FourthCenturyIsCentury(year); }
    if year % 100 == 0 { CenturyIsFourthYear(year); }
  }

  lemma FourthYears(year: int)
    ensures year / 4 - (year - 1) / 4 == if year % 4 == 0 then 1 else 0
  {
  }

  lemma Centuries(year: int)
    ensures year / 100 - (year - 1) / 100 == if year % 100 == 0 then 1 else 0
  {
  }

  lemma FourthCenturies(year: int)
    ensures year / 400 - (year - 1) / 400 == if year % 400 == 0 then 1 else 0
  {
  }

  lemma FourthCenturyIsCentury(year: int)
    requires year % 400 == 0
    ensures year % 100 == 0
  {
  }

  lemma CenturyIsFourthYear(year: int)
    requires year % 100 == 0
    ensures year % 4 == 0
  {
  }

  lemma {:induction false} YearStartGrows(a: int, b: int)
    requires a <= b
    ensures YearStart(b) >= YearStart(a) + 365 * (b - a)
    decreases b - a
  {
    if a < b {
      YearStartGrows(a, b - 1);
      YearStartStep(b - 1);
    }
  }

  /** Days of a year before the first of a month; of all of it for month 13. */
  function MonthStart(year: int, month: int): (n: int)
    requires 1 <= month <= 13
    ensures 28 * (month - 1) <= n
    decreases month
  {
    if month == 1 then 0 else MonthStart(year, month - 1) + MonthLength(year, month - 1)
  }

  lemma MonthStartOfAll(year: int)
    ensures MonthStart(year, 13) == YearLength(year)
  {
    assert MonthStart(year, 4) == if IsLeap(year) then 91 else 90;
    assert MonthStart(year, 7) == MonthStart(year, 4) + 91;
    assert MonthStart(year, 10) == MonthStart(year, 7) + 92;
  }

  lemma {:induction false} MonthStartGrows(year: int, a: int, b: int)
    requires 1 <= a < b <= 13
    ensures MonthStart(year, a) + MonthLength(year, a) <= MonthStart(year, b)
    decreases b - a
  {
    if a + 1 < b {
      MonthStartGrows(year, a, b - 1);
    }
  }

  function DayNumber(d: Date): int
    requires IsDate(d)
  {
    YearStart(d.year) + MonthStart(d.year, d.month) + d.day - 1
  }

  const MIN_DAY: int := YearStart(MIN_YEAR)
  const MAX_DAY: int := YearStart(MAX_YEAR + 1) - 1

  /** A date's number lies within its year's. */
  lemma DayNumberInYear(d: Date)
    requires IsDate(d)
    ensures YearStart(d.year) <= DayNumber(d) < YearStart(d.year + 1)
  {
    MonthStartOfAll(d.year);
    MonthStartGrows(d.year, d.month, 13);
    YearStartStep(d.year);
  }

  lemma DayNumberInRange(d: Date)
    requires IsDate(d)
    ensures MIN_DAY <= DayNumber(d) <= MAX_DAY
  {
    DayNumberInYear(d);
    YearStartGrows(MIN_YEAR, d.year);
    YearStartGrows(d.year + 1, MAX_YEAR + 1);
  }

  lemma EarlierHasSmallerNumber(a: Date, b: Date)
    requires IsDate(a) && IsDate(b) && Earlier(a, b)
    ensures DayNumber(a) < DayNumber(b)
  {
    if a.year < b.year {
      DayNumberInYear(a);
      DayNumberInYear(b);
      YearStartGrows(a.year + 1, b.year);
    } else if a.month < b.month {
      MonthStartGrows(a.year, a.month, b.month);
    }
  }

  /** Day numbers order dates as dates are ordered, and tell them apart. */
  lemma DayNumberOrders(a: Date, b: Date)
    requires IsDate(a) && IsDate(b)
    ensures Earlier(a, b) <==> DayNumber(a) < DayNumber(b)
    ensures a == b <==> DayNumber(a) == DayNumber(b)
  {
    if Earlier(a, b) {
      EarlierHasSmallerNumber(a, b);
    } else if Earlier(b, a) {
      EarlierHasSmallerNumber(b, a);
    }
  }

  // ---- dates of day numbers ----

  function YearOf(n: int, from: int): (year: int)
    requires YearStart(from) <= n
    ensures from <= year && YearStart(year) <= n < YearStart(year + 1)
    decreases n - YearStart(from)
  {
    YearStartStep(from);
    if n < YearStart(from + 1) then from else YearOf(n, from + 1)
  }

  function MonthOf(year: int, ordinal: int, from: int): (month: int)
    requires 1 <= from <= 12 && MonthStart(year, from) <= ordinal < YearLength(year)
    ensures from <= month <= 12
    ensures MonthStart(year, month) <= ordinal < MonthStart(year, month + 1)
    decreases 12 - from
  {
    MonthStartOfAll(year);
    if ordinal < MonthStart(year, from + 1) then from else MonthOf(year, ordinal, from + 1)
  }

  function DateOf(n: int): (d: Date)
    requires MIN_DAY <= n <= MAX_DAY
    ensures IsDate(d) && DayNumber(d) == n
  {
    var year := YearOf(n, MIN_YEAR);
    assert year <= MAX_YEAR by {
      if year > MAX_YEAR {
        YearStartGrows(MAX_YEAR + 1, year);
      }
    }
    YearStartStep(year);
    var ordinal := n - YearStart(year);
    var month := MonthOf(year, ordinal, 1);
    Date(year, month, ordinal - MonthStart(year, month) + 1)
  }

  /** The two conversions are inverse; `DateOf` states the other half. */
  lemma DateOfDayNumber(d: Date)
    requires IsDate(d)
    ensures MIN_DAY <= DayNumber(d) <= MAX_DAY && DateOf(DayNumber(d)) == d
  {
    DayNumberInRange(d);
    DayNumberOrders(DateOf(DayNumber(d)), d);
  }

  /** A date so many days later; `None` where the original's addition panics,
      outside the range of dates. */
  function AddDays(d: Date, days: int): (r: Option<Date>)
    requires IsDate(d)
    ensures r.Some? <==> MIN_DAY <= DayNumber(d) + days <= MAX_DAY
    ensures r.Some? ==> IsDate(r.value) && DayNumber(r.value) == DayNumber(d) + days
  {
    var n := DayNumber(d) + days;
    if MIN_DAY <= n <= MAX_DAY then Some(DateOf(n)) else None
  }

  lemma AddDaysReaches(d: Date, days: int, t: Date)
    requires IsDate(d) && IsDate(t) && DayNumber(t) == DayNumber(d) + days
    ensures AddDays(d, days) == Some(t)
  {
    DateOfDayNumber(t);
  }

  // ---- weekdays ----

  datatype Weekday = Monday | Tuesday | Wednesday | Thursday | Friday | Saturday | Sunday

  function WeekdayOf(d: Date): Weekday
    requires IsDate(d)
  {
    WeekdayOfNumber(DayNumber(d))
  }

  function WeekdayOfNumber(n: int): Weekday {
    var i := (n + 6) % 7;
    if i == 0 then Monday
    else if i == 1 then Tuesday
    else if i == 2 then Wednesday
    else if i == 3 then Thursday
    else if i == 4 then Friday
    else if i == 5 then Saturday
    else Sunday
  }

  /** A known week, which fixes the weekday of every day number. */
  lemma KnownWeek()
    ensures WeekdayOf(Date(2025, 3, 17)) == Monday && WeekdayOf(Date(2025, 3, 18)) == Tuesday
    ensures WeekdayOf(Date(2025, 3, 19)) == Wednesday && WeekdayOf(Date(2025, 3, 20)) == Thursday
    ensures WeekdayOf(Date(2025, 3, 21)) == Friday && WeekdayOf(Date(2025, 3, 22)) == Saturday
    ensures WeekdayOf(Date(2025, 3, 23)) == Sunday
  {
    assert MonthStart(2025, 3) == 59;
  }

  lemma SevenDaysOn(n: int)
    ensures WeekdayOfNumber(n + 7) == WeekdayOfNumber(n)
  {
  }

  // ---- the Gregorian calendar, in closed form ----

  /** The days of each month, by the rule of knuckles and of leap years. */
  lemma DatesAre(d: Date)
    ensures IsDate(d)
       <==> && -9999 <= d.year <= 9999
            && 1 <= d.month <= 12
            && var leap := d.year % 400 == 0 || (d.year % 100 != 0 && d.year % 4 == 0);
               1 <= d.day <= [31, 28, 31, 30, 31, 30, 31, 31, 30, 31, 30, 31][d.month - 1]
                             + if d.month == 2 && leap then 1 else 0
  {
  }

  /** The days of a year before each month, counting years from March. */
  lemma MonthStarts(year: int)
    ensures MonthStart(year, 1) == 0 && MonthStart(year, 2) == 31
    ensures var leap := if IsLeap(year) then 1 else 0;
            && MonthStart(year, 3) == 59 + leap && MonthStart(year, 4) == 90 + leap
            && MonthStart(year, 5) == 120 + leap && MonthStart(year, 6) == 151 + leap
            && MonthStart(year, 7) == 181 + leap && MonthStart(year, 8) == 212 + leap
            && MonthStart(year, 9) == 243 + leap && MonthStart(year, 10) == 273 + leap
            && MonthStart(year, 11) == 304 + leap && MonthStart(year, 12) == 334 + leap
  {
    assert MonthStart(year, 4) == if IsLeap(year) then 91 else 90;
    assert MonthStart(year, 7) == MonthStart(year, 4) + 91;
    assert MonthStart(year, 10) == MonthStart(year, 7) + 92;
  }

  /** The day number in closed form: years begin in March, so that the leap day is the
      last of its year, and five months from March on have 153 days. */
  lemma DayNumberIs(d: Date)
    requires IsDate(d)
    ensures var y := if d.month <= 2 then d.year - 1 else d.year;
            var m := (d.month + 9) % 12;
            DayNumber(d) == 365 * y + y / 4 - y / 100 + y / 400 + (153 * m + 2) / 5 + 58 + d.day
  {
    MonthStarts(d.year);
    DaysFromMarch(d.month);
    if d.month > 2 {
      LeapYearStart(d.year);
    }
  }

  lemma LeapYearStart(year: int)
    ensures YearStart(year) + (if IsLeap(year) then 1 else 0) == 365 * year + year / 4 - year / 100 + year / 400
  {
    FourthYears(year);
    Centuries(year);
    FourthCenturies(year);
    if year % 400 == 0 { FourthCenturyIsCentury(year); }
    if year % 100 == 0 { CenturyIsFourthYear(year); }
  }

  lemma DaysFromMarch(month: int)
    requires 1 <= month <= 12
    ensures (153 * ((month + 9) % 12) + 2) / 5
         == [306, 337, 0, 31, 61, 92, 122, 153, 184, 214, 245, 275][month - 1]
  {
  }
}
