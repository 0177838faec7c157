/** Expiration dates of options and contract months of futures. */
module Expirations {
  import opened Wrappers
  import opened Decimal
  import opened Calendar

  /** A `u16` year, and a month and day of a byte each. */
  type UInt16 = x: int | 0 <= x < 0x1_0000
  type UInt8 = x: int | 0 <= x < 0x100

  datatype ExpirationDate = ExpirationDate(year: UInt16, month: UInt8, day: UInt8)

  /** A date as an expiration date: its year is cast to `u16`, and wraps. */
  function Truncated(d: Date): ExpirationDate
    requires IsDate(d)
  {
    ExpirationDate(d.year % 0x1_0000, d.month, d.day)
  }

  /** The cast keeps month and day, and the year exactly when it is not negative. */
  lemma TruncatedKeepsIff(d: Date)
    requires IsDate(d)
    ensures Truncated(d).month == d.month && Truncated(d).day == d.day
    ensures Truncated(d).year == d.year <==> d.year >= 0
    ensures Truncated(d).year == if d.year >= 0 then d.year else d.year + 0x1_0000
  {
  }

  // ---- Fridays ----

  function DaysUntilFriday(from: Weekday): (n: nat)
    ensures n <= 6
  {
    match from
    case Saturday => 6
    case Sunday => 5
    case Monday => 4
    case Tuesday => 3
    case Wednesday => 2
    case Thursday => 1
    case Friday => 0
  }

  predicate IsFriday(d: Date)
    requires IsDate(d)
  {
    WeekdayOf(d) == Friday
  }

  lemma FridayNumbers(n: int)
    ensures WeekdayOfNumber(n) == Friday <==> n % 7 == 5
    ensures (n + DaysUntilFriday(WeekdayOfNumber(n))) % 7 == 5
  {
  }

  lemma FridayIff(d: Date)
    requires IsDate(d)
    ensures IsFriday(d) <==> DayNumber(d) % 7 == 5
    ensures (DayNumber(d) + DaysUntilFriday(WeekdayOf(d))) % 7 == 5
  {
    FridayNumbers(DayNumber(d));
  }

  /** Two Fridays a week apart or less are one, or exactly a week apart. */
  lemma NoFridayBetween(a: int, b: int)
    requires a % 7 == 5 && b % 7 == 5 && a < b
    ensures a + 7 <= b
  {
  }

  function DaysToNextFriday(from: Weekday): (n: nat)
    ensures 1 <= n <= 7
  {
    match from
    case Friday => 7
    case other => DaysUntilFriday(other)
  }

  /** The next Friday; `None` where the original panics, past the last date. */
  function NextFridayFrom(today: Date): Option<ExpirationDate>
    requires IsDate(today)
  {
    match AddDays(today, DaysToNextFriday(WeekdayOf(today)))
    case Some(d) => Some(Truncated(d))
    case None => None
  }

  /** `t` is the least date after `today` that is a Friday. */
  ghost predicate IsNextFriday(today: Date, t: Date)
    requires IsDate(today)
  {
    && IsDate(t) && IsFriday(t)
    && Earlier(today, t)
    && forall u :: IsDate(u) && IsFriday(u) && Earlier(today, u) ==> !Earlier(u, t)
  }

  lemma NextFridayNumber(n: int)
    ensures var t := n + DaysToNextFriday(WeekdayOfNumber(n));
            t % 7 == 5 && forall u :: u % 7 == 5 && n < u ==> t <= u
  {
    FridayNumbers(n);
  }

  lemma LaterFriday(today: Date, u: Date)
    requires IsDate(today) && IsDate(u) && IsFriday(u) && Earlier(today, u)
    ensures DayNumber(today) + DaysToNextFriday(WeekdayOf(today)) <= DayNumber(u)
  {
    NextFridayNumber(DayNumber(today));
    FridayIff(u);
    DayNumberOrders(today, u);
  }

  lemma ReachedIsNext(today: Date, t: Date)
    requires IsDate(today) && IsDate(t) && DayNumber(t) == DayNumber(today) + DaysToNextFriday(WeekdayOf(today))
    ensures IsNextFriday(today, t)
  {
    NextFridayNumber(DayNumber(today));
    FridayIff(t);
    DayNumberOrders(today, t);
    forall u | IsDate(u) && IsFriday(u) && Earlier(today, u)
      ensures !Earlier(u, t)
    {
      LaterFriday(today, u);
      DayNumberOrders(u, t);
    }
  }

  lemma NextFridayFound(today: Date) returns (t: Option<Date>)
    requires IsDate(today)
    ensures NextFridayFrom(today).Some? <==> t.Some?
    ensures match t
            case Some(t) => IsNextFriday(today, t) && 1 <= DayNumber(t) - DayNumber(today) <= 7
                            && NextFridayFrom(today) == Some(Truncated(t))
            case None => forall u :: IsDate(u) && IsFriday(u) ==> !Earlier(today, u)
  {
    t := AddDays(today, DaysToNextFriday(WeekdayOf(today)));
    match t
    case Some(t) =>
      ReachedIsNext(today, t);
    case None =>
      forall u | IsDate(u) && IsFriday(u)
        ensures !Earlier(today, u)
      {
        if Earlier(today, u) {
          LaterFriday(today, u);
          DayNumberInRange(u);
          DayNumberInRange(today);
        }
      }
  }

  /** The next Friday is the least Friday strictly later, one to seven days on, across
      month, year and leap-day boundaries. It exists unless there is no later Friday
      among the dates at all. A year before 0 comes out 65536 years later. */
  lemma NextFridayIsLeast(today: Date)
    requires IsDate(today)
    ensures match NextFridayFrom(today)
            case Some(e) =>
              exists t :: IsNextFriday(today, t) && 1 <= DayNumber(t) - DayNumber(today) <= 7
                       && WeekdayOf(t) == Friday
                       && e.month == t.month && e.day == t.day
                       && e.year == if t.year >= 0 then t.year else t.year + 0x1_0000
            case None => forall u :: IsDate(u) && IsFriday(u) ==> !Earlier(today, u)
  {
    var found := NextFridayFound(today);
    if found.Some? {
      TruncatedKeepsIff(found.value);
    }
  }

  // ---- third Fridays ----

  /** The third Friday of a month, the way the original finds it. */
  function ThirdFridayOf(year: int, month: int): (t: Option<Date>)
    requires IsDate(Date(year, month, 1))
    ensures t.Some? ==> IsDate(t.value)
  {
    var first := Date(year, month, 1);
    AddDays(first, DaysUntilFriday(WeekdayOf(first)) + 14)
  }

  /** The month after a date's, if it is in the calendar. */
  function NextMonth(d: Date): (first: Option<Date>)
    requires IsDate(d)
    ensures first.Some? ==> IsDate(first.value) && first.value.day == 1
  {
    if d.month < 12 then Some(Date(d.year, d.month + 1, 1))
    else if d.year < MAX_YEAR then Some(Date(d.year + 1, 1, 1))
    else None
  }

  /** This month's third Friday if the date is not past it, or else the next month's. */
  function Choose(today: Date, third: Option<Date>, next: Option<Date>): (t: Option<Date>)
    ensures t == None || t == third || t == next
  {
    match third
    case None => None
    case Some(t) => if Earlier(t, today) then next else Some(t)
  }

  /** The third Friday on or after a date; `None` where the original panics, for want
      of a next month in the calendar. */
  function ThirdFridayFrom(today: Date): Option<ExpirationDate>
    requires IsDate(today)
  {
    var next := match NextMonth(today)
                case Some(first) => ThirdFridayOf(first.year, first.month)
                case None => None;
    match Choose(today, ThirdFridayOf(today.year, today.month), next)
    case Some(t) => Some(Truncated(t))
    case None => None
  }

  predicate IsThirdFriday(d: Date)
    requires IsDate(d)
  {
    IsFriday(d) && 15 <= d.day <= 21
  }

  /** Within a month, a date's number and its day differ by a constant. */
  lemma SameMonth(d: Date, day: int)
    requires IsDate(d) && 1 <= day <= MonthLength(d.year, d.month)
    ensures IsDate(d.(day := day)) && DayNumber(d.(day := day)) == DayNumber(d) + day - d.day
  {
  }

  /** A month has at most one third Friday. */
  lemma OneThirdFriday(u: Date, t: Date)
    requires IsDate(u) && IsDate(t) && u.year == t.year && u.month == t.month
    requires IsThirdFriday(u) && IsThirdFriday(t)
    ensures u == t
  {
    SameMonth(u, t.day);
    FridayIff(u);
    FridayIff(t);
    if DayNumber(u) < DayNumber(t) {
      NoFridayBetween(DayNumber(u), DayNumber(t));
    } else if DayNumber(t) < DayNumber(u) {
      NoFridayBetween(DayNumber(t), DayNumber(u));
    }
  }

  lemma ThirdFridayNumber(n: int)
    ensures (n + (DaysUntilFriday(WeekdayOfNumber(n)) + 14)) % 7 == 5
  {
    FridayNumbers(n);
  }

  /** Two weeks past the first Friday of a month is its third. */
  lemma ThirdFridayFromFirst(first: Date, t: Date)
    requires IsDate(first) && first.day == 1
    requires t == first.(day := 1 + DaysUntilFriday(WeekdayOf(first)) + 14)
    ensures IsDate(t) && IsThirdFriday(t)
    ensures DayNumber(t) == DayNumber(first) + (DaysUntilFriday(WeekdayOf(first)) + 14)
  {
    SameMonth(first, t.day);
    ThirdFridayNumber(DayNumber(first));
    FridayIff(t);
  }

  /** The third Friday of a month, found from its first day. */
  lemma ThirdFridayFound(year: int, month: int) returns (t: Date)
    requires IsDate(Date(year, month, 1))
    ensures IsDate(t) && t.year == year && t.month == month && IsThirdFriday(t)
    ensures ThirdFridayOf(year, month) == Some(t)
  {
    var first := Date(year, month, 1);
    t := first.(day := 1 + DaysUntilFriday(WeekdayOf(first)) + 14);
    ThirdFridayFromFirst(first, t);
    AddDaysReaches(first, DaysUntilFriday(WeekdayOf(first)) + 14, t);
  }

  /** `t` is the least third Friday not before `today`. */
  ghost predicate IsNextThirdFriday(today: Date, t: Date)
    requires IsDate(today)
  {
    && IsDate(t) && IsThirdFriday(t)
    && !Earlier(t, today)
    && forall u :: IsDate(u) && IsThirdFriday(u) && !Earlier(u, today) ==> !Earlier(u, t)
  }

  lemma LeastInItsMonth(today: Date, third: Date)
    requires IsDate(today) && IsDate(third) && IsThirdFriday(third) && !Earlier(third, today)
    requires third.year == today.year && third.month == today.month
    ensures IsNextThirdFriday(today, third)
  {
    forall u | IsDate(u) && IsThirdFriday(u) && !Earlier(u, today)
      ensures !Earlier(u, third)
    {
      if u.year == today.year && u.month == today.month {
        OneThirdFriday(u, third);
      }
    }
  }

  /** Past its month's third Friday, a date has none left in the month. */
  lemma LateInMonth(today: Date, third: Date)
    requires IsDate(today) && IsDate(third) && IsThirdFriday(third) && Earlier(third, today)
    requires third.year == today.year && third.month == today.month
    ensures forall u :: IsDate(u) && IsThirdFriday(u) && u.year == today.year && u.month == today.month ==>
              Earlier(u, today)
  {
    forall u | IsDate(u) && IsThirdFriday(u) && u.year == today.year && u.month == today.month
      ensures Earlier(u, today)
    {
      OneThirdFriday(u, third);
    }
  }

  lemma LeastInNextMonth(today: Date, third: Date, next: Date)
    requires IsDate(today) && IsDate(third) && IsThirdFriday(third) && Earlier(third, today)
    requires third.year == today.year && third.month == today.month
    requires IsDate(next) && IsThirdFriday(next)
    requires NextMonth(today) == Some(next.(day := 1))
    ensures IsNextThirdFriday(today, next)
  {
    LateInMonth(today, third);
    forall u | IsDate(u) && IsThirdFriday(u) && !Earlier(u, today)
      ensures !Earlier(u, next)
    {
      if u.year == next.year && u.month == next.month {
        OneThirdFriday(u, next);
      }
    }
  }

  /** What is chosen between the third Fridays of this month and the next. */
  lemma ChosenIsLeast(today: Date, third: Date, next: Option<Date>)
    requires IsDate(today) && IsDate(third) && IsThirdFriday(third)
    requires third.year == today.year && third.month == today.month
    requires match next
             case Some(t) => IsDate(t) && IsThirdFriday(t) && NextMonth(today) == Some(t.(day := 1))
             case None => NextMonth(today) == None
    ensures match Choose(today, Some(third), next)
            case Some(t) => IsNextThirdFriday(today, t)
            case None => forall u :: IsDate(u) && IsThirdFriday(u) ==> Earlier(u, today)
  {
    if !Earlier(third, today) {
      LeastInItsMonth(today, third);
    } else if next.Some? {
      LeastInNextMonth(today, third, next.value);
    } else {
      LateInMonth(today, third);
    }
  }

  lemma NextThirdFridayFound(today: Date) returns (t: Option<Date>)
    requires IsDate(today)
    ensures ThirdFridayFrom(today).Some? <==> t.Some?
    ensures match t
            case Some(t) => IsNextThirdFriday(today, t) && ThirdFridayFrom(today) == Some(Truncated(t))
            case None => forall u :: IsDate(u) && IsThirdFriday(u) ==> Earlier(u, today)
  {
    var third := ThirdFridayFound(today.year, today.month);
    match NextMonth(today)
    case Some(first) =>
      var next := ThirdFridayFound(first.year, first.month);
      ChosenIsLeast(today, third, Some(next));
      t := Choose(today, Some(third), Some(next));
    case None =>
      ChosenIsLeast(today, third, None);
      t := Choose(today, Some(third), None);
  }

  /** `ThirdFridayFrom` gives the least third Friday not before the date, over the end
      of the year too. It fails only where no such date is left, which is past the
      third Friday of the last December there is. */
  lemma ThirdFridayIsLeast(today: Date)
    requires IsDate(today)
    ensures match ThirdFridayFrom(today)
            case Some(e) =>
              exists t :: IsNextThirdFriday(today, t)
                       && WeekdayOf(t) == Friday && 15 <= t.day <= 21
                       && e.month == t.month && e.day == t.day
                       && e.year == if t.year >= 0 then t.year else t.year + 0x1_0000
            case None => forall u :: IsDate(u) && IsThirdFriday(u) ==> Earlier(u, today)
  {
    var found := NextThirdFridayFound(today);
    if found.Some? {
      TruncatedKeepsIff(found.value);
    }
  }

  // ---- printing and reading ----

  /** `YYYYMMDD`, as the gateway takes expirations. */
  function PrintExpiration(e: ExpirationDate): string {
    Padded(e.year, 4) + Padded(e.month, 2) + Padded(e.day, 2)
  }

  /** Reads eight characters as year, month and day. */
  function ParseYyyymmdd(s: string): Option<ExpirationDate> {
    if |s| != 8 then None
    else
      match (ParseUnsigned(s[..4], 0xFFFF), ParseUnsigned(s[4..6], 0xFF), ParseUnsigned(s[6..8], 0xFF))
      case (Some(year), Some(month), Some(day)) => Some(ExpirationDate(year, month, day))
      case _ => None
  }

  lemma PaddedReadsBack(n: nat, width: nat, hi: nat)
    requires n <= hi
    ensures ParseUnsigned(Padded(n, width), hi) == Some(n)
  {
    ValueOfPadded(n, width);
    assert IsDigit(Padded(n, width)[0]);
  }

  /** The digits of a printed expiration date: four of the year, two of the month, two of
      the day, in this order. */
  lemma PrintedExpiration(e: ExpirationDate)
    requires e.year <= 9999 && e.month <= 99 && e.day <= 99
    ensures var s := PrintExpiration(e);
            && |s| == 8 && AllDigits(s)
            && ValueOf(s[..4]) == e.year && ValueOf(s[4..6]) == e.month && ValueOf(s[6..]) == e.day
  {
    var y, m, d := Padded(e.year, 4), Padded(e.month, 2), Padded(e.day, 2);
    PaddedLength(e.year, 4);
    PaddedLength(e.month, 2);
    PaddedLength(e.day, 2);
    assert Pow10(2) == 100;
    assert Pow10(4) == 100 * Pow10(2);
    ValueOfPadded(e.year, 4);
    ValueOfPadded(e.month, 2);
    ValueOfPadded(e.day, 2);
    var s := PrintExpiration(e);
    assert s[..4] == y && s[4..6] == m && s[6..] == d;
  }

  /** An expiration date survives printing and reading exactly when its year has at
      most four digits and its month and day two. */
  lemma ExpirationReadsBackIff(e: ExpirationDate)
    ensures ParseYyyymmdd(PrintExpiration(e)) == Some(e) <==> e.year <= 9999 && e.month <= 99 && e.day <= 99
  {
    var y, m, d := Padded(e.year, 4), Padded(e.month, 2), Padded(e.day, 2);
    var s := PrintExpiration(e);
    PaddedLength(e.year, 4);
    PaddedLength(e.month, 2);
    PaddedLength(e.day, 2);
    assert Pow10(2) == 100;
    assert Pow10(4) == 100 * Pow10(2);
    if |y| == 4 && |m| == 2 && |d| == 2 {
      assert s[..4] == y && s[4..6] == m && s[6..8] == d;
      PaddedReadsBack(e.year, 4, 0xFFFF);
      PaddedReadsBack(e.month, 2, 0xFF);
      PaddedReadsBack(e.day, 2, 0xFF);
    } else {
      assert |s| > 8;
    }
  }

  // ---- contract months ----

  datatype ContractMonth = ContractMonth(year: UInt16, month: UInt8)

  function WrapYear(year: int): UInt16 {
    year % 0x1_0000
  }

  /** The front month: past the 15th, the next month. The year's sum wraps. */
  function FrontFrom(year: UInt16, month: UInt8, day: UInt8): ContractMonth {
    if day > 15 then
      if month == 12 then ContractMonth(WrapYear(year + 1), 1)
      else ContractMonth(year, (month + 1) % 0x100)
    else ContractMonth(year, month)
  }

  function NextQuarterFrom(year: UInt16, month: UInt8, day: UInt8): ContractMonth {
    var quarter :=
      if month == 1 || month == 2 then 3
      else if month == 3 then if day > 15 then 6 else 3
      else if month == 4 || month == 5 then 6
      else if month == 6 then if day > 15 then 9 else 6
      else if month == 7 || month == 8 then 9
      else if month == 9 then if day > 15 then 12 else 9
      else if month == 10 || month == 11 then 12
      else if month == 12 then if day > 15 then 3 else 12
      else 3;
    ContractMonth(if month == 12 && quarter == 3 then WrapYear(year + 1) else year, quarter)
  }

  /** Months counted from the year 0. */
  function Index(c: ContractMonth): int {
    12 * c.year + c.month
  }

  predicate IsQuarterly(c: ContractMonth) {
    c.month == 3 || c.month == 6 || c.month == 9 || c.month == 12
  }

  /** The next quarterly month is the least one not before the front month of the same
      date, exactly when the year does not wrap: not in late December of the last year. */
  lemma NextQuarterIsLeastIff(year: UInt16, month: UInt8, day: UInt8)
    requires 1 <= month <= 12
    ensures var q, front := NextQuarterFrom(year, month, day), FrontFrom(year, month, day);
            && IsQuarterly(q)
            && Index(q) >= Index(front)
            && (forall c: ContractMonth :: IsQuarterly(c) && Index(c) >= Index(front) ==> Index(q) <= Index(c))
            && (Index(front) >= Index(ContractMonth(year, month)) <==> !(year == 0xFFFF && month == 12 && day > 15))
  {
  }

  /** The front month is the date's own up to the 15th and the one after it from the 16th
      on, in every month, unless the year wraps. */
  lemma FrontIs(year: UInt16, month: UInt8, day: UInt8)
    requires 1 <= month <= 12
    ensures 1 <= FrontFrom(year, month, day).month <= 12
    ensures year == 0xFFFF && month == 12 && day > 15 ==> FrontFrom(year, month, day) == ContractMonth(0, 1)
    ensures !(year == 0xFFFF && month == 12 && day > 15) ==>
              Index(FrontFrom(year, month, day)) == 12 * year + month + if day > 15 then 1 else 0
  {
  }

  /** The front month is monotone in the date, for every year that does not wrap. */
  lemma FrontIsMonotone(y: UInt16, m: UInt8, d: UInt8, z: UInt16, n: UInt8, e: UInt8)
    requires 1 <= m <= 12 && 1 <= n <= 12 && y < 0xFFFF && z < 0xFFFF
    requires y < z || (y == z && (m < n || (m == n && d <= e)))
    ensures Index(FrontFrom(y, m, d)) <= Index(FrontFrom(z, n, e))
  {
  }

  /** So is the next quarterly month: the least one of a later front month is no earlier. */
  lemma NextQuarterIsMonotone(y: UInt16, m: UInt8, d: UInt8, z: UInt16, n: UInt8, e: UInt8)
    requires 1 <= m <= 12 && 1 <= n <= 12 && y < 0xFFFF && z < 0xFFFF
    requires y < z || (y == z && (m < n || (m == n && d <= e)))
    ensures Index(NextQuarterFrom(y, m, d)) <= Index(NextQuarterFrom(z, n, e))
  {
    FrontIsMonotone(y, m, d, z, n, e);
    NextQuarterIsLeastIff(y, m, d);
    NextQuarterIsLeastIff(z, n, e);
  }
}
