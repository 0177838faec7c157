/** Timestamp fields: the five forms in which they arrive, and how they are told
    apart. Moments are whole seconds since the Unix epoch. */
module DateTimes {
  import opened Wrappers
  import opened Decimal
  import opened Calendar
  import opened Blanks
  import Errors

  /** A date and time of day without a zone. */
  datatype Civil = Civil(date: Date, hour: nat, minute: nat, second: nat)

  predicate IsCivil(c: Civil) {
    IsDate(c.date) && c.hour < 24 && c.minute < 60 && c.second < 60
  }

  function Midnight(date: Date): Civil {
    Civil(date, 0, 0, 0)
  }

  datatype Resolution = At(moment: int) | Ambiguous | Impossible

  /** The time zone table: the first zone of a name, and what a civil time is in a zone. */
  datatype Zones = Zones(find: string -> Option<Errors.Zone>, resolve: (Civil, Errors.Zone) -> Resolution)

  datatype TimeError = UnknownZone | AmbiguousTime | ImpossibleTime | OutOfRange | Unreadable

  // ---- moments ----

  const EPOCH_DAY: int := YearStart(1970)
  const DAY_SECONDS: int := 86400

  /** The timestamps the `time` crate accepts. */
  const MIN_TIMESTAMP: int := -377705116800
  const MAX_TIMESTAMP: int := 253402300799

  function Seconds(c: Civil): int
    requires IsCivil(c)
  {
    (DayNumber(c.date) - EPOCH_DAY) * DAY_SECONDS + c.hour * 3600 + c.minute * 60 + c.second
  }

  predicate InRange(t: int) {
    MIN_TIMESTAMP <= t <= MAX_TIMESTAMP
  }

  lemma RangeIsOfDays()
    ensures MIN_TIMESTAMP == (MIN_DAY - EPOCH_DAY) * DAY_SECONDS
    ensures MAX_TIMESTAMP == (MAX_DAY + 1 - EPOCH_DAY) * DAY_SECONDS - 1
  {
  }

  /** The timestamps in range are those of the civil times that exist. */
  lemma SecondsInRange(c: Civil)
    requires IsCivil(c)
    ensures InRange(Seconds(c))
  {
    RangeIsOfDays();
    DayNumberInRange(c.date);
  }

  function CivilOf(t: int): (c: Civil)
    requires InRange(t)
    ensures IsCivil(c) && Seconds(c) == t
  {
    RangeIsOfDays();
    var rest := t % DAY_SECONDS;
    ClockOfSeconds(rest);
    Civil(DateOf(EPOCH_DAY + t / DAY_SECONDS), rest / 3600, rest % 3600 / 60, rest % 3600 % 60)
  }

  lemma SecondsOfDay(c: Civil)
    requires IsCivil(c)
    ensures 0 <= Seconds(c) - (DayNumber(c.date) - EPOCH_DAY) * DAY_SECONDS < DAY_SECONDS
  {
  }

  /** The two conversions are inverse: every civil time is that of its timestamp. */
  lemma CivilOfSeconds(c: Civil)
    requires IsCivil(c)
    ensures InRange(Seconds(c)) && CivilOf(Seconds(c)) == c
  {
    SecondsInRange(c);
    var d := CivilOf(Seconds(c));
    SecondsOfDay(c);
    SecondsOfDay(d);
    DayNumberOrders(c.date, d.date);
    SameClock(c.hour, c.minute, c.second, d.hour, d.minute, d.second);
  }

  lemma SameClock(h: nat, m: nat, s: nat, hour: nat, minute: nat, second: nat)
    requires m < 60 && s < 60 && minute < 60 && second < 60
    requires h * 3600 + m * 60 + s == hour * 3600 + minute * 60 + second
    ensures h == hour && m == minute && s == second
  {
  }

  lemma ClockOfSeconds(n: nat)
    requires n < DAY_SECONDS
    ensures n / 3600 < 24
    ensures n == n / 3600 * 3600 + n % 3600 / 60 * 60 + n % 3600 % 60
  {
    var rest := n % 3600;
    assert rest == rest / 60 * 60 + rest % 60;
  }

  // ---- reading ----

  predicate IsSign(c: char) {
    c == '-' || c == '+'
  }

  /** How long a date at the front of a text is: a year may carry a sign. */
  function DateLength(s: string): nat {
    if s != [] && IsSign(s[0]) then 9 else 8
  }

  lemma DigitsWithin(s: string, i: nat, j: nat)
    requires AllDigits(s) && i <= j <= |s|
    ensures AllDigits(s[i..j])
  {
  }

  function DateFrom(negative: bool, year: nat, month: nat, day: nat): (date: Option<Date>)
    ensures date.Some? ==> IsDate(date.value)
  {
    var date := Date(if negative then -(year as int) else year, month, day);
    if IsDate(date) then Some(date) else None
  }

  /** Four digits of a year, two of a month, two of a day. */
  function ReadDigits(negative: bool, digits: string): (date: Option<Date>)
    ensures date.Some? ==> IsDate(date.value) && |digits| == 8 && AllDigits(digits)
  {
    if |digits| != 8 || !AllDigits(digits) then None
    else
      DigitsWithin(digits, 0, 4);
      DigitsWithin(digits, 4, 6);
      DigitsWithin(digits, 6, 8);
      DateFrom(negative, ValueOf(digits[0..4]), ValueOf(digits[4..6]), ValueOf(digits[6..8]))
  }

  function ReadDate(s: string): (date: Option<Date>)
    ensures date.Some? ==> IsDate(date.value)
  {
    if s != [] && IsSign(s[0]) then ReadDigits(s[0] == '-', s[1..]) else ReadDigits(false, s)
  }

  /** Hour, minute and second, two digits each. */
  function ReadClock(s: string): Option<(nat, nat, nat)> {
    if |s| != 8 || s[2] != ':' || s[5] != ':' then None
    else if !AllDigits(s[..2]) || !AllDigits(s[3..5]) || !AllDigits(s[6..]) then None
    else
      var hour, minute, second := ValueOf(s[..2]), ValueOf(s[3..5]), ValueOf(s[6..]);
      if hour < 24 && minute < 60 && second < 60 then Some((hour, minute, second)) else None
  }

  /** A date, a gap and a time of day. */
  function ReadCivil(s: string, gap: string): (c: Option<Civil>)
    ensures c.Some? ==> IsCivil(c.value)
  {
    var n := DateLength(s);
    if |s| < n + |gap| || s[n..n + |gap|] != gap then None
    else
      match (ReadDate(s[..n]), ReadClock(s[n + |gap|..]))
      case (Some(date), Some(clock)) => Some(Civil(date, clock.0, clock.1, clock.2))
      case _ => None
  }

  /** The place of the last blank before `n`. */
  function LastBlank(s: string, n: nat): (i: Option<nat>)
    requires n <= |s|
    ensures match i
            case Some(k) => k < n && s[k] == ' ' && forall j :: k < j < n ==> s[j] != ' '
            case None => forall j :: 0 <= j < n ==> s[j] != ' '
  {
    if n == 0 then None else if s[n - 1] == ' ' then Some(n - 1) else LastBlank(s, n - 1)
  }

  function Utc(field: string): Option<Civil> {
    ReadCivil(field, "-")
  }

  /** A civil time, and behind the last blank the name of its zone. */
  function Zoned(field: string): Option<(Civil, string)> {
    match LastBlank(field, |field|)
    case None => None
    case Some(i) =>
      match ReadCivil(field[..i], " ")
      case None => None
      case Some(c) => Some((c, field[i + 1..]))
  }

  function Local(field: string): Option<Civil> {
    ReadCivil(field, "  ")
  }

  function Day(field: string): Option<Date> {
    if |field| == 8 then ReadDate(field) else None
  }

  function Timestamp(field: string): Option<int> {
    ParseInt(field, -0x8000_0000_0000_0000, 0x7FFF_FFFF_FFFF_FFFF)
  }

  function Resolve(zones: Zones, c: Civil, zone: Errors.Zone): Result<int, TimeError> {
    match zones.resolve(c, zone)
    case At(moment) => Success(moment)
    case Ambiguous => Failure(AmbiguousTime)
    case Impossible => Failure(ImpossibleTime)
  }

  function ResolveIn(zones: Zones, c: Civil, name: string): Result<int, TimeError> {
    match zones.find(Trim(name))
    case Some(zone) => Resolve(zones, c, zone)
    case None => Failure(UnknownZone)
  }

  function OfTimestamp(field: string): Result<int, TimeError> {
    match Timestamp(field)
    case None => Failure(Unreadable)
    case Some(t) => if InRange(t) then Success(t) else Failure(OutOfRange)
  }

  function ParseDateTime(zones: Zones, field: string, session: Option<Errors.Zone>): Result<int, TimeError> {
    if Utc(field).Some? then Success(Seconds(Utc(field).value))
    else if Zoned(field).Some? then ResolveIn(zones, Zoned(field).value.0, Zoned(field).value.1)
    else if session.Some? && Local(field).Some? then Resolve(zones, Local(field).value, session.value)
    else if session.Some? && Day(field).Some? then Resolve(zones, Midnight(Day(field).value), session.value)
    else OfTimestamp(field)
  }

  // ---- telling the forms apart ----

  /** What follows the date in a civil time: the gap, then a time of day. */
  lemma CivilShape(s: string, gap: string)
    requires ReadCivil(s, gap).Some?
    ensures var n := DateLength(s);
            && |s| == n + |gap| + 8
            && s[n..n + |gap|] == gap
            && IsDigit(s[n + |gap|]) && s[n + |gap| + 2] == ':'
  {
    var n := DateLength(s);
    var clock := s[n + |gap|..];
    assert IsDigit(clock[..2][0]);
    assert s[n + |gap| + 2] == clock[2];
  }

  lemma ZonedShape(field: string)
    requires Zoned(field).Some?
    ensures var n := DateLength(field);
            |field| > n + 9 && field[n] == ' ' && IsDigit(field[n + 1]) && field[n + 3] == ':'
  {
    var i := LastBlank(field, |field|).value;
    var head := field[..i];
    CivilShape(head, " ");
    var n := DateLength(head);
    assert head[n..n + 1][0] == head[n];
    assert DateLength(field) == n;
  }

  lemma UtcShape(field: string)
    requires Utc(field).Some?
    ensures var n := DateLength(field); |field| == n + 9 && field[n] == '-' && field[n + 3] == ':'
  {
    CivilShape(field, "-");
    var n := DateLength(field);
    assert field[n..n + 1][0] == field[n];
  }

  lemma LocalShape(field: string)
    requires Local(field).Some?
    ensures var n := DateLength(field);
            |field| == n + 10 && field[n] == ' ' && field[n + 1] == ' ' && field[n + 4] == ':'
  {
    CivilShape(field, "  ");
    var n := DateLength(field);
    assert field[n..n + 2][0] == field[n] && field[n..n + 2][1] == field[n + 1];
  }

  lemma ColonIsNoTimestamp(field: string, i: nat)
    requires 1 <= i < |field| && field[i] == ':'
    ensures Timestamp(field).None?
  {
    assert field[1..][i - 1] == ':';
  }

  /** The form of a field. Only the dates of the short form could be read otherwise. */
  datatype Form = UtcForm | ZonedForm | LocalForm | DayForm | TimestampForm

  predicate Accepts(form: Form, field: string) {
    match form
    case UtcForm => Utc(field).Some?
    case ZonedForm => Zoned(field).Some?
    case LocalForm => Local(field).Some?
    case DayForm => Day(field).Some?
    case TimestampForm => Timestamp(field).Some?
  }

  /** The three forms with a time of day exclude every other form. */
  lemma CivilFormsApart(field: string, form: Form)
    requires Accepts(form, field)
    ensures Utc(field).Some? ==> form == UtcForm
    ensures Zoned(field).Some? ==> form == ZonedForm
    ensures Local(field).Some? ==> form == LocalForm
  {
    var n := DateLength(field);
    if Utc(field).Some? { UtcShape(field); ColonIsNoTimestamp(field, n + 3); }
    if Zoned(field).Some? { ZonedShape(field); ColonIsNoTimestamp(field, n + 3); }
    if Local(field).Some? { LocalShape(field); ColonIsNoTimestamp(field, n + 4); }
  }

  /** A date of eight digits is always a timestamp too, and one in range. */
  lemma DayIsTimestamp(field: string)
    requires Day(field).Some?
    ensures Timestamp(field) == Some(ValueOf(field)) && InRange(ValueOf(field))
  {
    ValueBelow(field);
    assert Pow10(2) == 100 && Pow10(4) == 100 * Pow10(2) && Pow10(8) == 100 * 100 * Pow10(4);
  }

  lemma {:induction false} ValueBelow(s: string)
    requires AllDigits(s)
    ensures ValueOf(s) < Pow10(|s|)
  {
    if s == [] {
    } else {
      ValueBelow(s[..|s| - 1]);
    }
  }

  /** At most one form accepts a field, except that a date is also a timestamp. */
  lemma FormsApart(field: string, a: Form, b: Form)
    requires Accepts(a, field) && Accepts(b, field)
    ensures a == b || (a == DayForm && b == TimestampForm) || (a == TimestampForm && b == DayForm)
  {
    CivilFormsApart(field, a);
    CivilFormsApart(field, b);
  }

  /** The session's zone matters to the local form and the date form alone. Without a
      zone a local time is unreadable, and a date is read as a timestamp. */
  lemma SessionZoneMatters(zones: Zones, field: string, session: Option<Errors.Zone>)
    ensures var r, plain := ParseDateTime(zones, field, session), ParseDateTime(zones, field, None);
            if Local(field).Some? then
              plain == Failure(Unreadable)
              && (session.Some? ==> r == Resolve(zones, Local(field).value, session.value))
            else if Day(field).Some? then
              plain == Success(ValueOf(field))
              && (session.Some? ==> r == Resolve(zones, Midnight(Day(field).value), session.value))
            else r == plain
  {
    if Local(field).Some? {
      OnlyLocal(field);
    } else if Day(field).Some? {
      DayIsTimestamp(field);
      NotCivil(field, DayForm);
    }
  }

  lemma OnlyLocal(field: string)
    requires Local(field).Some?
    ensures Utc(field).None? && Zoned(field).None? && Timestamp(field).None?
  {
    CivilFormsApart(field, LocalForm);
    if Timestamp(field).Some? { CivilFormsApart(field, TimestampForm); }
  }

  lemma NotCivil(field: string, form: Form)
    requires Accepts(form, field) && (form == DayForm || form == TimestampForm)
    ensures Utc(field).None? && Zoned(field).None? && Local(field).None?
  {
    CivilFormsApart(field, form);
  }

  // ---- printing ----

  function PrintDate(d: Date): string
    requires IsDate(d)
  {
    var year := if d.year < 0 then -d.year else d.year;
    var digits := Padded(year, 4) + Padded(d.month, 2) + Padded(d.day, 2);
    if d.year < 0 then ['-'] + digits else digits
  }

  function PrintClock(c: Civil): string {
    Padded(c.hour, 2) + [':'] + Padded(c.minute, 2) + [':'] + Padded(c.second, 2)
  }

  function PrintCivil(c: Civil, gap: string): string
    requires IsCivil(c)
  {
    PrintDate(c.date) + gap + PrintClock(c)
  }

  const SECOND: int := 1_000_000_000

  /** The second that a moment in nanoseconds lies in. */
  function SecondOf(moment: Errors.Instant): int {
    moment / SECOND
  }

  /** How a moment is written into a request: the second it lies in, in UTC. */
  function ToField(moment: Errors.Instant): string
    requires InRange(SecondOf(moment))
  {
    PrintCivil(CivilOf(SecondOf(moment)), " ") + " UTC"
  }

  lemma PaddedOf(n: nat, width: nat)
    requires width >= 1 && n < Pow10(width)
    ensures |Padded(n, width)| == width && ValueOf(Padded(n, width)) == n
  {
    PaddedLength(n, width);
    ValueOfPadded(n, width);
  }

  lemma Widths()
    ensures Pow10(2) == 100 && Pow10(4) == 10000
  {
    assert Pow10(4) == 100 * Pow10(2);
  }

  lemma Parts(a: string, b: string, c: string)
    ensures var s := a + b + c;
            s[..|a|] == a && s[|a|..|a| + |b|] == b && s[|a| + |b|..] == c
  {
  }

  lemma DigitsRead(negative: bool, y: string, m: string, d: string)
    requires |y| == 4 && |m| == 2 && |d| == 2 && AllDigits(y) && AllDigits(m) && AllDigits(d)
    ensures ReadDigits(negative, y + m + d) == DateFrom(negative, ValueOf(y), ValueOf(m), ValueOf(d))
  {
    var s := y + m + d;
    Parts(y, m, d);
    assert s[0..4] == s[..4] && s[6..8] == s[6..];
  }

  lemma PaddedDateReads(negative: bool, year: nat, month: nat, day: nat)
    requires year < 10000 && month < 100 && day < 100
    ensures var digits := Padded(year, 4) + Padded(month, 2) + Padded(day, 2);
            |digits| == 8 && IsDigit(digits[0]) && ReadDigits(negative, digits) == DateFrom(negative, year, month, day)
  {
    Widths();
    PaddedOf(year, 4);
    PaddedOf(month, 2);
    PaddedOf(day, 2);
    DigitsRead(negative, Padded(year, 4), Padded(month, 2), Padded(day, 2));
  }

  /** The year may carry either sign, and a plus changes nothing. */
  lemma SignedReads(digits: string)
    requires |digits| == 8 && IsDigit(digits[0])
    ensures DateLength(digits) == 8 && ReadDate(digits) == ReadDigits(false, digits)
    ensures DateLength(['-'] + digits) == 9 && ReadDate(['-'] + digits) == ReadDigits(true, digits)
    ensures DateLength(['+'] + digits) == 9 && ReadDate(['+'] + digits) == ReadDate(digits)
  {
    assert (['-'] + digits)[1..] == digits && (['+'] + digits)[1..] == digits;
  }

  lemma PrintedDateReads(d: Date)
    requires IsDate(d)
    ensures var s := PrintDate(d); |s| == DateLength(s) && ReadDate(s) == Some(d)
  {
    var year := if d.year < 0 then -d.year else d.year;
    PaddedDateReads(d.year < 0, year, d.month, d.day);
    SignedReads(Padded(year, 4) + Padded(d.month, 2) + Padded(d.day, 2));
  }

  lemma PrintedClockReads(c: Civil)
    requires IsCivil(c)
    ensures |PrintClock(c)| == 8 && ReadClock(PrintClock(c)) == Some((c.hour, c.minute, c.second))
  {
    Widths();
    PaddedOf(c.hour, 2);
    PaddedOf(c.minute, 2);
    PaddedOf(c.second, 2);
    var s := PrintClock(c);
    assert s[..2] == Padded(c.hour, 2) && s[3..5] == Padded(c.minute, 2) && s[6..] == Padded(c.second, 2);
  }

  lemma PrintedWithoutBlanks(c: Civil)
    requires IsCivil(c)
    ensures ' ' !in PrintDate(c.date) && ' ' !in PrintClock(c)
  {
    PaddedWithoutBlanks(if c.date.year < 0 then -c.date.year else c.date.year, 4);
    PaddedWithoutBlanks(c.date.month, 2);
    PaddedWithoutBlanks(c.date.day, 2);
    PaddedWithoutBlanks(c.hour, 2);
    PaddedWithoutBlanks(c.minute, 2);
    PaddedWithoutBlanks(c.second, 2);
  }

  lemma PaddedWithoutBlanks(n: nat, width: nat)
    ensures ' ' !in Padded(n, width)
  {
    assert AllDigits(Padded(n, width));
  }

  lemma PartsReadCivil(date: string, gap: string, clock: string)
    requires date != [] && |date| == DateLength(date)
    requires ReadDate(date).Some? && ReadClock(clock).Some?
    ensures var (hour, minute, second) := ReadClock(clock).value;
            ReadCivil(date + gap + clock, gap) == Some(Civil(ReadDate(date).value, hour, minute, second))
  {
    Parts(date, gap, clock);
    assert (date + gap + clock)[0] == date[0];
  }

  lemma PrintedCivilReads(c: Civil, gap: string)
    requires IsCivil(c)
    ensures ReadCivil(PrintCivil(c, gap), gap) == Some(c)
  {
    PrintedDateReads(c.date);
    PrintedClockReads(c);
    PartsReadCivil(PrintDate(c.date), gap, PrintClock(c));
  }

  /** Only what is printed so is read, but for signs: a date in digits is that of its year,
      month and day, and a time of day likewise. */
  lemma ReadDigitsPrinted(negative: bool, digits: string)
    requires ReadDigits(negative, digits).Some?
    ensures var d := ReadDigits(negative, digits).value;
            && (if negative then d.year <= 0 else d.year >= 0)
            && digits == PrintDate(d.(year := if negative then -d.year else d.year))
  {
    PaddedOfValue(digits[0..4]);
    PaddedOfValue(digits[4..6]);
    PaddedOfValue(digits[6..8]);
    assert digits == digits[0..4] + digits[4..6] + digits[6..8];
  }

  lemma ReadClockPrinted(s: string, date: Date)
    requires ReadClock(s).Some?
    ensures var (hour, minute, second) := ReadClock(s).value;
            && hour < 24 && minute < 60 && second < 60
            && s == PrintClock(Civil(date, hour, minute, second))
  {
    PaddedOfValue(s[..2]);
    PaddedOfValue(s[3..5]);
    PaddedOfValue(s[6..]);
    assert s == s[..2] + [':'] + s[3..5] + [':'] + s[6..];
  }

  lemma ReadParts(s: string, gap: string, c: Civil) returns (date: string, clock: string)
    requires (s == [] || !IsSign(s[0])) && ReadCivil(s, gap) == Some(c)
    ensures s == date + gap + clock
    ensures ReadDigits(false, date) == Some(c.date) && ReadClock(clock) == Some((c.hour, c.minute, c.second))
  {
    date, clock := s[..8], s[8 + |gap|..];
    assert s == s[..8] + s[8..8 + |gap|] + s[8 + |gap|..];
  }

  lemma PrintedHasNoSign(c: Civil, gap: string)
    requires IsCivil(c) && c.date.year >= 0
    ensures PrintCivil(c, gap) != [] && !IsSign(PrintCivil(c, gap)[0])
  {
    PaddedDateReads(false, c.date.year, c.date.month, c.date.day);
  }

  /** A text is a civil time of a year from 0 on, written without a sign, exactly when it
      is that time printed. */
  lemma ReadsExactlyPrinted(s: string, gap: string, c: Civil)
    ensures (s == [] || !IsSign(s[0])) && ReadCivil(s, gap) == Some(c)
       <==> IsCivil(c) && c.date.year >= 0 && s == PrintCivil(c, gap)
  {
    if (s == [] || !IsSign(s[0])) && ReadCivil(s, gap) == Some(c) {
      var date, clock := ReadParts(s, gap, c);
      ReadDigitsPrinted(false, date);
      ReadClockPrinted(clock, c.date);
    }
    if IsCivil(c) && c.date.year >= 0 && s == PrintCivil(c, gap) {
      PrintedCivilReads(c, gap);
      PrintedHasNoSign(c, gap);
    }
  }

  lemma LastBlankIs(s: string, i: nat)
    requires i < |s| && s[i] == ' ' && forall j :: i < j < |s| ==> s[j] != ' '
    ensures LastBlank(s, |s|) == Some(i)
  {
  }

  lemma ZonedIs(text: string, name: string, c: Civil)
    requires ' ' !in name && ReadCivil(text, " ") == Some(c)
    ensures Zoned(text + [' '] + name) == Some((c, name))
  {
    var s := text + [' '] + name;
    Parts(text, [' '], name);
    forall j | |text| < j < |s|
      ensures s[j] != ' '
    {
      assert s[j] == name[j - |text| - 1];
    }
    LastBlankIs(s, |text|);
  }

  lemma ZonedIsResolved(zones: Zones, field: string, session: Option<Errors.Zone>)
    requires Zoned(field).Some?
    ensures ParseDateTime(zones, field, session) == ResolveIn(zones, Zoned(field).value.0, Zoned(field).value.1)
  {
    CivilFormsApart(field, ZonedForm);
  }

  /** A civil time with more behind it is of none of the other forms. */
  lemma OnlyZonedIsLonger(field: string, text: string)
    requires ReadCivil(text, " ").Some? && text <= field && |text| < |field|
    ensures DateLength(field) == DateLength(text) && |text| == DateLength(text) + 9
    ensures Utc(field) == None && Local(field) == None && Day(field) == None && Timestamp(field) == None
  {
    CivilShape(text, " ");
    var n := DateLength(text);
    assert field[0] == text[0] && field[n + 1] == text[n + 1] && field[n + 3] == text[n + 3];
    if Utc(field).Some? { UtcShape(field); }
    if Local(field).Some? { LocalShape(field); }
    ColonIsNoTimestamp(field, n + 3);
  }

  lemma LongCivilIsNone(field: string, text: string)
    requires ReadCivil(text, " ").Some? && text <= field && |text| < |field|
    ensures ReadCivil(field, " ") == None
  {
    OnlyZonedIsLonger(field, text);
    if ReadCivil(field, " ").Some? { CivilShape(field, " "); }
  }

  /** A blank in the zone's name cuts the field inside the name. */
  lemma BlankInName(text: string, name: string)
    requires ReadCivil(text, " ").Some? && ' ' in name
    ensures Zoned(text + [' '] + name) == None
  {
    var field := text + [' '] + name;
    var k :| 0 <= k < |name| && name[k] == ' ';
    assert field[|text| + 1 + k] == ' ';
    var i := LastBlank(field, |field|).value;
    assert text <= field[..i];
    LongCivilIsNone(field[..i], text);
  }

  /** A civil time with its zone's name behind it is read in that zone or refused for it,
      whatever the session's zone, exactly when the name holds no blank; with one, as in
      "China Standard Time", the field is not readable at all. */
  lemma ZonedReadsBack(zones: Zones, c: Civil, name: string, session: Option<Errors.Zone>)
    requires IsCivil(c)
    ensures ParseDateTime(zones, PrintCivil(c, " ") + [' '] + name, session)
         == if ' ' in name then Failure(Unreadable)
            else
              match zones.find(Trim(name))
              case None => Failure(UnknownZone)
              case Some(zone) =>
                match zones.resolve(c, zone)
                case At(moment) => Success(moment)
                case Ambiguous => Failure(AmbiguousTime)
                case Impossible => Failure(ImpossibleTime)
  {
    var text := PrintCivil(c, " ");
    var field := text + [' '] + name;
    PrintedCivilReads(c, " ");
    if ' ' in name {
      BlankInName(text, name);
      OnlyZonedIsLonger(field, text);
    } else {
      ZonedIs(text, name, c);
      ZonedIsResolved(zones, field, session);
    }
  }

  /** The table knows UTC, and resolves in it without a shift. */
  ghost predicate KnowsUtc(zones: Zones) {
    && zones.find("UTC").Some?
    && forall c: Civil :: IsCivil(c) ==> zones.resolve(c, zones.find("UTC").value) == At(Seconds(c))
  }

  lemma UtcSuffix(text: string)
    ensures text + " UTC" == text + [' '] + "UTC"
  {
  }

  lemma UtcIsResolved(zones: Zones, c: Civil)
    requires IsCivil(c) && KnowsUtc(zones)
    ensures ResolveIn(zones, c, "UTC") == Success(Seconds(c))
  {
    assert Trimmed("UTC");
  }

  /** Every moment written into a request reads back as the second it lies in: as itself
      exactly when it has no fraction, and less than a second early otherwise. */
  lemma ToFieldReadsBack(zones: Zones, moment: Errors.Instant, session: Option<Errors.Zone>)
    requires InRange(SecondOf(moment)) && KnowsUtc(zones)
    ensures ParseDateTime(zones, ToField(moment), session) == Success(SecondOf(moment))
    ensures 0 <= moment - SecondOf(moment) * 1_000_000_000 < 1_000_000_000
    ensures SecondOf(moment) * 1_000_000_000 == moment <==> moment % 1_000_000_000 == 0
  {
    var c := CivilOf(SecondOf(moment));
    ZonedReadsBack(zones, c, "UTC", session);
    UtcIsResolved(zones, c);
    UtcSuffix(PrintCivil(c, " "));
  }

  /** Every second in the UTC form reads back as itself. */
  lemma UtcReadsBack(zones: Zones, t: int, session: Option<Errors.Zone>)
    requires InRange(t)
    ensures ParseDateTime(zones, PrintCivil(CivilOf(t), "-"), session) == Success(t)
  {
    PrintedCivilReads(CivilOf(t), "-");
  }

  /** A printed timestamp reads back exactly when there is no session zone or its digits
      are not a date; otherwise it is read as that date's midnight. */
  lemma TimestampReadsBack(zones: Zones, t: int, session: Option<Errors.Zone>)
    requires InRange(t)
    ensures ParseDateTime(zones, PrintInt(t), session)
         == if session.Some? && Day(PrintInt(t)).Some?
            then Resolve(zones, Midnight(Day(PrintInt(t)).value), session.value)
            else Success(t)
  {
    ParsePrintInt(t, -0x8000_0000_0000_0000, 0x7FFF_FFFF_FFFF_FFFF);
    NotCivil(PrintInt(t), TimestampForm);
  }

  /** A civil time with two blanks is read in the session's zone, and not at all without one. */
  lemma LocalReadsBack(zones: Zones, c: Civil, session: Option<Errors.Zone>)
    requires IsCivil(c)
    ensures ParseDateTime(zones, PrintCivil(c, "  "), session)
         == match session
            case None => Failure(Unreadable)
            case Some(zone) =>
              match zones.resolve(c, zone)
              case At(moment) => Success(moment)
              case Ambiguous => Failure(AmbiguousTime)
              case Impossible => Failure(ImpossibleTime)
  {
    PrintedCivilReads(c, "  ");
    OnlyLocal(PrintCivil(c, "  "));
  }

  /** A date of eight digits is its midnight in the session's zone, and a number of seconds
      without one. */
  lemma DayReadsBack(zones: Zones, d: Date, session: Option<Errors.Zone>)
    requires IsDate(d) && d.year >= 0
    ensures ParseDateTime(zones, PrintDate(d), session)
         == match session
            case None => Success(10000 * d.year + 100 * d.month + d.day)
            case Some(zone) =>
              match zones.resolve(Civil(d, 0, 0, 0), zone)
              case At(moment) => Success(moment)
              case Ambiguous => Failure(AmbiguousTime)
              case Impossible => Failure(ImpossibleTime)
  {
    var field := PrintDate(d);
    PrintedDateReads(d);
    PaddedDateReads(false, d.year, d.month, d.day);
    DayIsTimestamp(field);
    NotCivil(field, DayForm);
    ValueOfDate(d);
  }

  lemma ValueOfDate(d: Date)
    requires IsDate(d) && d.year >= 0
    ensures AllDigits(PrintDate(d)) && ValueOf(PrintDate(d)) == 10000 * d.year + 100 * d.month + d.day
  {
    Widths();
    PaddedOf(d.year, 4);
    PaddedOf(d.month, 2);
    PaddedOf(d.day, 2);
    var y, m, day := Padded(d.year, 4), Padded(d.month, 2), Padded(d.day, 2);
    ValueOfConcat(y, m);
    ValueOfConcat(y + m, day);
  }

  lemma {:induction false} ValueOfConcat(a: string, b: string)
    requires AllDigits(a) && AllDigits(b)
    ensures AllDigits(a + b) && ValueOf(a + b) == ValueOf(a) * Pow10(|b|) + ValueOf(b)
  {
    if b == [] {
      assert a + b == a;
    } else {
      var init := b[..|b| - 1];
      ValueOfConcat(a, init);
      assert (a + b)[..|a + b| - 1] == a + init;
      assert ValueOf(a) * Pow10(|b|) == 10 * (ValueOf(a) * Pow10(|init|));
    }
  }

  /** A number of seconds that the calendar has no moment for is out of range, and one
      that does not fit 64 bits is unreadable. */
  lemma DistantTimestamp(zones: Zones, t: int, session: Option<Errors.Zone>)
    requires t < -377705116800 || t > 253402300799
    ensures ParseDateTime(zones, PrintInt(t), session)
         == if -0x8000_0000_0000_0000 <= t <= 0x7FFF_FFFF_FFFF_FFFF then Failure(OutOfRange) else Failure(Unreadable)
  {
    ParsePrintInt(t, -0x8000_0000_0000_0000, 0x7FFF_FFFF_FFFF_FFFF);
    NoFormButTimestamp(t);
  }

  lemma NoFormButTimestamp(t: int)
    requires t < -377705116800 || t > 253402300799
    ensures var s := PrintInt(t); Utc(s) == None && Zoned(s) == None && Local(s) == None && Day(s) == None
  {
    var s := PrintInt(t);
    NoColon(t);
    if Utc(s).Some? { UtcShape(s); }
    if Zoned(s).Some? { ZonedShape(s); }
    if Local(s).Some? { LocalShape(s); }
    if Day(s).Some? {
      ParsePrintInt(t, t, t);
      DayIsTimestamp(s);
    }
  }

  lemma NoColon(t: int)
    ensures ':' !in PrintInt(t)
  {
  }

  /** A moment printed and read: the order of the fields, and the count from 1970. */
  lemma KnownMoment(zones: Zones)
    ensures var c := Civil(Date(2026, 3, 28), 12, 34, 56);
            && IsCivil(c)
            && PrintDate(c.date) == "20260328" && PrintClock(c) == "12:34:56"
            && PrintCivil(c, "-") == "20260328-12:34:56"
            && Seconds(c) == 1774701296
    ensures Seconds(Civil(Date(1970, 1, 1), 0, 0, 0)) == 0
  {
    PrintedKnownMoment();
    DayNumberIs(Date(2026, 3, 28));
    DayNumberIs(Date(1970, 1, 1));
  }

  lemma PrintedKnownMoment()
    ensures Padded(2026, 4) == "2026" && Padded(3, 2) == "03" && Padded(28, 2) == "28"
    ensures Padded(12, 2) == "12" && Padded(34, 2) == "34" && Padded(56, 2) == "56"
  {
    assert Digits(2) == "2" && Digits(20) == "20" && Digits(202) == "202" && Digits(2026) == "2026";
    assert Digits(3) == "3" && Digits(1) == "1" && Digits(5) == "5";
    assert Digits(28) == "28" && Digits(12) == "12" && Digits(34) == "34" && Digits(56) == "56";
    assert Zeros(1) == "0";
  }
}
