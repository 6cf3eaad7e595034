/** Civil dates and days since 1970-01-01 in the proleptic Gregorian calendar. */
module Civil {

  datatype Date = Date(year: int, month: int, day: int)

  predicate IsLeapYear(year: int) {
    (year % 4 == 0 && year % 100 != 0) || year % 400 == 0
  }

  /** 0 for a month that does not exist. */
  function DaysInMonth(year: int, month: int): int {
    if month in {1, 3, 5, 7, 8, 10, 12} then 31
    else if month in {4, 6, 9, 11} then 30
    else if month == 2 then (if IsLeapYear(year) then 29 else 28)
    else 0
  }

  predicate Valid(d: Date) {
    1 <= d.month <= 12 && 1 <= d.day <= DaysInMonth(d.year, d.month)
  }

  /** `days_from_civil`. Years run from March; Dafny's division is Euclidean like `div_euclid`. */
  function DaysFromCivil(d: Date): int {
    var year := if d.month <= 2 then d.year - 1 else d.year;
    var era := year / 400;
    var yearOfEra := year - era * 400;
    var dayOfYear := (153 * (d.month + if d.month > 2 then -3 else 9) + 2) / 5 + d.day - 1;
    var dayOfEra := yearOfEra * 365 + yearOfEra / 4 - yearOfEra / 100 + dayOfYear;
    era * 146_097 + dayOfEra - 719_468
  }

  function YearOfEra(dayOfEra: int): int {
    (dayOfEra - dayOfEra / 1_460 + dayOfEra / 36_524 - dayOfEra / 146_096) / 365
  }

  /** `civil_from_days`. */
  function CivilFromDays(days: int): Date {
    var shifted := days + 719_468;
    var era := shifted / 146_097;
    var dayOfEra := shifted % 146_097;
    var yearOfEra := YearOfEra(dayOfEra);
    var year := yearOfEra + era * 400;
    var dayOfYear := dayOfEra - (365 * yearOfEra + yearOfEra / 4 - yearOfEra / 100);
    var monthPrime := (5 * dayOfYear + 2) / 153;
    var day := dayOfYear - (153 * monthPrime + 2) / 5 + 1;
    var month := if monthPrime < 10 then monthPrime + 3 else monthPrime - 9;
    Date(if month <= 2 then year + 1 else year, month, day)
  }

  // ---------- the calendar itself ----------

  const EPOCH := Date(1970, 1, 1)

  function NextDay(d: Date): Date {
    if d.day < DaysInMonth(d.year, d.month) then Date(d.year, d.month, d.day + 1)
    else if d.month < 12 then Date(d.year, d.month + 1, 1)
    else Date(d.year + 1, 1, 1)
  }

  function PreviousDay(d: Date): Date {
    if d.day > 1 then Date(d.year, d.month, d.day - 1)
    else if d.month > 1 then Date(d.year, d.month - 1, DaysInMonth(d.year, d.month - 1))
    else Date(d.year - 1, 12, 31)
  }

  lemma PreviousThenNext(d: Date)
    requires Valid(d)
    ensures Valid(PreviousDay(d)) && NextDay(PreviousDay(d)) == d
  {
  }

  // ---------- counting ----------

  /** Days before the March-based year `y`, from the year the eras are counted from. */
  function YearStart(y: int): int {
    var era := y / 400;
    var yearOfEra := y - era * 400;
    era * 146_097 + yearOfEra * 365 + yearOfEra / 4 - yearOfEra / 100
  }

  /** Days before month `m`, where March is 0 and February is 11. */
  function MonthStart(m: int): int { (153 * m + 2) / 5 }

  lemma ShiftedRemainder(n: int, k: int, d: int)
    requires d > 0
    ensures (k * d + n) % d == n % d && (k * d + n) / d == k + n / d
  {
    var gap := (k * d + n) / d - k - n / d;
    assert d * gap == n % d - (k * d + n) % d;
    assert gap >= 1 ==> d * gap >= d;
    assert gap <= -1 ==> d * gap <= -d;
  }

  /** Leap years repeat every era. */
  lemma LeapInEra(era: int, n: int)
    ensures IsLeapYear(era * 400 + n) <==> IsLeapYear(n)
  {
    ShiftedRemainder(n, era * 100, 4);
    ShiftedRemainder(n, era * 4, 100);
    ShiftedRemainder(n, era, 400);
    var y := era * 400 + n;
    assert y == era * 100 * 4 + n == era * 4 * 100 + n;
  }

  lemma EraOf(era: int, n: int)
    requires 0 <= n < 400
    ensures (era * 400 + n) / 400 == era
  {
    ShiftedRemainder(n, era, 400);
  }

  lemma YearStartInEra(era: int, n: int)
    requires 0 <= n < 400
    ensures YearStart(era * 400 + n) == era * 146_097 + n * 365 + n / 4 - n / 100
  {
    EraOf(era, n);
    assert era * 400 + n - era * 400 == n;
  }

  lemma LengthInEra(n: int)
    requires 0 <= n < 400
    ensures var next := if n == 399 then 146_097 else (n + 1) * 365 + (n + 1) / 4 - (n + 1) / 100;
            next - (n * 365 + n / 4 - n / 100) == if IsLeapYear(n + 1) then 366 else 365
  {
  }

  /** A March-based year is long when the February that ends it is. */
  lemma YearLength(y: int)
    ensures YearStart(y + 1) - YearStart(y) == if IsLeapYear(y + 1) then 366 else 365
  {
    hide YearStart, IsLeapYear;
    var era, n := y / 400, y % 400;
    assert y == era * 400 + n;
    LengthInEra(n);
    LeapInEra(era, n + 1);
    YearStartInEra(era, n);
    if n == 399 {
      YearStartInEra(era + 1, 0);
      assert y + 1 == (era + 1) * 400 + 0;
    } else {
      YearStartInEra(era, n + 1);
    }
  }

  lemma MonthTable()
    ensures MonthStart(0) == 0 && MonthStart(1) == 31 && MonthStart(2) == 61 && MonthStart(3) == 92
    ensures MonthStart(4) == 122 && MonthStart(5) == 153 && MonthStart(6) == 184 && MonthStart(7) == 214
    ensures MonthStart(8) == 245 && MonthStart(9) == 275 && MonthStart(10) == 306 && MonthStart(11) == 337
  {
  }

  function MarchYear(d: Date): int { if d.month <= 2 then d.year - 1 else d.year }

  function MarchMonth(d: Date): int { if d.month > 2 then d.month - 3 else d.month + 9 }

  lemma DaysSplit(d: Date)
    ensures DaysFromCivil(d) == YearStart(MarchYear(d)) + MonthStart(MarchMonth(d)) + d.day - 1 - 719_468
  {
  }

  /** The next calendar day is the next integer. */
  lemma NextDayCounts(d: Date)
    requires Valid(d)
    ensures Valid(NextDay(d)) && DaysFromCivil(NextDay(d)) == DaysFromCivil(d) + 1
  {
    DaysSplit(d);
    DaysSplit(NextDay(d));
    MonthTable();
    if d.month == 2 && d.day == DaysInMonth(d.year, 2) {
      YearLength(d.year - 1);
    }
    hide DaysFromCivil, YearStart, MonthStart;
  }

  // ---------- inverses ----------

  lemma Quotient(n: int, d: int, q: int)
    requires d > 0 && d * q <= n < d * q + d
    ensures n / d == q
  {
    var gap := n / d - q;
    assert d * gap == n - n % d - d * q;
    assert gap >= 1 ==> d * gap >= d;
    assert gap <= -1 ==> d * gap <= -d;
  }

  /** Where a long year can sit: last of its four, and not last of a short century. */
  lemma LongYear(c: int, q: int, r: int)
    requires 0 <= c < 4 && 0 <= q < 25 && 0 <= r < 4 && IsLeapYear(100 * c + 4 * q + r + 1)
    ensures r == 3 && (q < 24 || c == 3)
  {
    var n := 100 * c + 4 * q + r + 1;
    ShiftedRemainder(r + 1, 25 * c + q, 4);
    assert n == (25 * c + q) * 4 + (r + 1);
    if r == 3 && q == 24 {
      ShiftedRemainder(0, c + 1, 100);
      assert n == (c + 1) * 100 + 0;
    }
  }

  /** The year formula on century `c`, four-year group `q` and year `r` of the group. */
  lemma YearFormula(c: int, q: int, r: int, doy: int)
    requires 0 <= c < 4 && 0 <= q < 25 && 0 <= r < 4 && 0 <= doy <= 365
    requires doy == 365 ==> r == 3 && (q < 24 || c == 3)
    ensures var doe := 36_524 * c + 1_461 * q + 365 * r + doy;
            0 <= doe < 146_097 && YearOfEra(doe) == 100 * c + 4 * q + r
  {
    var doe := 36_524 * c + 1_461 * q + 365 * r + doy;
    var t := if 24 * c + q + 365 * r + doy >= 1_460 then 1 else 0;
    var l := if doe == 146_096 then 1 else 0;
    Quotient(doe, 1_460, 25 * c + q + t);
    Quotient(doe, 36_524, c + l);
    Quotient(doe, 146_096, l);
    Quotient(doe - doe / 1_460 + doe / 36_524 - doe / 146_096, 365, 100 * c + 4 * q + r);
  }

  lemma YearRecovered(yoe: int, doy: int)
    requires 0 <= yoe < 400 && 0 <= doy <= 365
    requires doy == 365 ==> IsLeapYear(yoe + 1)
    ensures var doe := yoe * 365 + yoe / 4 - yoe / 100 + doy;
            0 <= doe < 146_097 && YearOfEra(doe) == yoe
  {
    hide YearOfEra, IsLeapYear;
    var c, q, r := yoe / 100, yoe % 100 / 4, yoe % 4;
    assert yoe == 100 * c + 4 * q + r && yoe / 4 == 25 * c + q;
    if doy == 365 {
      LongYear(c, q, r);
    }
    YearFormula(c, q, r, doy);
  }

  lemma MonthRecovered(mp: int, day: int, doy: int)
    requires 0 <= mp < 12 && doy == MonthStart(mp) + day - 1
    requires 1 <= day <= (if mp == 11 then 29 else MonthStart(mp + 1) - MonthStart(mp))
    ensures (5 * doy + 2) / 153 == mp
  {
    MonthTable();
  }

  lemma DayOfYearBounds(d: Date)
    requires Valid(d)
    ensures var mp, doy := MarchMonth(d), MonthStart(MarchMonth(d)) + d.day - 1;
            && 0 <= mp < 12 && 0 <= doy <= 365
            && (doy == 365 ==> IsLeapYear(MarchYear(d) + 1))
            && (5 * doy + 2) / 153 == mp
  {
    MonthTable();
    MonthRecovered(MarchMonth(d), d.day, MonthStart(MarchMonth(d)) + d.day - 1);
  }

  lemma EraRecovered(era: int, doe: int)
    requires 0 <= doe < 146_097
    ensures (era * 146_097 + doe) / 146_097 == era && (era * 146_097 + doe) % 146_097 == doe
  {
  }

  lemma YearOfDay(y: int)
    ensures var n := y % 400; y == y / 400 * 400 + n && YearStart(y) == y / 400 * 146_097 + n * 365 + n / 4 - n / 100
  {
    YearStartInEra(y / 400, y % 400);
  }

  /** Undoing the count, given the era, the year in it, the month and the day. */
  lemma CivilAssembles(days: int, era: int, yoe: int, mp: int, day: int)
    requires 0 <= yoe < 400 && 0 <= mp < 12
    requires var doy := MonthStart(mp) + day - 1;
             var doe := yoe * 365 + yoe / 4 - yoe / 100 + doy;
             && 0 <= doe < 146_097 && YearOfEra(doe) == yoe && (5 * doy + 2) / 153 == mp
             && days == era * 146_097 + doe - 719_468
    ensures var month := if mp < 10 then mp + 3 else mp - 9;
            CivilFromDays(days) == Date(yoe + era * 400 + (if month <= 2 then 1 else 0), month, day)
  {
    var doe := yoe * 365 + yoe / 4 - yoe / 100 + MonthStart(mp) + day - 1;
    EraRecovered(era, doe);
    hide YearOfEra;
  }

  /** A valid date is recovered from its day number. */
  lemma DateRecovered(d: Date)
    requires Valid(d)
    ensures CivilFromDays(DaysFromCivil(d)) == d
  {
    var y, mp := MarchYear(d), MarchMonth(d);
    var era, yoe := y / 400, y % 400;
    DayOfYearBounds(d);
    YearOfDay(y);
    DaysSplit(d);
    hide DaysFromCivil, CivilFromDays, YearStart, YearOfEra, IsLeapYear, DaysInMonth, MonthStart;
    LeapInEra(era, yoe + 1);
    YearRecovered(yoe, MonthStart(mp) + d.day - 1);
    CivilAssembles(DaysFromCivil(d), era, yoe, mp, d.day);
  }

  /** Walking the calendar from 1970-01-01 reaches a valid date for every integer. */
  lemma {:induction false} EveryDayIsADate(days: int) returns (d: Date)
    ensures Valid(d) && DaysFromCivil(d) == days
    decreases if days < 0 then -days else days
  {
    if days == 0 {
      d := EPOCH;
    } else if days > 0 {
      var before := EveryDayIsADate(days - 1);
      NextDayCounts(before);
      d := NextDay(before);
    } else {
      var after := EveryDayIsADate(days + 1);
      PreviousThenNext(after);
      d := PreviousDay(after);
      NextDayCounts(d);
    }
  }

  /**
   * The two conversions are inverse bijections between all integers and all valid dates,
   * and counting days agrees with turning the page of the calendar.
   */
  lemma CalendarBijection(days: int, d: Date)
    ensures Valid(CivilFromDays(days)) && DaysFromCivil(CivilFromDays(days)) == days
    ensures Valid(d) ==> CivilFromDays(DaysFromCivil(d)) == d
    ensures CivilFromDays(days + 1) == NextDay(CivilFromDays(days))
    ensures CivilFromDays(0) == EPOCH
  {
    hide DaysFromCivil, CivilFromDays, NextDay, Valid;
    var date := EveryDayIsADate(days);
    DateRecovered(date);
    NextDayCounts(date);
    DateRecovered(NextDay(date));
    if Valid(d) {
      DateRecovered(d);
    }
    EpochIsDayZero();
    DateRecovered(EPOCH);
  }

  lemma EpochIsDayZero()
    ensures Valid(EPOCH) && DaysFromCivil(EPOCH) == 0
  {
  }
}
