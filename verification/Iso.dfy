/** Timestamps as text: printing an instant and reading one back. */
module Iso {
  import opened Civil
  import opened Text
  import opened Wrappers

  const MAX_YEAR: int := 292_000_000
  const I64_MIN: int := -0x8000_0000_0000_0000
  const I64_MAX: int := 0x7FFF_FFFF_FFFF_FFFF
  const U32_MAX: int := 0xFFFF_FFFF

  // ---------- printing numbers ----------

  predicate IsDigit(c: char) { '0' <= c <= '9' }

  function DigitChar(n: nat): char
    requires n < 10
  {
    '0' + n as char
  }

  function Digits(n: nat): (s: string)
    ensures s != []
  {
    if n < 10 then [DigitChar(n)] else Digits(n / 10) + [DigitChar(n % 10)]
  }

  function Zeros(n: nat): string { if n == 0 then "" else Zeros(n - 1) + "0" }

  /** `{n:0width}` of a number that is not negative. */
  function Padded(n: nat, width: nat): string {
    var s := Digits(n);
    if |s| >= width then s else Zeros(width - |s|) + s
  }

  /** `{year:04}`: a sign counts towards the width. */
  function YearText(year: int): string {
    if year >= 0 then Padded(year, 4) else "-" + Padded(-year, 3)
  }

  /** `iso_from_epoch_millis`. */
  function IsoFromMillis(millis: int): string {
    var d := CivilFromDays(millis / 1_000 / 86_400);
    CalendarBijection(millis / 1_000 / 86_400, d);
    DateText(d) + "T" + TimeText(millis / 1_000 % 86_400, millis % 1_000) + "Z"
  }

  function DateText(d: Date): string
    requires Valid(d)
  {
    YearText(d.year) + "-" + (Padded(d.month, 2) + "-" + Padded(d.day, 2))
  }

  function TimeText(timeOfDay: nat, milli: nat): string {
    Padded(timeOfDay / 3_600, 2) + ":" + Padded(timeOfDay % 3_600 / 60, 2) + ":"
    + (Padded(timeOfDay % 60, 2) + "." + Padded(milli, 3))
  }

  // ---------- reading numbers ----------

  function ParseNat(s: string): nat
    requires AllDigits(s)
  {
    if s == "" then 0 else 10 * ParseNat(s[..|s| - 1]) + (s[|s| - 1] - '0') as nat
  }

  predicate AllDigits(s: string) { forall k | 0 <= k < |s| :: IsDigit(s[k]) }

  /** `str::parse` for an integer type with these bounds: an optional sign, then digits only. */
  function ParseInt(s: string, lo: int, hi: int): Option<int> {
    var signed := s != "" && (s[0] == '+' || (s[0] == '-' && lo < 0));
    var body := if signed then s[1..] else s;
    if body == "" || !AllDigits(body) then None
    else
      var n := if signed && s[0] == '-' then 0 - ParseNat(body) as int else ParseNat(body) as int;
      if lo <= n <= hi then Some(n) else None
  }

  function ParseI64(s: string): Option<int> { ParseInt(s, I64_MIN, I64_MAX) }

  function ParseU32(s: string): Option<int> { ParseInt(s, 0, U32_MAX) }

  // ---------- cutting text ----------

  /** First position at or after `from` of a character in `cs`, or the length. */
  function Find(s: string, cs: set<char>): (i: nat)
    ensures i <= |s| && (forall k | 0 <= k < i :: s[k] !in cs) && (i < |s| ==> s[i] in cs)
  {
    if s == "" || s[0] in cs then 0 else 1 + Find(s[1..], cs)
  }

  function SplitOnce(s: string, cs: set<char>): Option<(string, string)> {
    var i := Find(s, cs);
    if i == |s| then None else Some((s[..i], s[i + 1..]))
  }

  function Split(s: string, c: char): seq<string>
    decreases |s|
  {
    var i := Find(s, {c});
    if i == |s| then [s] else [s[..i]] + Split(s[i + 1..], c)
  }

  /** Position of the last sign character, if any. */
  function LastSign(s: string): (r: Option<nat>)
    ensures r.Some? ==> r.value < |s| && s[r.value] in {'+', '-'}
    decreases |s|
  {
    if s == "" then None
    else if s[|s| - 1] in {'+', '-'} then Some(|s| - 1)
    else LastSign(s[..|s| - 1])
  }

  // ---------- reading an instant ----------

  function ParseDate(text: string): Option<Date> {
    var parts := Split(text, '-');
    if |parts| != 3 then None
    else
      match (ParseI64(parts[0]), ParseU32(parts[1]), ParseU32(parts[2]))
      case (Some(year), Some(month), Some(day)) =>
        if year > MAX_YEAR || year < -MAX_YEAR || !Valid(Date(year, month, day)) then None
        else Some(Date(year, month, day))
      case _ => None
  }

  /** What a reader comes to: a value, a refusal, or a panic on a cut inside a character. */
  datatype Outcome<+T> = Read(value: T) | Refused | Panicked

  /** Octets of a character in UTF-8, as RFC 3629 section 3 lays them out. */
  function Utf8Len(c: char): nat {
    var point := c as int;
    if point < 0x80 then 1 else if point < 0x800 then 2 else if point < 0x1_0000 then 3 else 4
  }

  function Octets(s: string): nat { if s == "" then 0 else Utf8Len(s[0]) + Octets(s[1..]) }

  /** The character boundary after `n` octets, if there is one. */
  function CutAt(s: string, n: nat): (r: Option<nat>)
    ensures r.Some? ==> r.value <= |s|
  {
    if n == 0 then Some(0)
    else if s == "" || Utf8Len(s[0]) > n then None
    else match CutAt(s[1..], n - Utf8Len(s[0])) case None => None case Some(i) => Some(i + 1)
  }

  /** `split_zone`: the time, and the zone's offset in minutes; no zone reads as UTC. */
  function SplitZone(rest: string): Outcome<(string, int)> {
    if rest != "" && rest[|rest| - 1] in {'Z', 'z'} then Read((rest[..|rest| - 1], 0))
    else
      match LastSign(rest)
      case None => Read((rest, 0))
      case Some(at) =>
        if at == 0 then Read((rest, 0))
        else
          match ZoneMinutes(rest[at + 1..])
          case Refused => Refused
          case Panicked => Panicked
          case Read(minutes) => Read((rest[..at], if rest[at] == '-' then -minutes else minutes))
  }

  /** `HH:MM`, `HHMM` or `HH`; the lengths are in octets, and a cut inside a character panics. */
  function ZoneMinutes(zone: string): Outcome<int> {
    match SplitOnce(zone, {':'})
    case Some((h, m)) => OffsetOf(h, m)
    case None =>
      if Octets(zone) == 4 then
        match CutAt(zone, 2)
        case None => Panicked
        case Some(i) => OffsetOf(zone[..i], zone[i..])
      else if Octets(zone) == 2 then OffsetOf(zone, "0")
      else Refused
  }

  function OffsetOf(h: string, m: string): Outcome<int> {
    match (ParseI64(h), ParseI64(m))
    case (Some(hours), Some(minutes)) =>
      if 0 <= hours <= 23 && 0 <= minutes <= 59 then Read(hours * 60 + minutes) else Refused
    case _ => Refused
  }

  /** A digit of the fraction, or 0 past its end. */
  function FractionDigit(fraction: string, k: nat): (r: nat)
    requires AllDigits(fraction)
    ensures r < 10
  {
    if k < |fraction| then (fraction[k] - '0') as nat else 0
  }

  function Fraction(fraction: string): (r: nat)
    requires AllDigits(fraction)
    ensures r < 1_000
  {
    100 * FractionDigit(fraction, 0) + 10 * FractionDigit(fraction, 1) + FractionDigit(fraction, 2)
  }

  /** `parse_seconds`: whole seconds and truncated milliseconds. */
  function SecondsOf(field: string): Option<(int, int)> {
    var (whole, fraction) := if SplitOnce(field, {'.'}).Some? then SplitOnce(field, {'.'}).value else (field, "");
    match ParseI64(whole)
    case None => None
    case Some(seconds) => if AllDigits(fraction) then Some((seconds, Fraction(fraction))) else None
  }

  method ParseSeconds(field: string) returns (r: Option<(int, int)>)
    ensures r == SecondsOf(field)
  {
    var cut := SplitOnce(field, {'.'});
    var whole, fraction := field, "";
    if cut.Some? {
      whole, fraction := cut.value.0, cut.value.1;
    }
    var seconds := ParseI64(whole);
    if seconds.None? {
      return None;
    }
    if fraction == "" {
      return Some((seconds.value, 0));
    }
    if !AllDigits(fraction) {
      return None;
    }
    var millis := 0;
    for i := 0 to 3
      invariant i == 0 ==> millis == 0
      invariant i == 1 ==> millis == FractionDigit(fraction, 0)
      invariant i == 2 ==> millis == 10 * FractionDigit(fraction, 0) + FractionDigit(fraction, 1)
      invariant i == 3 ==> millis == Fraction(fraction)
    {
      millis := millis * 10 + FractionDigit(fraction, i);
    }
    r := Some((seconds.value, millis));
  }

  datatype Time = Time(hour: int, minute: int, second: int, milli: int)

  function ParseTime(text: string): Option<Time> {
    var parts := Split(text, ':');
    if |parts| < 2 || |parts| > 3 then None
    else
      match (ParseI64(parts[0]), ParseI64(parts[1]), if |parts| == 3 then SecondsOf(parts[2]) else Some((0, 0)))
      case (Some(hour), Some(minute), Some((second, milli))) =>
        if 0 <= hour < 24 && 0 <= minute < 60 && 0 <= second <= 60 then Some(Time(hour, minute, second, milli)) else None
      case _ => None
  }

  function Checked(n: int): Option<int> {
    if I64_MIN <= n <= I64_MAX then Some(n) else None
  }

  /** The checked chain of additions: every step has to stay inside 64 bits. */
  function Combine(days: int, t: Time, offset: int): Option<int> {
    var a := days * 86_400;
    var b := a + t.hour * 3_600;
    var c := b + t.minute * 60;
    var d := c + t.second;
    var e := d - offset * 60;
    var f := e * 1_000;
    if Checked(a).None? || Checked(b).None? || Checked(c).None? || Checked(d).None? || Checked(e).None? || Checked(f).None?
    then None
    else Checked(f + t.milli)
  }

  /** `epoch_millis_from_iso`. */
  function MillisFromIso(text: string): Outcome<int> {
    match SplitOnce(Trim(text), {'T', 't', ' '})
    case None => Refused
    case Some((date, rest)) =>
      match ParseDate(date)
      case None => Refused
      case Some(d) =>
        match SplitZone(rest)
        case Refused => Refused
        case Panicked => Panicked
        case Read((time, offset)) =>
          match ParseTime(time)
          case None => Refused
          case Some(t) => (match Combine(DaysFromCivil(d), t, offset) case None => Refused case Some(n) => Read(n))
  }

  // ---------- numbers read back ----------

  lemma DigitReads(n: nat)
    requires n < 10
    ensures IsDigit(DigitChar(n)) && (DigitChar(n) - '0') as nat == n
  {
  }

  lemma {:induction false} DigitsRead(n: nat)
    ensures AllDigits(Digits(n)) && ParseNat(Digits(n)) == n
  {
    var s := Digits(n);
    DigitReads(n % 10);
    if n < 10 {
      assert s[..0] == "";
    } else {
      DigitsRead(n / 10);
      assert s[..|s| - 1] == Digits(n / 10);
    }
  }

  lemma ParseLast(s: string, c: char)
    requires AllDigits(s) && IsDigit(c)
    ensures AllDigits(s + [c]) && ParseNat(s + [c]) == 10 * ParseNat(s) + (c - '0') as nat
  {
    assert (s + [c])[..|s|] == s;
  }

  lemma {:induction false} ZerosRead(n: nat, s: string)
    requires AllDigits(s)
    ensures |Zeros(n)| == n && AllDigits(Zeros(n) + s) && ParseNat(Zeros(n) + s) == ParseNat(s)
    decreases n, |s|
  {
    if s != "" {
      ZerosRead(n, s[..|s| - 1]);
      ParseLast(Zeros(n) + s[..|s| - 1], s[|s| - 1]);
      assert Zeros(n) + s == Zeros(n) + s[..|s| - 1] + [s[|s| - 1]];
    } else if n > 0 {
      ZerosRead(n - 1, "");
      assert Zeros(n - 1) + "" == Zeros(n - 1);
      assert Zeros(n) + "" == Zeros(n - 1) + ['0'];
      ParseLast(Zeros(n - 1), '0');
    }
  }

  /** A padded number is at least as wide as asked, all digits, and reads back as itself. */
  lemma PaddedReads(n: nat, width: nat)
    ensures var s := Padded(n, width); AllDigits(s) && |s| >= width && s != "" && ParseNat(s) == n
  {
    hide Digits, ParseNat, AllDigits, Zeros;
    DigitsRead(n);
    var s := Digits(n);
    if |s| < width {
      ZerosRead(width - |s|, s);
    }
  }

  lemma PaddedParses(n: nat, width: nat, lo: int, hi: int)
    requires lo <= n <= hi
    ensures ParseInt(Padded(n, width), lo, hi) == Some(n)
  {
    PaddedReads(n, width);
    assert IsDigit(Padded(n, width)[0]);
  }

  lemma {:induction false} DigitsWidth(n: nat, width: nat)
    requires 0 < width && n < Pow10(width)
    ensures |Digits(n)| <= width
  {
    if n >= 10 {
      DigitsWidth(n / 10, width - 1);
    }
  }

  function Pow10(n: nat): nat { if n == 0 then 1 else 10 * Pow10(n - 1) }

  lemma PaddedWidth(n: nat, width: nat)
    requires 0 < width && n < Pow10(width)
    ensures |Padded(n, width)| == width
  {
    DigitsWidth(n, width);
    ZerosRead(if |Digits(n)| < width then width - |Digits(n)| else 0, "");
  }

  // ---------- text cut where it was joined ----------

  lemma {:induction false} FindAfter(a: string, c: char, rest: string, cs: set<char>)
    requires c in cs && forall k | 0 <= k < |a| :: a[k] !in cs
    ensures Find(a + [c] + rest, cs) == |a|
  {
    var i := Find(a + [c] + rest, cs);
    var s := a + [c] + rest;
    assert s[|a|] == c;
    assert forall k | 0 <= k < |a| :: s[k] == a[k];
  }

  lemma FindNone(a: string, cs: set<char>)
    requires forall k | 0 <= k < |a| :: a[k] !in cs
    ensures Find(a, cs) == |a|
  {
  }

  lemma SplitOnceAfter(a: string, c: char, rest: string, cs: set<char>)
    requires c in cs && forall k | 0 <= k < |a| :: a[k] !in cs
    ensures SplitOnce(a + [c] + rest, cs) == Some((a, rest))
  {
    FindAfter(a, c, rest, cs);
    var s := a + [c] + rest;
    assert s[..|a|] == a && s[|a| + 1..] == rest;
  }

  lemma SplitAfter(a: string, c: char, rest: string)
    requires c !in a
    ensures Split(a + [c] + rest, c) == [a] + Split(rest, c)
  {
    FindAfter(a, c, rest, {c});
    var s := a + [c] + rest;
    assert s[..|a|] == a && s[|a| + 1..] == rest;
  }

  lemma SplitWhole(a: string, c: char)
    requires c !in a
    ensures Split(a, c) == [a]
  {
    FindNone(a, {c});
  }

  lemma DigitsLack(s: string, c: char)
    requires AllDigits(s) && !IsDigit(c)
    ensures c !in s
  {
  }

  lemma SplitThree(a: string, b: string, d: string, c: char)
    requires AllDigits(b) && !IsDigit(c) && c !in a && c !in d
    ensures Split(a + [c] + (b + [c] + d), c) == [a, b, d]
  {
    DigitsLack(b, c);
    SplitAfter(a, c, b + [c] + d);
    SplitAfter(b, c, d);
    SplitWhole(d, c);
  }

  // ---------- the round trip ----------

  predicate InWindow(d: Date) { 0 <= d.year <= MAX_YEAR }

  /** Three digit fields joined by hyphens are read field by field. */
  lemma FieldsReadAsDate(y: string, m: string, day: string, d: Date)
    requires AllDigits(m) && '-' !in y && '-' !in day
    requires ParseI64(y) == Some(d.year) && ParseU32(m) == Some(d.month) && ParseU32(day) == Some(d.day)
    requires Valid(d) && d.year >= 0
    ensures ParseDate(y + "-" + (m + "-" + day)) == if InWindow(d) then Some(d) else None
  {
    assert "-" == ['-'];
    SplitThree(y, m, day, '-');
    hide Split, ParseI64, ParseU32, AllDigits, Valid;
  }

  /** A year with a minus sign leaves an empty first field, which is no number. */
  lemma SignedDateRefused(rest: string)
    ensures ParseDate("-" + rest) == None
  {
    assert "-" + rest == "" + ['-'] + rest;
    SplitAfter("", '-', rest);
    EmptyParses();
    hide Split, ParseI64, ParseU32, Valid;
  }

  lemma FieldRanges(d: Date)
    requires Valid(d)
    ensures 1 <= d.month <= 12 && 1 <= d.day <= 31
  {
  }

  /** A printed date reads back exactly when its year is not negative and inside the guard. */
  lemma DateReads(d: Date)
    requires Valid(d) && -0x1_0000_0000 < d.year < 0x1_0000_0000
    ensures ParseDate(DateText(d)) == if InWindow(d) then Some(d) else None
  {
    FieldRanges(d);
    hide Padded, Split, ParseInt, AllDigits, IsDigit, Valid, ParseDate;
    var m, day := Padded(d.month, 2), Padded(d.day, 2);
    if d.year >= 0 {
      PaddedField(d.year, 4, I64_MIN, I64_MAX, '-');
      PaddedField(d.month, 2, 0, U32_MAX, '-');
      PaddedField(d.day, 2, 0, U32_MAX, '-');
      FieldsReadAsDate(Padded(d.year, 4), m, day, d);
    } else {
      var rest := Padded(-d.year, 3) + "-" + (m + "-" + day);
      SignedDateRefused(rest);
      assert DateText(d) == "-" + rest;
    }
  }

  lemma EmptyParses()
    ensures ParseI64("") == None
  {
  }

  /** What a padded number is to a parser that cuts at `c`. */
  lemma PaddedField(n: nat, width: nat, lo: int, hi: int, c: char)
    requires lo <= n <= hi && !IsDigit(c)
    ensures AllDigits(Padded(n, width)) && c !in Padded(n, width) && ParseInt(Padded(n, width), lo, hi) == Some(n)
  {
    PaddedReads(n, width);
    PaddedParses(n, width, lo, hi);
    DigitsLack(Padded(n, width), c);
  }

  lemma SecondsRead(second: nat, milli: nat)
    requires second < 60 && milli < 1_000
    ensures SecondsOf(Padded(second, 2) + "." + Padded(milli, 3)) == Some((second, milli))
  {
    var s, f := Padded(second, 2), Padded(milli, 3);
    PaddedReads(second, 2);
    PaddedReads(milli, 3);
    PaddedParses(second, 2, I64_MIN, I64_MAX);
    DigitsLack(s, '.');
    SplitOnceAfter(s, '.', f, {'.'});
    assert Pow10(3) == 1_000 by { assert Pow10(1) == 10; }
    PaddedWidth(milli, 3);
    ThreeDigits(f);
  }

  lemma ThreeDigits(f: string)
    requires |f| == 3 && AllDigits(f)
    ensures Fraction(f) == ParseNat(f)
  {
    var two, one := f[..2], f[..1];
    assert ParseNat(one) == FractionDigit(f, 0) by { assert one[..0] == ""; }
    assert ParseNat(two) == 10 * ParseNat(one) + FractionDigit(f, 1) by { assert two[..1] == one; }
  }

  /** Three fields joined by colons are read field by field. */
  lemma FieldsReadAsTime(h: string, m: string, s: string, t: Time)
    requires AllDigits(m) && ':' !in h && ':' !in s
    requires ParseI64(h) == Some(t.hour) && ParseI64(m) == Some(t.minute) && SecondsOf(s) == Some((t.second, t.milli))
    requires 0 <= t.hour < 24 && 0 <= t.minute < 60 && 0 <= t.second <= 60
    ensures ParseTime(h + ":" + m + ":" + s) == Some(t)
  {
    assert h + ":" + m + ":" + s == h + [':'] + (m + [':'] + s);
    SplitThree(h, m, s, ':');
    hide Split, ParseI64, AllDigits, SecondsOf;
  }

  lemma TimeReads(timeOfDay: nat, milli: nat)
    requires timeOfDay < 86_400 && milli < 1_000
    ensures ParseTime(TimeText(timeOfDay, milli)) == Some(TimeOf(timeOfDay, milli))
  {
    var t := TimeOf(timeOfDay, milli);
    var h, m, s := Padded(t.hour, 2), Padded(t.minute, 2), Padded(t.second, 2) + "." + Padded(milli, 3);
    PaddedField(t.hour, 2, I64_MIN, I64_MAX, ':');
    PaddedField(t.minute, 2, I64_MIN, I64_MAX, ':');
    PaddedField(t.second, 2, I64_MIN, I64_MAX, ':');
    PaddedField(milli, 3, I64_MIN, I64_MAX, ':');
    SecondsRead(t.second, milli);
    hide Padded, ParseInt, AllDigits, IsDigit, SecondsOf, ParseTime;
    FieldsReadAsTime(h, m, s, t);
  }

  /** The time of day that the printer writes. */
  function TimeOf(timeOfDay: nat, milli: nat): Time {
    Time(timeOfDay / 3_600, timeOfDay % 3_600 / 60, timeOfDay % 60, milli)
  }

  // ---------- inside the guard, nothing overflows ----------

  lemma DayNumberBounds(d: Date)
    requires Valid(d) && -MAX_YEAR <= d.year <= MAX_YEAR
    ensures -106_651_900_000 <= DaysFromCivil(d) <= 106_651_900_000
  {
    var year := if d.month <= 2 then d.year - 1 else d.year;
    var era := year / 400;
    assert -730_001 <= era <= 730_000;
    var n := year - era * 400;
    assert 0 <= n < 400;
    hide IsLeapYear;
  }

  /** Inside the year guard and the field ranges, no checked step overflows. */
  lemma NeverOverflows(d: Date, t: Time, offset: int)
    requires Valid(d) && -MAX_YEAR <= d.year <= MAX_YEAR
    requires 0 <= t.hour < 24 && 0 <= t.minute < 60 && 0 <= t.second <= 60 && 0 <= t.milli < 1_000
    requires -1_440 < offset < 1_440
    ensures Combine(DaysFromCivil(d), t, offset)
         == Some(((DaysFromCivil(d) * 86_400 + t.hour * 3_600 + t.minute * 60 + t.second) - offset * 60) * 1_000 + t.milli)
  {
    DayNumberBounds(d);
    hide DaysFromCivil;
  }

  lemma TimeInRange(text: string)
    requires ParseTime(text).Some?
    ensures var t := ParseTime(text).value;
            0 <= t.hour < 24 && 0 <= t.minute < 60 && 0 <= t.second <= 60 && 0 <= t.milli < 1_000
  {
    hide Split, ParseI64, SplitOnce, AllDigits;
  }

  lemma OffsetInRange(rest: string)
    requires SplitZone(rest).Read?
    ensures -1_440 < SplitZone(rest).value.1 < 1_440
  {
    hide LastSign, ParseI64, SplitOnce, Octets, CutAt;
  }

  lemma DateInRange(text: string)
    requires ParseDate(text).Some?
    ensures var d := ParseDate(text).value; Valid(d) && -MAX_YEAR <= d.year <= MAX_YEAR
  {
    hide Split, ParseI64, ParseU32, Valid;
  }

  /**
   * The checked arithmetic refuses nothing: over every text, once the date, the zone and the
   * time have been read, the answer is the instant they name and never an overflow.
   */
  lemma OnlyFieldsRefuse(text: string)
    ensures match SplitOnce(Trim(text), {'T', 't', ' '})
            case None => MillisFromIso(text) == Refused
            case Some((date, rest)) =>
              (match ParseDate(date)
               case None => MillisFromIso(text) == Refused
               case Some(d) =>
                 (match SplitZone(rest)
                  case Refused => MillisFromIso(text) == Refused
                  case Panicked => MillisFromIso(text) == Panicked
                  case Read((time, offset)) =>
                    (match ParseTime(time)
                     case None => MillisFromIso(text) == Refused
                     case Some(t) =>
                       MillisFromIso(text) == Read(
                         (DaysFromCivil(d) * 86_400 + t.hour * 3_600 + t.minute * 60 + t.second - offset * 60) * 1_000
                         + t.milli))))
  {
    hide Split, ParseDate, SplitZone, ParseTime, SplitOnce, Trim, Combine, DaysFromCivil, Valid;
    match SplitOnce(Trim(text), {'T', 't', ' '})
    case None =>
    case Some((date, rest)) =>
      if ParseDate(date).Some? && SplitZone(rest).Read? && ParseTime(SplitZone(rest).value.0).Some? {
        DateInRange(date);
        OffsetInRange(rest);
        TimeInRange(SplitZone(rest).value.0);
        NeverOverflows(ParseDate(date).value, ParseTime(SplitZone(rest).value.0).value, SplitZone(rest).value.1);
      }
  }

  // ---------- when the reader panics ----------

  lemma OctetsFront(s: string, i: nat)
    requires 0 < i <= |s|
    ensures Octets(s[..i]) == Utf8Len(s[0]) + Octets(s[1..][..i - 1])
  {
    assert s[..i][1..] == s[1..][..i - 1];
  }

  /** One more character is its width more. */
  lemma {:induction false} OctetsAt(s: string, i: nat)
    requires i < |s|
    ensures Octets(s[..i + 1]) == Octets(s[..i]) + Utf8Len(s[i])
    decreases i
  {
    OctetsFront(s, i + 1);
    if i > 0 {
      OctetsFront(s, i);
      OctetsAt(s[1..], i - 1);
    } else {
      assert s[1..][..0] == "";
    }
  }

  predicate IsBoundary(s: string, n: nat) { exists i | 0 <= i <= |s| :: Octets(s[..i]) == n }

  lemma {:induction false} CutAtExactly(s: string, n: nat)
    ensures CutAt(s, n).Some? <==> IsBoundary(s, n)
    ensures CutAt(s, n).Some? ==> Octets(s[..CutAt(s, n).value]) == n
    decreases |s|
  {
    assert Octets(s[..0]) == 0;
    if n > 0 && s != "" {
      var w := Utf8Len(s[0]);
      if w <= n {
        CutAtExactly(s[1..], n - w);
        if CutAt(s[1..], n - w).Some? {
          OctetsFront(s, CutAt(s, n).value);
        }
      }
      if IsBoundary(s, n) {
        var i :| 0 <= i <= |s| && Octets(s[..i]) == n;
        OctetsFront(s, i);
      }
    }
  }

  /** Four octets without a colon, and no character that starts at the third of them. */
  ghost predicate HasNoMiddle(zone: string)
    ensures HasNoMiddle(zone) ==> zone != ""
  {
    && ':' !in zone
    && Octets(zone) == 4
    && !IsBoundary(zone, 2)
  }

  /** A zone after a sign that is not the first character, with no `Z` behind it. */
  ghost predicate SignedZone(rest: string, zone: string) {
    && (rest == "" || rest[|rest| - 1] !in {'Z', 'z'})
    && var at := LastSign(rest);
       at.Some? && at.value > 0 && zone == rest[at.value + 1..]
  }

  lemma ZonePanics(zone: string)
    ensures ZoneMinutes(zone) == Panicked <==> HasNoMiddle(zone)
  {
    hide Octets, CutAt, ParseI64;
    CutAtExactly(zone, 2);
    if ':' !in zone {
      FindNone(zone, {':'});
    }
  }

  /**
   * Over every text: the reader panics exactly when the date is read and the zone, behind the
   * last sign of what follows, is four octets long without a colon and a character straddles
   * its middle.
   */
  lemma PanicsExactly(text: string)
    ensures MillisFromIso(text) == Panicked <==>
            match SplitOnce(Trim(text), {'T', 't', ' '})
            case None => false
            case Some((date, rest)) =>
              ParseDate(date).Some? && exists zone :: SignedZone(rest, zone) && HasNoMiddle(zone)
  {
    hide Split, ParseDate, ParseTime, SplitOnce, Trim, Combine, DaysFromCivil, ZoneMinutes, HasNoMiddle;
    match SplitOnce(Trim(text), {'T', 't', ' '})
    case None =>
    case Some((date, rest)) =>
      var at := LastSign(rest);
      if at.Some? {
        ZonePanics(rest[at.value + 1..]);
        assert at.value > 0 && (rest == "" || rest[|rest| - 1] !in {'Z', 'z'}) ==> SignedZone(rest, rest[at.value + 1..]);
      }
  }

  /** The widths such a zone's characters have, in octets: 4, or 1 and 3, or 3 and 1, or 1, 2 and 1. */
  lemma NoMiddleShapes(zone: string)
    requires Octets(zone) == 4
    ensures !IsBoundary(zone, 2) <==>
            || (|zone| == 1 && Utf8Len(zone[0]) == 4)
            || (|zone| == 2 && Utf8Len(zone[0]) != 2)
            || (|zone| == 3 && Utf8Len(zone[1]) == 2)
  {
    hide Utf8Len, Octets;
    var n := |zone|;
    NoOctets(zone);
    assert zone[..n] == zone;
    WidthBounds(zone);
    OctetsAt(zone, 0);
    if n > 1 {
      OctetsAt(zone, 1);
    }
    if n > 2 {
      OctetsAt(zone, 2);
    }
    if n > 3 {
      OctetsAt(zone, 3);
    }
  }

  lemma NoOctets(s: string)
    ensures Octets(s[..0]) == 0 && (s == "" ==> Octets(s) == 0)
  {
  }

  lemma {:induction false} WidthBounds(s: string)
    ensures Octets(s) >= |s| && forall c | c in s :: 1 <= Utf8Len(c) <= 4
  {
    if s != "" {
      WidthBounds(s[1..]);
    }
  }

  lemma {:induction false} LastSignAfter(a: string, c: char, b: string)
    requires c in {'+', '-'} && '+' !in b && '-' !in b
    ensures LastSign(a + [c] + b) == Some(|a|)
    decreases |b|
  {
    var s := a + [c] + b;
    if b == "" {
      assert s[|s| - 1] == c;
    } else {
      assert s[..|s| - 1] == a + [c] + b[..|b| - 1];
      LastSignAfter(a, c, b[..|b| - 1]);
    }
  }

  /** Text that falls apart into a date, and a time with such a zone behind a sign, panics. */
  lemma NoMiddlePanics(date: string, time: string, zone: string)
    requires date != "" && DateChars(date) && ParseDate(date).Some?
    requires time != "" && '+' !in zone && '-' !in zone && HasNoMiddle(zone)
    requires !IsWhitespace(zone[|zone| - 1]) && zone[|zone| - 1] !in {'Z', 'z'}
    ensures MillisFromIso(date + ['T'] + (time + ['+'] + zone)) == Panicked
  {
    var rest := time + ['+'] + zone;
    var text := date + ['T'] + rest;
    Trimmed(text);
    assert forall k | 0 <= k < |date| :: date[k] !in {'T', 't', ' '};
    SplitOnceAfter(date, 'T', rest, {'T', 't', ' '});
    LastSignAfter(time, '+', zone);
    assert rest[|time| + 1..] == zone;
    hide ParseDate, SplitOnce, Trim, LastSign, HasNoMiddle, MillisFromIso, IsWhitespace;
    assert SignedZone(rest, zone);
    PanicsExactly(text);
  }

  /** Any date that can be printed, with the zone `+1€` behind a time, panics. */
  lemma EuroZonePanics(d: Date)
    requires Valid(d) && InWindow(d)
    ensures MillisFromIso(DateText(d) + ['T'] + ("00:00" + ['+'] + "1\U{20AC}")) == Panicked
  {
    DateReads(d);
    DateCharacters(d);
    EuroHasNoMiddle("1\U{20AC}");
    hide DateText, ParseDate, HasNoMiddle, Valid, InWindow, DateChars, MillisFromIso;
    NoMiddlePanics(DateText(d), "00:00", "1\U{20AC}");
  }

  lemma EuroHasNoMiddle(zone: string)
    requires zone == "1\U{20AC}"
    ensures HasNoMiddle(zone)
  {
    assert Utf8Len(zone[0]) == 1 && Utf8Len(zone[1]) == 3;
    NoOctets(zone);
    OctetsAt(zone, 0);
    OctetsAt(zone, 1);
    assert zone[..2] == zone;
    hide Octets, IsBoundary;
    NoMiddleShapes(zone);
  }

  // ---------- printing and reading ----------

  lemma PrintedYear(millis: int)
    requires I64_MIN <= millis <= I64_MAX
    ensures -0x1_0000_0000 < CivilFromDays(millis / 1_000 / 86_400).year < 0x1_0000_0000
  {
    var days := millis / 1_000 / 86_400;
    assert -106_751_991_168 <= days <= 106_751_991_168;
    YearBounds(days);
  }

  lemma YearBounds(days: int)
    requires -106_751_991_168 <= days <= 106_751_991_168
    ensures -0x1_0000_0000 < CivilFromDays(days).year < 0x1_0000_0000
  {
    var dayOfEra := (days + 719_468) % 146_097;
    assert -1_000_000 < (days + 719_468) / 146_097 < 1_000_000;
    assert -1 <= YearOfEra(dayOfEra) <= 500;
  }

  /** A date, a time and a zone mark fall apart where they were joined. */
  lemma CutsApart(date: string, time: string)
    requires date != "" && DateChars(date)
    ensures var text := date + "T" + time + "Z";
            && SplitOnce(Trim(text), {'T', 't', ' '}) == Some((date, time + "Z"))
            && SplitZone(time + "Z") == Read((time, 0))
  {
    var text := date + "T" + time + "Z";
    Trimmed(text);
    assert text == date + ['T'] + (time + "Z");
    assert forall k | 0 <= k < |date| :: date[k] !in {'T', 't', ' '};
    SplitOnceAfter(date, 'T', time + "Z", {'T', 't', ' '});
    assert (time + "Z")[..|time|] == time;
    hide SplitOnce, Trim;
  }

  predicate DateChars(s: string) { forall k | 0 <= k < |s| :: IsDigit(s[k]) || s[k] == '-' }

  lemma JoinedDateChars(y: string, m: string, day: string)
    requires DateChars(y) && DateChars(m) && DateChars(day)
    ensures DateChars(y + "-" + (m + "-" + day))
  {
    assert DateChars(m + "-" + day);
    assert DateChars(y + "-");
  }

  lemma PaddedChars(n: nat, width: nat)
    ensures Padded(n, width) != "" && DateChars(Padded(n, width)) && DateChars("-" + Padded(n, width))
  {
    hide Padded, ParseNat;
    PaddedReads(n, width);
  }

  lemma DateCharacters(d: Date)
    requires Valid(d)
    ensures DateText(d) != "" && DateChars(DateText(d))
  {
    hide Padded, DateChars;
    PaddedChars(d.month, 2);
    PaddedChars(d.day, 2);
    PaddedChars(if d.year >= 0 then d.year else -d.year, if d.year >= 0 then 4 else 3);
    JoinedDateChars(YearText(d.year), Padded(d.month, 2), Padded(d.day, 2));
  }

  /** The text is read through its three cuts. */
  lemma ReadThroughCuts(text: string, date: string, rest: string, time: string, t: Time)
    requires SplitOnce(Trim(text), {'T', 't', ' '}) == Some((date, rest))
    requires SplitZone(rest) == Read((time, 0)) && ParseTime(time) == Some(t)
    ensures MillisFromIso(text)
         == match ParseDate(date)
            case None => Refused
            case Some(d) => (match Combine(DaysFromCivil(d), t, 0) case None => Refused case Some(n) => Read(n))
  {
    hide SplitOnce, Trim, SplitZone, ParseDate, ParseTime, Combine, DaysFromCivil;
  }

  function Instant(d: Date, timeOfDay: int, milli: int): int {
    (DaysFromCivil(d) * 86_400 + timeOfDay) * 1_000 + milli
  }

  function Printed(d: Date, timeOfDay: nat, milli: nat): string
    requires Valid(d)
  {
    DateText(d) + "T" + TimeText(timeOfDay, milli) + "Z"
  }

  lemma CombinesToInstant(d: Date, timeOfDay: nat, milli: nat)
    requires Valid(d) && InWindow(d) && timeOfDay < 86_400 && milli < 1_000
    ensures Combine(DaysFromCivil(d), TimeOf(timeOfDay, milli), 0) == Some(Instant(d, timeOfDay, milli))
  {
    var t := TimeOf(timeOfDay, milli);
    hide DaysFromCivil, Combine, Valid;
    NeverOverflows(d, t, 0);
    assert t.hour * 3_600 + t.minute * 60 + t.second == timeOfDay;
  }

  /** A date and a time of day, printed together, read back as the instant they name. */
  lemma PrintedReads(d: Date, timeOfDay: nat, milli: nat)
    requires Valid(d) && -0x1_0000_0000 < d.year < 0x1_0000_0000 && timeOfDay < 86_400 && milli < 1_000
    ensures MillisFromIso(Printed(d, timeOfDay, milli)) == if InWindow(d) then Read(Instant(d, timeOfDay, milli)) else Refused
  {
    hide DaysFromCivil, DateText, TimeText, SplitOnce, Trim, SplitZone, ParseDate, ParseTime, Combine, Valid, MillisFromIso,
      TimeOf, Instant;
    var date, time, t := DateText(d), TimeText(timeOfDay, milli), TimeOf(timeOfDay, milli);
    TimeReads(timeOfDay, milli);
    DateCharacters(d);
    CutsApart(date, time);
    ReadThroughCuts(Printed(d, timeOfDay, milli), date, time + "Z", time, t);
    DateReads(d);
    if InWindow(d) {
      CombinesToInstant(d, timeOfDay, milli);
    }
  }

  lemma InstantOfMillis(millis: int)
    ensures DaysFromCivil(CivilFromDays(millis / 1_000 / 86_400)) == millis / 1_000 / 86_400
    ensures Instant(CivilFromDays(millis / 1_000 / 86_400), millis / 1_000 % 86_400, millis % 1_000) == millis
    ensures Valid(CivilFromDays(millis / 1_000 / 86_400))
  {
    hide CivilFromDays, DaysFromCivil, Valid;
    CalendarBijection(millis / 1_000 / 86_400, CivilFromDays(millis / 1_000 / 86_400));
  }

  /**
   * Over every 64-bit instant: what is printed reads back as itself exactly when its year is
   * in `0 ..= MAX_YEAR`, and is refused otherwise.
   */
  lemma RoundTrip(millis: int)
    requires I64_MIN <= millis <= I64_MAX
    ensures MillisFromIso(IsoFromMillis(millis))
         == if InWindow(CivilFromDays(millis / 1_000 / 86_400)) then Read(millis) else Refused
  {
    hide CivilFromDays, DaysFromCivil, DateText, TimeText, MillisFromIso, Valid, Instant;
    InstantOfMillis(millis);
    PrintedYear(millis);
    PrintedReads(CivilFromDays(millis / 1_000 / 86_400), millis / 1_000 % 86_400, millis % 1_000);
  }
}
