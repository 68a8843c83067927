/**
 * The day string that keys every spend cap, and the reset countdown, over the
 * Gregorian arithmetic of section 21.4.1 of ECMA-262. Times are integral
 * milliseconds since the epoch; a Date holds at most 8.64e15 of them either way.
 */
module Calendar {
  import opened Wrappers
  import opened Decimal

  const MS_PER_DAY: int := 86_400_000
  const MAX_TIME: int := 8_640_000_000_000_000

  /** First millisecond of the year 10000, where toISOString grows a sign and two digits. */
  const YEAR_10000: int := 253_402_300_800_000

  /** First millisecond of the year 0. */
  const YEAR_0: int := -62_167_219_200_000

  function DayOf(ms: int): int {
    ms / MS_PER_DAY
  }

  // ---- Years ----

  /** DayFromYear: the day number of 1 January. */
  function DayFromYear(y: int): int {
    365 * (y - 1970) + (y - 1969) / 4 - (y - 1901) / 100 + (y - 1601) / 400
  }

  predicate IsLeap(y: int) {
    y % 4 == 0 && (y % 100 != 0 || y % 400 == 0)
  }

  lemma YearLength(y: int)
    ensures DayFromYear(y + 1) == DayFromYear(y) + (if IsLeap(y) then 366 else 365)
  {
    FourthYears(y);
    HundredthYears(y);
    FourHundredthYears(y);
  }

  lemma FourthYears(y: int)
    ensures (y - 1968) / 4 == (y - 1969) / 4 + (if y % 4 == 0 then 1 else 0)
  {
  }

  lemma HundredthYears(y: int)
    ensures (y - 1900) / 100 == (y - 1901) / 100 + (if y % 100 == 0 then 1 else 0)
  {
  }

  lemma FourHundredthYears(y: int)
    ensures (y - 1600) / 400 == (y - 1601) / 400 + (if y % 400 == 0 then 1 else 0)
    ensures y % 400 == 0 ==> y % 100 == 0
    ensures y % 100 == 0 ==> y % 4 == 0
  {
  }

  /** YearFromTime: the year whose days include d, found by walking from 1970. */
  function YearOfDay(d: int): (y: int)
    ensures DayFromYear(y) <= d < DayFromYear(y + 1)
  {
    SeekYear(d, 1970)
  }

  function SeekYear(d: int, y: int): (r: int)
    ensures DayFromYear(r) <= d < DayFromYear(r + 1)
    decreases d < DayFromYear(y), if d < DayFromYear(y) then DayFromYear(y) - d else d - DayFromYear(y)
  {
    assert DayFromYear(y - 1) < DayFromYear(y) < DayFromYear(y + 1) by {
      YearLength(y - 1);
      YearLength(y);
    }
    if d < DayFromYear(y) then SeekYear(d, y - 1)
    else if d >= DayFromYear(y + 1) then SeekYear(d, y + 1)
    else y
  }

  lemma {:induction false} YearsAscend(y: int, z: int)
    requires y <= z
    ensures DayFromYear(y) + 365 * (z - y) <= DayFromYear(z)
    decreases z - y
  {
    if y < z {
      YearLength(y);
      YearsAscend(y + 1, z);
    }
  }

  // ---- Months ----

  /** Days of the year before month m (0 to 12), as in the MonthFromTime table. */
  function DaysBeforeMonth(m: nat, leap: bool): nat
    requires m <= 12
  {
    [0, 31, 59, 90, 120, 151, 181, 212, 243, 273, 304, 334, 365][m] + (if leap && m >= 2 then 1 else 0)
  }

  function MonthOfYearDay(n: nat, leap: bool): (m: nat)
    requires n < DaysBeforeMonth(12, leap)
    ensures m < 12 && DaysBeforeMonth(m, leap) <= n < DaysBeforeMonth(m + 1, leap)
  {
    if n < DaysBeforeMonth(1, leap) then 0
    else if n < DaysBeforeMonth(2, leap) then 1
    else if n < DaysBeforeMonth(3, leap) then 2
    else if n < DaysBeforeMonth(4, leap) then 3
    else if n < DaysBeforeMonth(5, leap) then 4
    else if n < DaysBeforeMonth(6, leap) then 5
    else if n < DaysBeforeMonth(7, leap) then 6
    else if n < DaysBeforeMonth(8, leap) then 7
    else if n < DaysBeforeMonth(9, leap) then 8
    else if n < DaysBeforeMonth(10, leap) then 9
    else if n < DaysBeforeMonth(11, leap) then 10
    else 11
  }

  /** A calendar date; months count from 0 and days of the month from 1. */
  datatype Civil = Civil(year: int, month: nat, date: nat)

  function CivilOfDay(d: int): Civil {
    var y := YearOfDay(d);
    YearLength(y);
    var n := d - DayFromYear(y);
    var m := MonthOfYearDay(n, IsLeap(y));
    Civil(y, m, n - DaysBeforeMonth(m, IsLeap(y)) + 1)
  }

  predicate RealDate(c: Civil) {
    c.month < 12
    && 1 <= c.date <= DaysBeforeMonth(c.month + 1, IsLeap(c.year)) - DaysBeforeMonth(c.month, IsLeap(c.year))
  }

  /** MakeDay: a date past the end of its month spills into the next one. */
  function DayFromCivil(c: Civil): int
    requires c.month < 12
  {
    DayFromYear(c.year) + DaysBeforeMonth(c.month, IsLeap(c.year)) + c.date - 1
  }

  /** Days and real calendar dates are in bijection. */
  lemma CivilRoundTrip(d: int)
    ensures RealDate(CivilOfDay(d)) && DayFromCivil(CivilOfDay(d)) == d
  {
    YearLength(YearOfDay(d));
  }

  lemma CivilUnique(c: Civil)
    requires RealDate(c)
    ensures CivilOfDay(DayFromCivil(c)) == c
  {
    var d := DayFromCivil(c);
    YearLength(c.year);
    MonthTableAscends(c.month, 11, IsLeap(c.year));
    assert DayFromYear(c.year) <= d < DayFromYear(c.year + 1);
    YearUnique(d, c.year);
    MonthUnique(d - DayFromYear(c.year), c.month, IsLeap(c.year));
  }

  lemma YearUnique(d: int, y: int)
    requires DayFromYear(y) <= d < DayFromYear(y + 1)
    ensures YearOfDay(d) == y
  {
    var z := YearOfDay(d);
    if z < y {
      YearsAscend(z + 1, y);
    } else if y < z {
      YearsAscend(y + 1, z);
    }
  }

  lemma {:induction false} MonthTableAscends(m: nat, n: nat, leap: bool)
    requires m <= n < 12
    ensures DaysBeforeMonth(m + 1, leap) <= DaysBeforeMonth(n + 1, leap)
    decreases n - m
  {
    if m < n {
      MonthTableAscends(m + 1, n, leap);
    }
  }

  lemma MonthUnique(n: nat, m: nat, leap: bool)
    requires m < 12 && DaysBeforeMonth(m, leap) <= n < DaysBeforeMonth(m + 1, leap)
    requires n < DaysBeforeMonth(12, leap)
    ensures MonthOfYearDay(n, leap) == m
  {
    var k := MonthOfYearDay(n, leap);
    if k < m {
      MonthTableAscends(k, m - 1, leap);
    } else if m < k {
      MonthTableAscends(m, k - 1, leap);
    }
  }

  /** The day number without any table: years from 1 March, five months of 153 days each. */
  function DayInClosedForm(year: int, month: nat, date: int): int {
    var y, m := if month < 2 then year - 1 else year, (month + 10) % 12;
    365 * y + y / 4 - y / 100 + y / 400 + (153 * m + 2) / 5 + date - 719469
  }

  lemma CenturiesShift(y: int)
    ensures (y - 1969) / 4 == (y - 1) / 4 - 492 && y / 4 == (y - 1) / 4 + (if y % 4 == 0 then 1 else 0)
    ensures (y - 1901) / 100 == (y - 1) / 100 - 19 && y / 100 == (y - 1) / 100 + (if y % 100 == 0 then 1 else 0)
    ensures (y - 1601) / 400 == (y - 1) / 400 - 4 && y / 400 == (y - 1) / 400 + (if y % 400 == 0 then 1 else 0)
  {
  }

  lemma MonthsInClosedForm(m: nat)
    requires m < 12
    ensures DaysBeforeMonth(m, false) == (153 * ((m + 10) % 12) + 2) / 5 + (if m < 2 then -306 else 59)
  {
  }

  /** Every real date has the day number of the closed form, so no month of the table is off. */
  lemma DateInClosedForm(c: Civil)
    requires RealDate(c)
    ensures DayFromCivil(c) == DayInClosedForm(c.year, c.month, c.date)
  {
    CenturiesShift(c.year);
    FourHundredthYears(c.year);
    MonthsInClosedForm(c.month);
  }

  // ---- The day string ----

  /** Decimal digits of n, zero-padded on the left to the given width. */
  function Pad(n: nat, width: nat): (s: string)
    ensures |s| == width
  {
    if width == 0 then "" else Pad(n / 10, width - 1) + [DigitChar(n % 10)]
  }

  function Pow10(w: nat): nat {
    if w == 0 then 1 else 10 * Pow10(w - 1)
  }

  lemma {:induction false} PadInjective(a: nat, b: nat, width: nat)
    requires a < Pow10(width) && b < Pow10(width)
    requires Pad(a, width) == Pad(b, width)
    ensures a == b
  {
    if width > 0 {
      assert Pad(a / 10, width - 1) == Pad(a, width)[..width - 1];
      assert Pad(b / 10, width - 1) == Pad(b, width)[..width - 1];
      assert DigitChar(a % 10) == Pad(a, width)[width - 1] == Pad(b, width)[width - 1] == DigitChar(b % 10);
      PadInjective(a / 10, b / 10, width - 1);
    }
  }

  predicate HasPlainYear(y: int) {
    0 <= y <= 9999
  }

  /** The date part of toISOString, up to the 'T'. */
  function IsoDate(c: Civil): string {
    var monthAndDate := "-" + Pad(c.month + 1, 2) + "-" + Pad(c.date, 2);
    if HasPlainYear(c.year) then Pad(c.year, 4) + monthAndDate
    else if c.year < 0 then "-" + Pad(-c.year, 6) + monthAndDate
    else "+" + Pad(c.year, 6) + monthAndDate
  }

  predicate IsDateValue(ms: int) {
    -MAX_TIME <= ms <= MAX_TIME
  }

  /** dayUtcFromMs: new Date(ms).toISOString().slice(0, 10); toISOString throws outside the date range. */
  function DayUtc(ms: int): Option<string> {
    if IsDateValue(ms) then Some(IsoDate(CivilOfDay(DayOf(ms)))[..10]) else None
  }

  lemma YearThreshold(d: int, y: int)
    ensures y <= YearOfDay(d) <==> DayFromYear(y) <= d
  {
    hide DayFromYear;
    var z := YearOfDay(d);
    if y <= z {
      YearsAscend(y, z);
    } else {
      YearsAscend(z + 1, y);
    }
  }

  lemma YearBounds()
    ensures DayFromYear(300000) == 108853222 && DayFromYear(-299999) == -110291912
    ensures DayFromYear(0) == -719528 && DayFromYear(10000) == 2932897
  {
  }

  /** Every date value falls in a year that six digits hold. */
  lemma YearsInRange(ms: int)
    requires IsDateValue(ms)
    ensures -300000 < CivilOfDay(DayOf(ms)).year < 300000
    ensures HasPlainYear(CivilOfDay(DayOf(ms)).year) <==> YEAR_0 <= ms < YEAR_10000
  {
    var d := DayOf(ms);
    YearBounds();
    YearThreshold(d, 300000);
    YearThreshold(d, -299999);
    YearThreshold(d, 0);
    YearThreshold(d, 10000);
    assert CivilOfDay(d).year == YearOfDay(d);
    hide YearOfDay, DayFromYear, CivilOfDay;
  }

  lemma Pow10Small()
    ensures Pow10(2) == 100 && Pow10(4) == 10000 && Pow10(6) == 1000000
  {
    assert Pow10(0) == 1;
    assert Pow10(1) == 10;
    assert Pow10(2) == 100;
    assert Pow10(3) == 1000;
    assert Pow10(4) == 10000;
    assert Pow10(5) == 100000;
  }

  predicate SharesKey(a: int, b: int) {
    var ca, cb := CivilOfDay(DayOf(a)), CivilOfDay(DayOf(b));
    if YEAR_0 <= a < YEAR_10000
    then YEAR_0 <= b < YEAR_10000 && DayOf(a) == DayOf(b)
    else !(YEAR_0 <= b < YEAR_10000) && ca.year == cb.year && ca.month == cb.month
  }

  /**
   * When two instants share a day string. In the years 0 to 9999 the string names the UTC day
   * exactly; outside them slice(0, 10) cuts the day of the month off, so it names only the month.
   */
  lemma EqualDayStrings(a: int, b: int)
    requires IsDateValue(a) && IsDateValue(b)
    ensures DayUtc(a) == DayUtc(b) <==> SharesKey(a, b)
  {
    var ca, cb := CivilOfDay(DayOf(a)), CivilOfDay(DayOf(b));
    YearsInRange(a);
    YearsInRange(b);
    CivilRoundTrip(DayOf(a));
    CivilRoundTrip(DayOf(b));
    SliceDeterminesDate(ca, cb);
    assert DayOf(a) == DayOf(b) <==> ca == cb;
    assert HasPlainYear(ca.year) <==> YEAR_0 <= a < YEAR_10000;
  }

  lemma {:induction false} PadReads(n: nat, width: nat)
    requires 0 < width && n < Pow10(width)
    ensures AllDigits(Pad(n, width)) && ValueOf(Pad(n, width)) == n
  {
    PadDigits(n, width);
    assert Pad(n, width)[..width - 1] == Pad(n / 10, width - 1);
    if width == 1 {
      assert Pow10(0) == 1 && Pad(n / 10, 0) == "";
    } else {
      PadReads(n / 10, width - 1);
    }
  }

  /** In the years 0 to 9999 the day string is a real date, year, month and day as read off it, and that date's number is the day. */
  lemma DayStringReadsBack(ms: int)
    requires YEAR_0 <= ms < YEAR_10000
    ensures DayUtc(ms).Some? && |DayUtc(ms).value| == 10
    ensures var s := DayUtc(ms).value;
      && s[4] == '-' == s[7] && AllDigits(s[..4]) && AllDigits(s[5..7]) && AllDigits(s[8..])
      && var (y, m, d) := (ValueOf(s[..4]), ValueOf(s[5..7]), ValueOf(s[8..]));
      && 1 <= m <= 12 && RealDate(Civil(y, m - 1, d)) && DayOf(ms) == DayInClosedForm(y, m - 1, d)
  {
    var c := CivilOfDay(DayOf(ms));
    YearsInRange(ms);
    CivilRoundTrip(DayOf(ms));
    DateInClosedForm(c);
    MonthsAreShort(c);
    SliceKeeps(c);
    Pow10Small();
    PadReads(c.year, 4);
    PadReads(c.month + 1, 2);
    PadReads(c.date, 2);
    assert DayUtc(ms) == Some(Kept(c)) && c == Civil(c.year, c.month, c.date);
    hide *;
    PartsKept(c);
  }

  lemma PartsKept(c: Civil)
    requires HasPlainYear(c.year)
    ensures var s := Kept(c);
      |s| == 10 && s[4] == '-' == s[7]
      && s[..4] == Pad(c.year, 4) && s[5..7] == Pad(c.month + 1, 2) && s[8..] == Pad(c.date, 2)
  {
    hide Pad;
  }

  /** For the clocks the program runs on, equal strings mean equal day indices. */
  lemma SameDayString(a: nat, b: nat)
    requires a < YEAR_10000 && b < YEAR_10000
    ensures DayUtc(a) == DayUtc(b) <==> DayOf(a) == DayOf(b)
  {
    EqualDayStrings(a, b);
  }

  /** The ten characters kept: the whole date, or sign, six-digit year and month. */
  function Kept(c: Civil): string {
    if HasPlainYear(c.year) then Pad(c.year, 4) + ("-" + (Pad(c.month + 1, 2) + ("-" + Pad(c.date, 2))))
    else [if c.year < 0 then '-' else '+'] + (Pad(Magnitude(c.year), 6) + ("-" + Pad(c.month + 1, 2)))
  }

  function Magnitude(y: int): nat {
    if y < 0 then -y else y
  }

  lemma SliceKeeps(c: Civil)
    ensures IsoDate(c)[..10] == Kept(c)
  {
    hide Pad;
    if HasPlainYear(c.year) {
      assert IsoDate(c) == Kept(c);
    } else {
      assert IsoDate(c) == Kept(c) + ("-" + Pad(c.date, 2));
    }
  }

  lemma SplitConcat(a: string, b: string, c: string, d: string)
    requires |a| == |c|
    ensures a + b == c + d <==> a == c && b == d
  {
    if a + b == c + d {
      assert a == (a + b)[..|a|] && c == (c + d)[..|a|];
      assert b == (a + b)[|a|..] && d == (c + d)[|a|..];
    }
  }

  lemma SliceDeterminesDate(a: Civil, b: Civil)
    requires RealDate(a) && RealDate(b)
    requires -300000 < a.year < 300000 && -300000 < b.year < 300000
    ensures IsoDate(a)[..10] == IsoDate(b)[..10] <==>
      if HasPlainYear(a.year) then a == b
      else !HasPlainYear(b.year) && a.year == b.year && a.month == b.month
  {
    SliceKeeps(a);
    SliceKeeps(b);
    LeadingCharacter(a);
    LeadingCharacter(b);
    if Kept(a) == Kept(b) {
      KeptDeterminesDate(a, b);
    }
  }

  lemma KeptDeterminesDate(a: Civil, b: Civil)
    requires RealDate(a) && RealDate(b)
    requires -300000 < a.year < 300000 && -300000 < b.year < 300000
    requires HasPlainYear(a.year) <==> HasPlainYear(b.year)
    requires Kept(a) == Kept(b)
    ensures a.year == b.year && a.month == b.month
    ensures HasPlainYear(a.year) ==> a.date == b.date
  {
    hide Pad;
    Pow10Small();
    MonthsAreShort(a);
    MonthsAreShort(b);
    var ma, mb, da, db := Pad(a.month + 1, 2), Pad(b.month + 1, 2), Pad(a.date, 2), Pad(b.date, 2);
    if HasPlainYear(a.year) {
      SplitConcat(Pad(a.year, 4), "-" + (ma + ("-" + da)), Pad(b.year, 4), "-" + (mb + ("-" + db)));
      SplitConcat("-", ma + ("-" + da), "-", mb + ("-" + db));
      SplitConcat(ma, "-" + da, mb, "-" + db);
      SplitConcat("-", da, "-", db);
      PadInjective(a.year, b.year, 4);
      PadInjective(a.date, b.date, 2);
    } else {
      var ya, yb := Magnitude(a.year), Magnitude(b.year);
      var sa, sb := if a.year < 0 then '-' else '+', if b.year < 0 then '-' else '+';
      SplitConcat([sa], Pad(ya, 6) + ("-" + ma), [sb], Pad(yb, 6) + ("-" + mb));
      SplitConcat(Pad(ya, 6), "-" + ma, Pad(yb, 6), "-" + mb);
      SplitConcat("-", ma, "-", mb);
      PadInjective(ya, yb, 6);
      assert sa == sb;
    }
    PadInjective(a.month + 1, b.month + 1, 2);
  }

  lemma MonthsAreShort(c: Civil)
    requires RealDate(c)
    ensures c.date <= 31
  {
  }

  /** The first character tells the plain years from the signed ones. */
  lemma LeadingCharacter(c: Civil)
    ensures |Kept(c)| == 10
    ensures IsDigit(Kept(c)[0]) <==> HasPlainYear(c.year)
  {
    if HasPlainYear(c.year) {
      PadFirst(c.year);
    }
  }

  lemma PadFirst(y: nat)
    ensures IsDigit(Pad(y, 4)[0])
  {
    PadDigits(y, 4);
  }

  lemma {:induction false} PadDigits(n: nat, width: nat)
    ensures forall i :: 0 <= i < width ==> IsDigit(Pad(n, width)[i])
  {
    if width > 0 {
      PadDigits(n / 10, width - 1);
    }
  }

  /** Past the year 9999 the cap window silently widens to a month: two different days, one key. */
  lemma DayStringCollidesAfter9999()
    ensures DayUtc(YEAR_10000) == DayUtc(YEAR_10000 + MS_PER_DAY)
    ensures DayOf(YEAR_10000) != DayOf(YEAR_10000 + MS_PER_DAY)
  {
    var first, second := Civil(10000, 0, 1), Civil(10000, 0, 2);
    assert DayFromCivil(first) == DayOf(YEAR_10000) && DayFromCivil(second) == DayOf(YEAR_10000 + MS_PER_DAY);
    assert RealDate(first) && RealDate(second);
    hide CivilOfDay, DayUtc;
    CivilUnique(first);
    CivilUnique(second);
    EqualDayStrings(YEAR_10000, YEAR_10000 + MS_PER_DAY);
  }

  // ---- The reset countdown ----

  /** Date.UTC(year, month, date + 1): the overflowing date is resolved by MakeDay. */
  function NextMidnight(nowMs: int): int {
    var c := CivilOfDay(DayOf(nowMs));
    DayFromCivil(c.(date := c.date + 1)) * MS_PER_DAY
  }

  /** resetCountdown: whole minutes to the next UTC midnight as "Hh MMm". */
  function ResetCountdown(nowMs: nat): string {
    var diff := NextMidnight(nowMs) - nowMs;
    var totalMin := (if diff > 0 then diff else 0) / 60_000;
    Print(totalMin / 60) + "h " + (if totalMin % 60 < 10 then "0" else "") + Print(totalMin % 60) + "m"
  }

  /** The countdown's target is exactly where the cap key changes: no earlier instant has a new key. */
  lemma NextMidnightIsNextKey(nowMs: nat, t: nat)
    requires nowMs < YEAR_10000 && t < YEAR_10000 && nowMs <= t
    ensures nowMs < NextMidnight(nowMs) <= nowMs + MS_PER_DAY
    ensures t < NextMidnight(nowMs) <==> DayUtc(t) == DayUtc(nowMs)
  {
    CivilRoundTrip(DayOf(nowMs));
    SameDayString(t, nowMs);
  }

  /** The text never promises more headroom time than is left, and is less than a minute short of it. */
  lemma CountdownIsHonest(nowMs: nat) returns (h: nat, m: nat)
    requires nowMs < YEAR_10000
    ensures ResetCountdown(nowMs) == Print(h) + "h " + Pad(m, 2) + "m" && m < 60 && h <= 24
    ensures (60 * h + m) * 60_000 <= NextMidnight(nowMs) - nowMs < (60 * h + m + 1) * 60_000
  {
    NextMidnightIsNextKey(nowMs, nowMs);
    hide *;
    var totalMin := (NextMidnight(nowMs) - nowMs) / 60_000;
    h, m := totalMin / 60, totalMin % 60;
    TwoDigits(m);
  }

  lemma TwoDigits(m: nat)
    requires m < 60
    ensures Pad(m, 2) == (if m < 10 then "0" else "") + Print(m)
  {
    assert Pad(m, 2) == Pad(m / 10, 1) + [DigitChar(m % 10)];
    assert Pad(m / 10, 1) == Pad(m / 100, 0) + [DigitChar(m / 10 % 10)];
  }
}
