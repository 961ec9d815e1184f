/** The wall-clock stamp: Unix milliseconds to an RFC 3339 text, through the day-number to
    civil-date conversion. */
module CivilDate {
  import opened Text
  import opened Canonical

  datatype Date = Date(year: int, month: int, day: int)

  // ---- The conversion, as the writer computes it ---------------------------

  /** Year of era, from day of era. */
  function YearOfEra(doe: int): int {
    (doe - doe / 1460 + doe / 36_524 - doe / 146_096) / 365
  }

  function MonthIndex(doy: int): int { (5 * doy + 2) / 153 }

  function CivilOf(era: int, yoe: int, doy: int): Date {
    var year := yoe + era * 400;
    var mp := MonthIndex(doy);
    var day := doy - (153 * mp + 2) / 5 + 1;
    var month := if mp < 10 then mp + 3 else mp - 9;
    Date(if month <= 2 then year + 1 else year, month, day)
  }

  function CivilFromDays(days: int): Date {
    var z := days + 719_468;
    var era, doe := z / 146_097, z % 146_097;
    var yoe := YearOfEra(doe);
    CivilOf(era, yoe, doe - (365 * yoe + yoe / 4 - yoe / 100))
  }

  // ---- The calendar, by its own rules --------------------------------------

  predicate Leap(y: int) { y % 4 == 0 && (y % 100 != 0 || y % 400 == 0) }

  function MonthLength(y: int, m: int): int {
    if m == 2 then (if Leap(y) then 29 else 28)
    else if m == 4 || m == 6 || m == 9 || m == 11 then 30
    else 31
  }

  predicate IsDate(d: Date) { 1 <= d.month <= 12 && 1 <= d.day <= MonthLength(d.year, d.month) }

  function NextDay(d: Date): Date {
    if d.day < MonthLength(d.year, d.month) then d.(day := d.day + 1)
    else if d.month < 12 then Date(d.year, d.month + 1, 1)
    else Date(d.year + 1, 1, 1)
  }

  /** The proleptic Gregorian date `n` days after 1970-01-01. */
  function Calendar(n: nat): Date {
    if n == 0 then Date(1970, 1, 1) else NextDay(Calendar(n - 1))
  }

  // ---- One day at a time ---------------------------------------------------

  function YearStart(y: int): int { 365 * y + y / 4 - y / 100 }

  /** The year of era `y` runs from March to February, so its leap day is in `y + 1`. */
  function YearDays(y: int): int { if Leap(y + 1) then 366 else 365 }

  lemma YearOfEraFrom(c: int, q: int, t: int)
    requires 0 <= c <= 3 && 0 <= q <= 24 && 0 <= t <= 1460
    requires q == 24 && t == 1460 ==> c == 3
    ensures YearOfEra(36_524 * c + 1461 * q + t) == 100 * c + 4 * q + (if t == 1460 then 3 else t / 365)
  {
    var doe := 36_524 * c + 1461 * q + t;
    var carry := (24 * c + q + t) / 1460;
    assert doe == 1460 * (25 * c + q) + (24 * c + q + t);
    assert doe / 1460 == 25 * c + q + carry;
    var last := if q == 24 && t == 1460 then 1 else 0;
    assert doe / 36_524 == c + last;
    assert doe / 146_096 == last;
    assert doe - doe / 1460 + doe / 36_524 - doe / 146_096 == 365 * (100 * c + 4 * q) + (t - carry);
    assert (t - carry) / 365 == if t == 1460 then 3 else t / 365;
  }

  lemma YearOfEraIsRight(doe: int)
    requires 0 <= doe < 146_097
    ensures 0 <= YearOfEra(doe) <= 399
    ensures 0 <= doe - YearStart(YearOfEra(doe)) < YearDays(YearOfEra(doe))
  {
    var c := if doe == 146_096 then 3 else doe / 36_524;
    var r := doe - 36_524 * c;
    var q := if r == 36_524 then 24 else r / 1461;
    var t := r - 1461 * q;
    YearOfEraFrom(c, q, t);
    var s := if t == 1460 then 3 else t / 365;
    YearStartFrom(c, q, s);
  }

  lemma YearStartFrom(c: int, q: int, s: int)
    requires 0 <= c <= 3 && 0 <= q <= 24 && 0 <= s <= 3
    ensures YearStart(100 * c + 4 * q + s) == 36_524 * c + 1461 * q + 365 * s
    ensures YearDays(100 * c + 4 * q + s) == if s == 3 && (q < 24 || c == 3) then 366 else 365
  {
    var y := 100 * c + 4 * q + s;
    assert y / 4 == 25 * c + q;
    assert y / 100 == c;
    LeapFrom(c, q, s);
  }

  lemma LeapFrom(c: int, q: int, s: int)
    requires 0 <= c <= 3 && 0 <= q <= 24 && 0 <= s <= 3
    ensures Leap(100 * c + 4 * q + s + 1) <==> s == 3 && (q < 24 || c == 3)
  {
    var y := 100 * c + 4 * q + s + 1;
    assert y % 4 == (s + 1) % 4;
    if s == 3 {
      assert y == 100 * c + 4 * (q + 1);
      assert y % 100 == 0 <==> q == 24;
    }
  }

  /** Consecutive days of an era: the next day of the year, or the first of the next. */
  lemma NextDayOfEra(doe: int)
    requires 0 <= doe < 146_096
    ensures var y, y' := YearOfEra(doe), YearOfEra(doe + 1);
            var doy := doe - YearStart(y);
            if doy + 1 < YearDays(y) then y' == y else y' == y + 1 && doe + 1 == YearStart(y')
  {
    YearOfEraIsRight(doe);
    YearOfEraIsRight(doe + 1);
    var y, y' := YearOfEra(doe), YearOfEra(doe + 1);
    YearsAbut(y);
    YearsAbut(y');
    if y' < y { YearStartsAscend(y' + 1, y); }
    if y + 1 < y' { YearStartsAscend(y + 2, y'); YearsAbut(y + 1); }
  }

  lemma YearsAbut(y: int)
    requires 0 <= y <= 399
    ensures y < 399 ==> YearStart(y + 1) == YearStart(y) + YearDays(y)
    ensures y == 399 ==> YearStart(y) + YearDays(y) == 146_097
  {}

  lemma YearStartsAscend(y: int, y': int)
    requires 0 <= y <= y'
    ensures YearStart(y) <= YearStart(y')
  {}

  /** The day of a March-based year, read as a civil date. */
  lemma CivilOfMonth(era: int, yoe: int, doy: int)
    requires 0 <= yoe <= 399 && 0 <= doy < YearDays(yoe)
    ensures IsDate(CivilOf(era, yoe, doy))
    ensures doy + 1 < YearDays(yoe) ==> CivilOf(era, yoe, doy + 1) == NextDay(CivilOf(era, yoe, doy))
    ensures doy + 1 == YearDays(yoe) ==> NextDay(CivilOf(era, yoe, doy)) == Date(yoe + 1 + era * 400, 3, 1)
    ensures CivilOf(era, yoe, 0) == Date(yoe + era * 400, 3, 1)
  {
    LeapShift(era, yoe + 1);
    var mp := MonthIndex(doy);
    assert 0 <= mp <= 11;
  }

  lemma LeapShift(era: int, y: int)
    ensures Leap(y + era * 400) <==> Leap(y)
  {
    SameRemainder4(y, era * 100);
    SameRemainder100(y, era * 4);
    SameRemainder400(y, era);
  }

  lemma SameRemainder4(y: int, e: int)
    ensures (y + 4 * e) % 4 == y % 4
  {}

  lemma SameRemainder100(y: int, e: int)
    ensures (y + 100 * e) % 100 == y % 100
  {}

  lemma SameRemainder400(y: int, e: int)
    ensures (y + 400 * e) % 400 == y % 400
  {}

  /** **Consecutive day numbers map to consecutive calendar dates**, for every day number. */
  lemma CivilStep(days: int)
    ensures IsDate(CivilFromDays(days))
    ensures CivilFromDays(days + 1) == NextDay(CivilFromDays(days))
  {
    hide YearOfEra, YearDays, YearStart, CivilOf, NextDay;
    var z := days + 719_468;
    var era, doe := z / 146_097, z % 146_097;
    YearOfEraIsRight(doe);
    var yoe := YearOfEra(doe);
    var doy := doe - YearStart(yoe);
    CivilFromEra(days, era, doe);
    CivilOfMonth(era, yoe, doy);
    if doe < 146_096 {
      CivilFromEra(days + 1, era, doe + 1);
      NextDayOfEra(doe);
      if doy + 1 == YearDays(yoe) {
        YearOfEraIsRight(doe + 1);
        CivilOfMonth(era, yoe + 1, 0) by { SomeDays(yoe + 1); }
      }
    } else {
      CivilFromEra(days + 1, era + 1, 0);
      LastDayOfEra();
      CivilOfMonth(era + 1, 0, 0) by { SomeDays(0); }
    }
  }

  lemma SomeDays(y: int)
    ensures 0 < YearDays(y)
  {}

  lemma CivilFromEra(days: int, era: int, doe: int)
    requires days + 719_468 == era * 146_097 + doe && 0 <= doe < 146_097
    ensures CivilFromDays(days) == CivilOf(era, YearOfEra(doe), doe - YearStart(YearOfEra(doe)))
  {
    hide YearOfEra, CivilOf;
    var z := days + 719_468;
    assert z / 146_097 == era && z % 146_097 == doe;
  }

  lemma LastDayOfEra()
    ensures YearOfEra(146_096) == 399 && 146_096 - YearStart(399) + 1 == YearDays(399)
    ensures YearOfEra(0) == 0 && YearStart(0) == 0
  {}

  lemma Epoch()
    ensures CivilFromDays(0) == Date(1970, 1, 1)
  {
    assert 719_468 / 146_097 == 4 && 719_468 % 146_097 == 135_080;
    assert YearOfEra(135_080) == 369;
    assert MonthIndex(306) == 10;
  }

  /** **The conversion is the calendar**: day `n` is the date reached from 1970-01-01 by
      `n` calendar successors. */
  lemma {:induction false} CivilIsCalendar(n: nat)
    ensures CivilFromDays(n) == Calendar(n) && IsDate(Calendar(n))
  {
    hide CivilFromDays, IsDate, NextDay;
    if n == 0 {
      Epoch();
      CivilStep(0);
    } else {
      CivilIsCalendar(n - 1);
      CivilStep(n - 1);
      CivilStep(n);
    }
  }

  // ---- The whole instant ---------------------------------------------------

  const I64_MAX := 0x7FFF_FFFF_FFFF_FFFF

  datatype Stamp = Stamp(date: Date, hour: int, minute: int, second: int, millis: int)

  /** The seconds saturate at the largest 64-bit signed integer. */
  function StampOf(unixMs: nat): Stamp {
    var secs := if unixMs / 1000 <= I64_MAX then unixMs / 1000 else I64_MAX;
    var days, rem := secs / 86_400, secs % 86_400;
    Stamp(CivilFromDays(days), rem / 3600, rem % 3600 / 60, rem % 60, unixMs % 1000)
  }

  function Zeros(n: int): string {
    if n <= 0 then "" else "0" + Zeros(n - 1)
  }

  /** `{n:0width}` of a non-negative number: zero-padded, never cut. */
  function Padded(n: nat, width: nat): string {
    Zeros(width - |Digits(n)|) + Digits(n)
  }

  function Abs(n: int): nat { if n < 0 then -n else n }

  /** One zero-padded number of a stamp, and the separator that follows it. */
  datatype Field = Field(value: nat, width: nat, separator: string)

  function FieldsText(fs: seq<Field>): string {
    if fs == [] then "" else Padded(fs[0].value, fs[0].width) + (fs[0].separator + FieldsText(fs[1..]))
  }

  function FieldsOf(s: Stamp): seq<Field> {
    [Field(Abs(s.date.year), 4, "-"), Field(Abs(s.date.month), 2, "-"), Field(Abs(s.date.day), 2, "T"),
     Field(Abs(s.hour), 2, ":"), Field(Abs(s.minute), 2, ":"), Field(Abs(s.second), 2, "."),
     Field(Abs(s.millis), 3, "Z")]
  }

  function StampText(s: Stamp): string {
    FieldsText(FieldsOf(s))
  }

  function Rfc3339FromUnixMillis(unixMs: nat): string {
    StampText(StampOf(unixMs))
  }

  // ---- The fields recover the instant --------------------------------------

  function DaysBeforeMonth(y: int, m: int): int
    requires 1 <= m <= 12
  {
    if m == 1 then 0 else DaysBeforeMonth(y, m - 1) + MonthLength(y, m - 1)
  }

  function YearLength(y: int): int { if Leap(y) then 366 else 365 }

  function DaysBeforeYear(y: int): int
    requires y >= 1970
  {
    if y == 1970 then 0 else DaysBeforeYear(y - 1) + YearLength(y - 1)
  }

  /** How many days a date lies after 1970-01-01, counted year by year and month by month. */
  function DayNumber(d: Date): int
    requires IsDate(d) && d.year >= 1970
  {
    DaysBeforeYear(d.year) + DaysBeforeMonth(d.year, d.month) + d.day - 1
  }

  lemma YearHasItsMonths(y: int)
    ensures DaysBeforeMonth(y, 12) + 31 == YearLength(y)
  {
    hide Leap;
    assert DaysBeforeMonth(y, 2) == 31;
    assert DaysBeforeMonth(y, 4) == 31 + MonthLength(y, 2) + 31;
    assert DaysBeforeMonth(y, 6) == DaysBeforeMonth(y, 4) + 61;
    assert DaysBeforeMonth(y, 8) == DaysBeforeMonth(y, 6) + 61;
    assert DaysBeforeMonth(y, 10) == DaysBeforeMonth(y, 8) + 61;
    assert DaysBeforeMonth(y, 12) == DaysBeforeMonth(y, 10) + 61;
  }

  lemma NextDayCounts(d: Date)
    requires IsDate(d) && d.year >= 1970
    ensures IsDate(NextDay(d)) && NextDay(d).year >= 1970
    ensures DayNumber(NextDay(d)) == DayNumber(d) + 1
  {
    hide Leap, DaysBeforeMonth;
    if d.day == MonthLength(d.year, d.month) {
      MonthStep(d.year, d.month);
      MonthStep(d.year + 1, 1);
      YearHasItsMonths(d.year);
      YearStep(d.year);
    }
  }

  lemma MonthStep(y: int, m: int)
    requires 1 <= m <= 12
    ensures m < 12 ==> DaysBeforeMonth(y, m + 1) == DaysBeforeMonth(y, m) + MonthLength(y, m)
    ensures DaysBeforeMonth(y, 1) == 0
  {}

  lemma YearStep(y: int)
    requires y >= 1970
    ensures DaysBeforeYear(y + 1) == DaysBeforeYear(y) + YearLength(y)
  {}

  lemma {:induction false} CalendarCounts(n: nat)
    ensures IsDate(Calendar(n)) && Calendar(n).year >= 1970 && DayNumber(Calendar(n)) == n
  {
    hide NextDay, IsDate, DayNumber;
    if n == 0 {
      EpochCounts();
    } else {
      CalendarCounts(n - 1);
      NextDayCounts(Calendar(n - 1));
    }
  }

  lemma EpochCounts()
    ensures IsDate(Date(1970, 1, 1)) && DayNumber(Date(1970, 1, 1)) == 0
  {}

  /** The milliseconds a stamp stands for. */
  function MillisOf(s: Stamp): int
    requires IsDate(s.date) && s.date.year >= 1970
  {
    (((DayNumber(s.date) * 24 + s.hour) * 60 + s.minute) * 60 + s.second) * 1000 + s.millis
  }

  predicate InRange(s: Stamp) {
    && IsDate(s.date) && s.date.year >= 1970
    && 0 <= s.hour < 24 && 0 <= s.minute < 60 && 0 <= s.second < 60 && 0 <= s.millis < 1000
  }

  /** **The fields recover the instant** exactly, for every instant whose seconds fit a
      64-bit signed integer; beyond that the seconds saturate. */
  lemma StampRecovers(unixMs: nat)
    ensures InRange(StampOf(unixMs))
    ensures MillisOf(StampOf(unixMs)) == unixMs <==> unixMs / 1000 <= I64_MAX
  {
    hide CivilFromDays, IsDate, DayNumber;
    var secs := if unixMs / 1000 <= I64_MAX then unixMs / 1000 else I64_MAX;
    CivilIsCalendar(secs / 86_400);
    CalendarCounts(secs / 86_400);
    ClockRecovers(secs);
    ClockRange(secs % 86_400);
  }

  lemma ClockRange(rem: int)
    requires 0 <= rem < 86_400
    ensures 0 <= rem / 3600 < 24 && 0 <= rem % 3600 / 60 < 60 && 0 <= rem % 60 < 60
  {}

  lemma ClockRecovers(secs: int)
    requires 0 <= secs
    ensures ((secs / 86_400 * 24 + secs % 86_400 / 3600) * 60 + secs % 86_400 % 3600 / 60) * 60 + secs % 86_400 % 60 ==
            secs
  {
    var rem := secs % 86_400;
    assert secs == 86_400 * (secs / 86_400) + rem;
    var h, r := rem / 3600, rem % 3600;
    assert rem == 3600 * h + r;
    assert r == 60 * (r / 60) + r % 60;
    assert rem % 60 == r % 60 by { assert rem == 60 * (60 * h + r / 60) + r % 60; }
  }

  // ---- The text sorts in time order ----------------------------------------

  predicate LexLt(a: string, b: string) { LexLe(a, b) && a != b }

  lemma LexPrefix(p: string, x: string, y: string)
    requires LexLt(x, y)
    ensures LexLt(p + x, p + y)
  {
    if p == [] {
      assert p + x == x && p + y == y;
    } else {
      assert (p + x)[1..] == p[1..] + x && (p + y)[1..] == p[1..] + y;
      LexPrefix(p[1..], x, y);
    }
  }

  lemma LexDecided(p: string, q: string, x: string, y: string)
    requires LexLt(p, q) && |p| == |q|
    ensures LexLt(p + x, q + y)
  {
    assert (p + x)[1..] == p[1..] + x && (q + y)[1..] == q[1..] + y;
    assert p == [p[0]] + p[1..] && q == [q[0]] + q[1..];
    if p[0] == q[0] { LexDecided(p[1..], q[1..], x, y); }
  }

  function Pow10(w: nat): nat { if w == 0 then 1 else 10 * Pow10(w - 1) }

  /** The `w` low decimal digits of `n`. */
  function Fixed(n: nat, w: nat): (t: string)
    ensures |t| == w
  {
    if w == 0 then "" else Fixed(n / 10, w - 1) + ["0123456789"[n % 10]]
  }

  lemma FixedZero(w: nat)
    ensures Fixed(0, w) == Zeros(w)
  {
    if w > 0 {
      FixedZero(w - 1);
      ZerosAppend(w - 1);
    }
  }

  lemma ZerosAppend(w: nat)
    ensures Zeros(w) + "0" == "0" + Zeros(w)
  {
    if w > 0 { ZerosAppend(w - 1); }
  }

  lemma {:induction false} PaddedIsFixed(n: nat, w: nat)
    requires n < Pow10(w) && w > 0
    ensures Padded(n, w) == Fixed(n, w)
  {
    if n < 10 {
      FixedZero(w - 1);
    } else {
      assert w > 1;
      PaddedIsFixed(n / 10, w - 1);
      var d := ["0123456789"[n % 10]];
      assert Digits(n) == Digits(n / 10) + d;
      assert Zeros(w - |Digits(n)|) + (Digits(n / 10) + d) == (Zeros(w - |Digits(n)|) + Digits(n / 10)) + d;
    }
  }

  lemma {:induction false} FixedAscends(a: nat, b: nat, w: nat)
    requires a < b < Pow10(w)
    ensures LexLt(Fixed(a, w), Fixed(b, w))
  {
    var da, db := ["0123456789"[a % 10]], ["0123456789"[b % 10]];
    if a / 10 < b / 10 {
      FixedAscends(a / 10, b / 10, w - 1);
      LexDecided(Fixed(a / 10, w - 1), Fixed(b / 10, w - 1), da, db);
    } else {
      assert a / 10 == b / 10 && a % 10 < b % 10;
      DigitsAscend(a % 10, b % 10);
      LexPrefix(Fixed(a / 10, w - 1), da, db);
    }
  }

  lemma DigitsAscend(a: nat, b: nat)
    requires a < b < 10
    ensures LexLt(["0123456789"[a]], ["0123456789"[b]])
  {}

  /** `fs` and `gs` differ only in values, and the first difference is an increase. */
  predicate FieldsLess(fs: seq<Field>, gs: seq<Field>) {
    && fs != [] && gs != []
    && fs[0].width == gs[0].width > 0 && fs[0].separator == gs[0].separator
    && fs[0].value < Pow10(fs[0].width) && gs[0].value < Pow10(gs[0].width)
    && (fs[0].value < gs[0].value || (fs[0].value == gs[0].value && FieldsLess(fs[1..], gs[1..])))
  }

  lemma {:induction false} FieldsSort(fs: seq<Field>, gs: seq<Field>)
    requires FieldsLess(fs, gs)
    ensures LexLt(FieldsText(fs), FieldsText(gs))
  {
    hide Padded, Fixed, LexLt, Pow10;
    var f, g := fs[0], gs[0];
    PaddedIsFixed(f.value, f.width);
    PaddedIsFixed(g.value, g.width);
    if f.value < g.value {
      FixedAscends(f.value, g.value, f.width);
      LexDecided(Padded(f.value, f.width), Padded(g.value, g.width),
                 f.separator + FieldsText(fs[1..]), g.separator + FieldsText(gs[1..]));
    } else {
      FieldsSort(fs[1..], gs[1..]);
      LexPrefix(f.separator, FieldsText(fs[1..]), FieldsText(gs[1..]));
      LexPrefix(Padded(f.value, f.width), f.separator + FieldsText(fs[1..]), f.separator + FieldsText(gs[1..]));
    }
  }

  predicate Before(a: Date, b: Date) {
    a.year < b.year || (a.year == b.year && (a.month < b.month || (a.month == b.month && a.day < b.day)))
  }

  lemma {:induction false} CalendarAscends(m: nat, n: nat)
    requires m < n
    ensures Before(Calendar(m), Calendar(n))
  {
    hide MonthLength;
    if m < n - 1 { CalendarAscends(m, n - 1); }
  }

  /** The first field in which two stamps differ increases. */
  predicate Earlier(a: Stamp, b: Stamp) {
    || Before(a.date, b.date)
    || (a.date == b.date &&
        (a.hour < b.hour || (a.hour == b.hour &&
         (a.minute < b.minute || (a.minute == b.minute &&
          (a.second < b.second || (a.second == b.second && a.millis < b.millis)))))))
  }

  lemma LaterInstantIsLater(a: nat, b: nat)
    requires a < b && b / 1000 <= I64_MAX
    ensures Earlier(StampOf(a), StampOf(b))
  {
    hide CivilFromDays, Calendar, Before;
    var s, t := a / 1000, b / 1000;
    CivilIsCalendar(s / 86_400);
    CivilIsCalendar(t / 86_400);
    if s / 86_400 < t / 86_400 {
      CalendarAscends(s / 86_400, t / 86_400);
    } else {
      assert s / 86_400 == t / 86_400;
      ClockOrder(s % 86_400, t % 86_400);
    }
  }

  lemma ClockOrder(r: int, q: int)
    requires 0 <= r <= q < 86_400
    ensures r < q ==>
              r / 3600 < q / 3600 || (r / 3600 == q / 3600 &&
              (r % 3600 / 60 < q % 3600 / 60 || (r % 3600 / 60 == q % 3600 / 60 && r % 60 < q % 60)))
  {
    ClockSum(r);
    ClockSum(q);
    FieldsOrder(r, r / 3600, r % 3600 / 60, r % 60, q, q / 3600, q % 3600 / 60, q % 60);
  }

  lemma ClockSum(r: int)
    ensures r == 3600 * (r / 3600) + 60 * (r % 3600 / 60) + r % 60
    ensures 0 <= r % 3600 / 60 < 60 && 0 <= r % 60 < 60
  {}

  lemma FieldsOrder(r: int, h: int, m: int, s: int, q: int, h': int, m': int, s': int)
    requires r == 3600 * h + 60 * m + s && 0 <= m < 60 && 0 <= s < 60
    requires q == 3600 * h' + 60 * m' + s' && 0 <= m' < 60 && 0 <= s' < 60
    ensures r < q ==> h < h' || (h == h' && (m < m' || (m == m' && s < s')))
  {}

  /** Same widths and separators, and every value within its width. */
  predicate SameLayout(fs: seq<Field>, gs: seq<Field>) {
    && |fs| == |gs|
    && forall i :: 0 <= i < |fs| ==>
         && fs[i].width == gs[i].width > 0 && fs[i].separator == gs[i].separator
         && fs[i].value < Pow10(fs[i].width) && gs[i].value < Pow10(gs[i].width)
  }

  lemma {:induction false} LessFrom(fs: seq<Field>, gs: seq<Field>, k: nat, j: nat)
    requires SameLayout(fs, gs) && k <= j < |fs|
    requires (forall i :: k <= i < j ==> fs[i].value == gs[i].value) && fs[j].value < gs[j].value
    ensures FieldsLess(fs[k..], gs[k..])
    decreases j - k
  {
    hide Pow10;
    if k < j {
      LessFrom(fs, gs, k + 1, j);
      assert fs[k..][1..] == fs[k + 1..] && gs[k..][1..] == gs[k + 1..];
    }
  }

  lemma StampLayout(a: Stamp, b: Stamp)
    requires InRange(a) && InRange(b) && a.date.year <= 9999 && b.date.year <= 9999
    ensures SameLayout(FieldsOf(a), FieldsOf(b))
  {
    hide Leap;
    TensAndHundreds();
  }

  lemma StampFieldsLess(a: Stamp, b: Stamp)
    requires InRange(a) && InRange(b) && Earlier(a, b) && b.date.year <= 9999
    ensures FieldsLess(FieldsOf(a), FieldsOf(b))
  {
    hide IsDate, SameLayout, FieldsLess;
    StampLayout(a, b);
    var fs, gs := FieldsOf(a), FieldsOf(b);
    assert fs[0..] == fs && gs[0..] == gs;
    PositiveDate(a.date);
    PositiveDate(b.date);
    var j := if a.date.year < b.date.year then 0 else if a.date.month < b.date.month then 1
             else if a.date.day < b.date.day then 2 else if a.hour < b.hour then 3
             else if a.minute < b.minute then 4 else if a.second < b.second then 5 else 6;
    LessFrom(fs, gs, 0, j);
  }

  lemma PositiveDate(d: Date)
    requires IsDate(d)
    ensures d.month > 0 && d.day > 0
  {}

  lemma TensAndHundreds()
    ensures Pow10(2) == 100 && Pow10(3) == 1000 && Pow10(4) == 10_000
  {}

  /** **Stamps sort in time order**: up to year 9999 a later instant has a byte-wise later
      text (section 5.6 of RFC 3339 with a fixed number of digits per field). */
  lemma TextSortsInTimeOrder(a: nat, b: nat)
    requires a < b && b / 1000 <= I64_MAX && StampOf(b).date.year <= 9999
    ensures LexLt(Rfc3339FromUnixMillis(a), Rfc3339FromUnixMillis(b))
  {
    hide StampOf, FieldsOf, InRange, Earlier, LexLt;
    LaterInstantIsLater(a, b);
    StampRecovers(a);
    StampRecovers(b);
    StampFieldsLess(StampOf(a), StampOf(b));
    FieldsSort(FieldsOf(StampOf(a)), FieldsOf(StampOf(b)));
  }

  // ---- Three stamps --------------------------------------------------------

  function Decimal(d: nat): char
    requires d < 10
  {
    "0123456789"[d]
  }

  lemma Two(n: nat)
    requires n < 100
    ensures Padded(n, 2) == [Decimal(n / 10), Decimal(n % 10)]
  {
    hide Padded, Decimal;
    PaddedIsFixed(n, 2) by { assert Pow10(2) == 100; }
    FixedIs(n, 2);
    FixedIs(n / 10, 1);
    assert Fixed(n / 10 / 10, 0) == "";
  }

  lemma Three(n: nat)
    requires n < 1000
    ensures Padded(n, 3) == [Decimal(n / 100), Decimal(n / 10 % 10), Decimal(n % 10)]
  {
    hide Padded, Decimal;
    PaddedIsFixed(n, 3) by { assert Pow10(3) == 1000; }
    FixedIs(n, 3);
    FixedIs(n / 10, 2);
    FixedIs(n / 10 / 10, 1);
    assert n / 10 / 10 == n / 100 && Fixed(n / 10 / 10 / 10, 0) == "";
  }

  lemma Four(n: nat)
    requires n < 10_000
    ensures Padded(n, 4) == [Decimal(n / 1000), Decimal(n / 100 % 10), Decimal(n / 10 % 10), Decimal(n % 10)]
  {
    hide Padded, Decimal;
    PaddedIsFixed(n, 4) by { assert Pow10(4) == 10_000; }
    FixedIs(n, 4);
    FixedIs(n / 10, 3);
    FixedIs(n / 10 / 10, 2);
    FixedIs(n / 10 / 10 / 10, 1);
    assert n / 10 / 10 == n / 100 && n / 10 / 10 / 10 == n / 1000 && Fixed(n / 10 / 10 / 10 / 10, 0) == "";
  }

  lemma FixedIs(n: nat, w: nat)
    requires w > 0
    ensures Fixed(n, w) == Fixed(n / 10, w - 1) + [Decimal(n % 10)]
  {}

  /** A stamp is spelled year, month and day with dashes, `T`, the time of day with colons, a
      point, the milliseconds and `Z`. */
  lemma StampSpelled(s: Stamp, year: string, month: string, day: string, hour: string, minute: string,
                     second: string, millis: string)
    requires Padded(Abs(s.date.year), 4) == year && Padded(Abs(s.date.month), 2) == month
    requires Padded(Abs(s.date.day), 2) == day && Padded(Abs(s.hour), 2) == hour
    requires Padded(Abs(s.minute), 2) == minute && Padded(Abs(s.second), 2) == second
    requires Padded(Abs(s.millis), 3) == millis
    ensures StampText(s) ==
            year + "-" + (month + "-" + (day + "T"
            + (hour + ":" + (minute + ":" + (second + "." + (millis + "Z" + ""))))))
  {
    hide Padded, FieldsText, Abs;
    var fs := FieldsOf(s);
    SpelledFrom(fs, 6);
    SpelledFrom(fs, 5);
    SpelledFrom(fs, 4);
    SpelledFrom(fs, 3);
    SpelledFrom(fs, 2);
    SpelledFrom(fs, 1);
    SpelledFrom(fs, 0);
    NothingSpelled();
    assert fs[0..] == fs && fs[7..] == [];
  }

  lemma SpelledFrom(fs: seq<Field>, i: nat)
    requires i < |fs|
    ensures FieldsText(fs[i..]) == Padded(fs[i].value, fs[i].width) + fs[i].separator + FieldsText(fs[i + 1..])
  {
    hide Padded;
    assert fs[i..][1..] == fs[i + 1..];
  }

  lemma NothingSpelled()
    ensures FieldsText([]) == ""
  {}

  lemma DateInEra(days: int, era: int, doe: int, yoe: int, doy: int)
    requires days + 719_468 == 146_097 * era + doe && 0 <= doe < 146_097
    requires YearOfEra(doe) == yoe && doy == doe - (365 * yoe + yoe / 4 - yoe / 100)
    ensures CivilFromDays(days) == CivilOf(era, yoe, doy)
  {
    hide YearOfEra, CivilOf;
  }

  lemma DecimalChars()
    ensures Decimal(0) == '0' && Decimal(1) == '1' && Decimal(2) == '2' && Decimal(3) == '3' && Decimal(4) == '4'
    ensures Decimal(5) == '5' && Decimal(6) == '6' && Decimal(7) == '7' && Decimal(8) == '8' && Decimal(9) == '9'
  {}

  /** The epoch, a day in the middle of a year, and a leap day with a time of day. */
  lemma ThreeStamps()
    ensures Rfc3339FromUnixMillis(0) == "1970-01-01T00:00:00.000Z"
    ensures Rfc3339FromUnixMillis(20_657 * 86_400_000 + 123) == "2026-07-23T00:00:00.123Z"
    ensures Rfc3339FromUnixMillis(19_782 * 86_400_000 + 49_507_500) == "2024-02-29T13:45:07.500Z"
  {
    hide StampOf, StampText;
    EpochStamp();
    MidYearStamp();
    LeapDayStamp();
  }

  lemma EpochStamp()
    ensures StampOf(0) == Stamp(Date(1970, 1, 1), 0, 0, 0, 0)
    ensures StampText(Stamp(Date(1970, 1, 1), 0, 0, 0, 0)) == "1970-01-01T00:00:00.000Z"
  {
    hide StampText, CivilFromDays, Padded, Decimal;
    assert CivilFromDays(0) == Date(1970, 1, 1) by { EpochStampDate(); }
    DecimalChars();
    Four(1970);
    Two(0);
    Two(1);
    Three(0);
    StampSpelled(Stamp(Date(1970, 1, 1), 0, 0, 0, 0), "1970", "01", "01", "00", "00", "00", "000");
  }

  lemma EpochStampDate()
    ensures CivilFromDays(0) == Date(1970, 1, 1)
  {
    hide CivilFromDays;
    DateInEra(0, 4, 135080, 369, 306) by { assert YearOfEra(135080) == 369; }
    assert CivilOf(4, 369, 306) == Date(1970, 1, 1);
  }

  lemma MidYearStamp()
    ensures StampOf(20_657 * 86_400_000 + 123) == Stamp(Date(2026, 7, 23), 0, 0, 0, 123)
    ensures StampText(Stamp(Date(2026, 7, 23), 0, 0, 0, 123)) == "2026-07-23T00:00:00.123Z"
  {
    hide StampText, CivilFromDays;
    MidYearStampDate();
    MidYearStampText();
  }

  lemma MidYearStampText()
    ensures StampText(Stamp(Date(2026, 7, 23), 0, 0, 0, 123)) == "2026-07-23T00:00:00.123Z"
  {
    hide StampText, CivilFromDays, Padded, Decimal;
    DecimalChars();
    Four(2026);
    Two(0);
    Two(7);
    Two(23);
    Three(123);
    StampSpelled(Stamp(Date(2026, 7, 23), 0, 0, 0, 123), "2026", "07", "23", "00", "00", "00", "123");
  }

  lemma MidYearStampDate()
    ensures CivilFromDays(20_657) == Date(2026, 7, 23)
  {
    hide CivilFromDays;
    DateInEra(20_657, 5, 9640, 26, 144) by { assert YearOfEra(9640) == 26; }
    assert CivilOf(5, 26, 144) == Date(2026, 7, 23);
  }

  lemma LeapDayStamp()
    ensures StampOf(19_782 * 86_400_000 + 49_507_500) == Stamp(Date(2024, 2, 29), 13, 45, 7, 500)
    ensures StampText(Stamp(Date(2024, 2, 29), 13, 45, 7, 500)) == "2024-02-29T13:45:07.500Z"
  {
    hide StampText, CivilFromDays;
    LeapDayStampDate();
    LeapDayStampText();
  }

  lemma LeapDayStampText()
    ensures StampText(Stamp(Date(2024, 2, 29), 13, 45, 7, 500)) == "2024-02-29T13:45:07.500Z"
  {
    hide StampText, CivilFromDays, Padded, Decimal;
    DecimalChars();
    Four(2024);
    Two(2);
    Two(7);
    Two(13);
    Two(29);
    Two(45);
    Three(500);
    StampSpelled(Stamp(Date(2024, 2, 29), 13, 45, 7, 500), "2024", "02", "29", "13", "45", "07", "500");
  }

  lemma LeapDayStampDate()
    ensures CivilFromDays(19_782) == Date(2024, 2, 29)
  {
    hide CivilFromDays;
    DateInEra(19_782, 5, 8765, 23, 365) by { assert YearOfEra(8765) == 23; }
    assert CivilOf(5, 23, 365) == Date(2024, 2, 29);
  }
}
