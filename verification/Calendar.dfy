/** Day numbers, civil dates and RFC 3339 time stamps of the node agent: its
    arithmetic on days, the proleptic Gregorian calendar by its leap rule and the
    lengths of its months, and that the one computes the other. */
module Calendar {
  import opened Text

  datatype Date = Date(year: int, month: int, day: int)

  /** Rust's `/` on signed integers: rounds toward zero. */
  function TruncDiv(a: int, b: int): int
    requires b > 0
  {
    if a >= 0 then a / b else -((-a) / b)
  }

  // The steps of `civil_from_days`, in unbounded integers: the 400-year era, the
  // year of the era, the day of the year and the month, all counted from March.

  function EraOf(z: int): int { TruncDiv(if z >= 0 then z else z - 146_096, 146_097) }

  function YearOfEra(doe: int): int {
    TruncDiv(doe - TruncDiv(doe, 1460) + TruncDiv(doe, 36_524) - TruncDiv(doe, 146_096), 365)
  }

  function DayOfYear(doe: int, yoe: int): int { doe - (365 * yoe + TruncDiv(yoe, 4) - TruncDiv(yoe, 100)) }

  function MarchDate(y: int, doy: int): Date {
    var mp := TruncDiv(5 * doy + 2, 153);
    var d := doy - TruncDiv(153 * mp + 2, 5) + 1;
    var m := if mp < 10 then mp + 3 else mp - 9;
    Date(if m <= 2 then y + 1 else y, m, d)
  }

  /** `civil_from_days` */
  function CivilFromDays(days: int): Date {
    var z := days + 719_468;
    var era := EraOf(z);
    var doe := z - era * 146_097;
    var yoe := YearOfEra(doe);
    MarchDate(yoe + era * 400, DayOfYear(doe, yoe))
  }

  // ------------------------------- the proleptic Gregorian calendar, by its rules

  predicate IsLeap(y: int) { y % 4 == 0 && (y % 100 != 0 || y % 400 == 0) }

  function DaysInMonth(y: int, m: int): int {
    if m == 2 then (if IsLeap(y) then 29 else 28)
    else if m == 4 || m == 6 || m == 9 || m == 11 then 30
    else 31
  }

  predicate ValidDate(d: Date) {
    1 <= d.month <= 12 && 1 <= d.day <= DaysInMonth(d.year, d.month)
  }

  function NextDay(d: Date): Date {
    if d.day < DaysInMonth(d.year, d.month) then d.(day := d.day + 1)
    else if d.month < 12 then Date(d.year, d.month + 1, 1)
    else Date(d.year + 1, 1, 1)
  }

  predicate DateLess(a: Date, b: Date) {
    || a.year < b.year
    || (a.year == b.year && (a.month < b.month || (a.month == b.month && a.day < b.day)))
  }

  // ---------------------------------------------- counting days from the epoch

  /** The number of leap years before year `y`, up to a constant. */
  function LeapsBefore(y: int): int { (y - 1) / 4 - (y - 1) / 100 + (y - 1) / 400 }

  function DaysBeforeYear(y: int): int { 365 * (y - 1970) + LeapsBefore(y) - LeapsBefore(1970) }

  function DaysBeforeMonth(y: int, m: int): int {
    if m <= 1 then 0
    else if m == 2 then 31
    else (if IsLeap(y) then 1 else 0)
         + (if m == 3 then 59 else if m == 4 then 90 else if m == 5 then 120 else if m == 6 then 151
            else if m == 7 then 181 else if m == 8 then 212 else if m == 9 then 243
            else if m == 10 then 273 else if m == 11 then 304 else 334)
  }

  function DayNumber(d: Date): int {
    DaysBeforeYear(d.year) + DaysBeforeMonth(d.year, d.month) + d.day - 1
  }

  lemma Step4(y: int)
    ensures y / 4 - (y - 1) / 4 == if y % 4 == 0 then 1 else 0
  {}

  lemma Step100(y: int)
    ensures y / 100 - (y - 1) / 100 == if y % 100 == 0 then 1 else 0
    ensures y % 100 == 0 ==> y % 4 == 0
  {
    assert y == 100 * (y / 100) + y % 100;
  }

  lemma Step400(y: int)
    ensures y / 400 - (y - 1) / 400 == if y % 400 == 0 then 1 else 0
    ensures y % 400 == 0 ==> y % 100 == 0
  {
    assert y == 400 * (y / 400) + y % 400;
  }

  lemma LeapStep(y: int, q4: int, q100: int, q400: int)
    requires q4 == if y % 4 == 0 then 1 else 0
    requires q100 == if y % 100 == 0 then 1 else 0
    requires q400 == if y % 400 == 0 then 1 else 0
    requires (y % 100 == 0 ==> y % 4 == 0) && (y % 400 == 0 ==> y % 100 == 0)
    ensures q4 - q100 + q400 == if IsLeap(y) then 1 else 0
  {}

  lemma YearLength(y: int)
    ensures DaysBeforeYear(y + 1) == DaysBeforeYear(y) + (if IsLeap(y) then 366 else 365)
  {
    hide IsLeap;
    Step4(y);
    Step100(y);
    Step400(y);
    LeapStep(y, y / 4 - (y - 1) / 4, y / 100 - (y - 1) / 100, y / 400 - (y - 1) / 400);
  }

  lemma {:induction false} YearsAscend(a: int, b: int)
    requires a <= b
    ensures DaysBeforeYear(a) + 365 * (b - a) <= DaysBeforeYear(b)
    decreases b - a
  {
    if a < b {
      YearsAscend(a, b - 1);
      YearLength(b - 1);
    }
  }

  lemma InYear(d: Date)
    requires ValidDate(d)
    ensures 0 <= DaysBeforeMonth(d.year, d.month) + d.day - 1 < (if IsLeap(d.year) then 366 else 365)
  {}

  lemma MonthsAscend(y: int, m: int, n: int)
    requires 1 <= m < n <= 12
    ensures DaysBeforeMonth(y, m) + DaysInMonth(y, m) <= DaysBeforeMonth(y, n)
  {}

  /** The day number orders valid dates. */
  lemma DayNumberAscends(a: Date, b: Date)
    requires ValidDate(a) && ValidDate(b) && DateLess(a, b)
    ensures DayNumber(a) < DayNumber(b)
  {
    hide IsLeap;
    InYear(a);
    InYear(b);
    if a.year < b.year {
      YearLength(a.year);
      YearsAscend(a.year + 1, b.year);
    } else if a.month < b.month {
      MonthsAscend(a.year, a.month, b.month);
    }
  }

  lemma DayNumberInjective(a: Date, b: Date)
    requires ValidDate(a) && ValidDate(b) && DayNumber(a) == DayNumber(b)
    ensures a == b
  {
    hide DayNumber, ValidDate;
    if DateLess(a, b) { DayNumberAscends(a, b); }
    if DateLess(b, a) { DayNumberAscends(b, a); }
  }

  lemma NextDayNumber(d: Date)
    requires ValidDate(d)
    ensures ValidDate(NextDay(d)) && DayNumber(NextDay(d)) == DayNumber(d) + 1
  {
    hide DaysBeforeYear;
    YearLength(d.year);
  }

  // ------------------------------------------------------- the algorithm's steps

  lemma EraIsFloor(z: int)
    ensures 0 <= z - EraOf(z) * 146_097 <= 146_096
  {}

  /** Day `doe` of an era falls in year `yoe` of it, on day `doy` counted from
      1 March: centuries `c`, four-year cycles `k`, years `t` and days `s`. */
  lemma YearOfEraIs(doe: int, c: int, k: int, t: int, s: int)
    requires 0 <= c <= 3 && 0 <= k <= 24 && 0 <= t <= 3 && 0 <= s <= 1460
    requires doe == 36_524 * c + 1461 * k + s && doe < 36_524 * (c + 1)
    requires 365 * t <= s && (t < 3 ==> s < 365 * (t + 1))
    ensures YearOfEra(doe) == 100 * c + 4 * k + t
  {
    var f := if 24 * c + k + s >= 1460 then 1 else 0;
    assert doe / 1460 == 25 * c + k + f;
    assert doe / 36_524 == c;
    assert doe / 146_096 == 0;
    var n := doe - doe / 1460 + doe / 36_524 - doe / 146_096;
    assert n == 36_500 * c + 1460 * k + s - f;
    assert 365 * (100 * c + 4 * k + t) <= n < 365 * (100 * c + 4 * k + t + 1);
  }

  predicate LongMarchYear(yoe: int) { IsLeap(yoe + 1) }

  lemma DayOfYearBounds(doe: int)
    requires 0 <= doe <= 146_096
    ensures var yoe := YearOfEra(doe);
            0 <= yoe <= 399 && 0 <= DayOfYear(doe, yoe) <= (if LongMarchYear(yoe) then 365 else 364)
  {
    if doe == 146_096 {
      assert YearOfEra(doe) == 399;
    } else {
      var c := doe / 36_524;
      var r := doe % 36_524;
      var k := r / 1461;
      var s := r % 1461;
      var t := if s / 365 > 3 then 3 else s / 365;
      YearOfEraIs(doe, c, k, t, s);
      CycleYear(c, k, t, s);
    }
  }

  lemma CycleYear(c: int, k: int, t: int, s: int)
    requires 0 <= c <= 3 && 0 <= k <= 24 && 0 <= t <= 3 && 365 * t <= s <= 1460
    requires t < 3 ==> s < 365 * (t + 1)
    requires 1461 * k + s < 36_524
    ensures var yoe := 100 * c + 4 * k + t; var doe := 36_524 * c + 1461 * k + s;
            0 <= yoe <= 399 && 0 <= DayOfYear(doe, yoe) <= (if LongMarchYear(yoe) then 365 else 364)
  {
    var yoe := 100 * c + 4 * k + t;
    assert yoe / 4 == 25 * c + k && yoe / 100 == c;
    assert s == 1460 ==> t == 3 && k < 24;
    assert t == 3 && k < 24 ==> (yoe + 1) % 4 == 0 && (yoe + 1) % 100 != 0;
  }

  /** Months counted from March, from the day of the March year. */
  lemma MonthOfYear(doy: int)
    requires 0 <= doy <= 365
    ensures var mp := (5 * doy + 2) / 153; var first := (153 * mp + 2) / 5;
            && 0 <= mp <= 11
            && first == [0, 31, 61, 92, 122, 153, 184, 214, 245, 275, 306, 337][mp]
            && first <= doy && (mp < 11 ==> doy < [31, 61, 92, 122, 153, 184, 214, 245, 275, 306, 337][mp])
  {}

  lemma EraShift(y: int, era: int)
    ensures IsLeap(y + 400 * era) <==> IsLeap(y)
    ensures DaysBeforeYear(y + 400 * era) == DaysBeforeYear(y) + 146_097 * era
  {
    Shift4(y - 1, era);
    Shift100(y - 1, era);
    Shift400(y - 1, era);
    Shift4(y, era);
    Shift100(y, era);
    Shift400(y, era);
  }

  lemma Shift4(y: int, era: int)
    ensures (y + 400 * era) / 4 == y / 4 + 100 * era && (y + 400 * era) % 4 == y % 4
  {}

  lemma Shift100(y: int, era: int)
    ensures (y + 400 * era) / 100 == y / 100 + 4 * era && (y + 400 * era) % 100 == y % 100
  {}

  lemma Shift400(y: int, era: int)
    ensures (y + 400 * era) / 400 == y / 400 + era && (y + 400 * era) % 400 == y % 400
  {}

  /** Counting days inside era 0 undoes the month and year arithmetic. */
  lemma EraZero(doe: int, yoe: int, doy: int)
    requires 0 <= yoe <= 399 && 0 <= doy <= (if LongMarchYear(yoe) then 365 else 364)
    requires doy == DayOfYear(doe, yoe)
    ensures ValidDate(MarchDate(yoe, doy)) && DayNumber(MarchDate(yoe, doy)) == doe - 719_468
  {
    hide LeapsBefore;
    MonthOfYear(doy);
    MarchFirst(yoe);
    YearLength(yoe);
  }

  lemma MarchFirst(yoe: int)
    requires 0 <= yoe <= 399
    ensures DaysBeforeYear(yoe) + DaysBeforeMonth(yoe, 3) == 365 * yoe + yoe / 4 - yoe / 100 - 719_468
  {
    hide IsLeap;
    Step4(yoe);
    Step100(yoe);
    Step400(yoe);
    LeapStep(yoe, yoe / 4 - (yoe - 1) / 4, yoe / 100 - (yoe - 1) / 100, yoe / 400 - (yoe - 1) / 400);
    assert LeapsBefore(1970) == 477;
  }

  /** For every integer day: the result is a calendar date, and counting days to
      that date by the calendar's rules gives the day back. */
  lemma CivilCounts(days: int)
    ensures ValidDate(CivilFromDays(days)) && DayNumber(CivilFromDays(days)) == days
  {
    hide DayNumber, LongMarchYear, ValidDate, EraOf, YearOfEra, DayOfYear, MarchDate;
    var z := days + 719_468;
    var era := EraOf(z);
    EraIsFloor(z);
    var doe := z - era * 146_097;
    DayOfYearBounds(doe);
    var yoe := YearOfEra(doe);
    EraZero(doe, yoe, DayOfYear(doe, yoe));
    MoveEra(yoe, DayOfYear(doe, yoe), era);
  }

  lemma MoveEra(y: int, doy: int, era: int)
    requires ValidDate(MarchDate(y, doy))
    ensures ValidDate(MarchDate(y + era * 400, doy))
    ensures DayNumber(MarchDate(y + era * 400, doy)) == DayNumber(MarchDate(y, doy)) + 146_097 * era
  {
    hide IsLeap, DaysBeforeYear, TruncDiv;
    EraShift(MarchDate(y, doy).year, era);
  }

  // ------------------------------------------------------------ main results

  /** The algorithm is the calendar: day 0 is the epoch, and each day's successor
      is the next calendar day, over every integer day. */
  lemma CivilIsTheCalendar(days: int)
    ensures CivilFromDays(0) == Date(1970, 1, 1)
    ensures ValidDate(CivilFromDays(days))
    ensures CivilFromDays(days + 1) == NextDay(CivilFromDays(days))
  {
    hide ValidDate, DayNumber, NextDay, CivilFromDays;
    CivilCounts(0);
    EpochDate();
    DayNumberInjective(CivilFromDays(0), Date(1970, 1, 1));
    CivilCounts(days);
    CivilCounts(days + 1);
    NextDayNumber(CivilFromDays(days));
    DayNumberInjective(CivilFromDays(days + 1), NextDay(CivilFromDays(days)));
  }

  lemma EpochDate()
    ensures ValidDate(Date(1970, 1, 1)) && DayNumber(Date(1970, 1, 1)) == 0
  {}

  /** Days and valid dates correspond one to one, in order. */
  lemma CivilBijection(d: Date, a: int, b: int)
    ensures ValidDate(d) ==> CivilFromDays(DayNumber(d)) == d
    ensures a < b <==> DateLess(CivilFromDays(a), CivilFromDays(b))
  {
    hide ValidDate, DayNumber, CivilFromDays;
    CivilCounts(a);
    CivilCounts(b);
    if ValidDate(d) {
      CivilCounts(DayNumber(d));
      DayNumberInjective(CivilFromDays(DayNumber(d)), d);
    }
    if DateLess(CivilFromDays(a), CivilFromDays(b)) {
      DayNumberAscends(CivilFromDays(a), CivilFromDays(b));
    } else if DateLess(CivilFromDays(b), CivilFromDays(a)) {
      DayNumberAscends(CivilFromDays(b), CivilFromDays(a));
    }
  }

  // ------------------------------------------------------------- timestamps

  function Zeros(n: nat): (s: string)
    ensures |s| == n && forall i :: 0 <= i < n ==> s[i] == '0'
  {
    seq(n, _ => '0')
  }

  /** Rust's `{:0w}`: at least `w` characters, with zeros in front. */
  function Padded(n: nat, w: nat): string {
    var t := NatText(n);
    if |t| >= w then t else Zeros(w - |t|) + t
  }

  function DateText(d: Date): string
    requires d.year >= 0 && d.month >= 0 && d.day >= 0
  {
    Padded(d.year, 4) + "-" + Padded(d.month, 2) + "-" + Padded(d.day, 2)
  }

  function TimeText(rem: nat, millis: nat): string {
    "T" + Padded(rem / 3600, 2) + ":" + Padded(rem % 3600 / 60, 2) + ":" + Padded(rem % 60, 2)
    + "." + Padded(millis, 3) + "Z"
  }

  /** `now_iso8601` for a clock reading of `secs` seconds and `millis`
      milliseconds since the epoch. */
  function Iso8601(secs: nat, millis: nat): string
    requires CivilFromDays(secs / 86_400).year >= 0
  {
    var d := CivilFromDays(secs / 86_400);
    CivilCounts(secs / 86_400);
    DateText(d) + TimeText(secs % 86_400, millis)
  }

  /** Character-wise lexicographic order. */
  predicate StringLess(a: string, b: string) {
    if b == "" then false
    else a == "" || a[0] < b[0] || (a[0] == b[0] && StringLess(a[1..], b[1..]))
  }

  lemma {:induction false} StringLessConcat(a: string, b: string, s: string, t: string)
    requires |a| == |b|
    ensures StringLess(a + s, b + t) <==> StringLess(a, b) || (a == b && StringLess(s, t))
  {
    if a == "" {
      assert a + s == s && b + t == t;
    } else {
      assert (a + s)[1..] == a[1..] + s && (b + t)[1..] == b[1..] + t;
      StringLessConcat(a[1..], b[1..], s, t);
      assert a == [a[0]] + a[1..] && b == [b[0]] + b[1..];
    }
  }

  /** The `w` last decimal digits of `n`. */
  function Fixed(n: nat, w: nat): (s: string)
    ensures |s| == w
  {
    if w == 0 then "" else Fixed(n / 10, w - 1) + [Digit(n % 10)]
  }

  function Ten(w: nat): nat { if w == 0 then 1 else 10 * Ten(w - 1) }

  lemma {:induction false} PaddedIsFixed(n: nat, w: nat)
    requires 1 <= w && n < Ten(w)
    ensures Padded(n, w) == Fixed(n, w)
  {
    if n < 10 {
      FixedOfDigit(n, w);
    } else {
      PaddedIsFixed(n / 10, w - 1);
      assert NatText(n) == NatText(n / 10) + [Digit(n % 10)];
      assert |NatText(n)| < w ==> Zeros(w - |NatText(n)|) == Zeros(w - 1 - |NatText(n / 10)|);
    }
  }

  lemma {:induction false} FixedOfDigit(n: nat, w: nat)
    requires 1 <= w && n < 10
    ensures Fixed(n, w) == Zeros(w - 1) + [Digit(n)]
  {
    FixedZero(w - 1);
  }

  lemma {:induction false} FixedZero(w: nat)
    ensures Fixed(0, w) == Zeros(w)
  {
    if w > 0 { FixedZero(w - 1); }
  }

  lemma {:induction false} FixedLess(m: nat, n: nat, w: nat)
    requires m < Ten(w) && n < Ten(w)
    ensures StringLess(Fixed(m, w), Fixed(n, w)) <==> m < n
    ensures Fixed(m, w) == Fixed(n, w) <==> m == n
  {
    if w > 0 {
      FixedLess(m / 10, n / 10, w - 1);
      var a, b := Fixed(m / 10, w - 1), Fixed(n / 10, w - 1);
      StringLessConcat(a, b, [Digit(m % 10)], [Digit(n % 10)]);
      assert [Digit(m % 10)][1..] == "" && [Digit(n % 10)][1..] == "";
      assert Fixed(m, w)[..w - 1] == a && Fixed(n, w)[..w - 1] == b;
      assert Fixed(m, w)[w - 1] == Digit(m % 10) && Fixed(n, w)[w - 1] == Digit(n % 10);
    }
  }

  lemma PaddedLess(m: nat, n: nat, w: nat)
    requires 1 <= w && m < Ten(w) && n < Ten(w)
    ensures |Padded(m, w)| == |Padded(n, w)| == w
    ensures StringLess(Padded(m, w), Padded(n, w)) <==> m < n
    ensures Padded(m, w) == Padded(n, w) <==> m == n
  {
    hide Padded;
    PaddedIsFixed(m, w);
    PaddedIsFixed(n, w);
    FixedLess(m, n, w);
  }

  lemma Tens()
    ensures Ten(2) == 100 && Ten(3) == 1000 && Ten(4) == 10_000
  {}

  /** A field of fixed width and what follows it, compared to another. */
  lemma FieldLess(m: nat, n: nat, w: nat, s: string, t: string)
    requires 1 <= w && m < Ten(w) && n < Ten(w)
    ensures StringLess(Padded(m, w) + s, Padded(n, w) + t) <==> m < n || (m == n && StringLess(s, t))
    ensures Padded(m, w) + s == Padded(n, w) + t <==> m == n && s == t
  {
    hide Padded, StringLess;
    PaddedLess(m, n, w);
    StringLessConcat(Padded(m, w), Padded(n, w), s, t);
    assert (Padded(m, w) + s)[..w] == Padded(m, w) && (Padded(n, w) + t)[..w] == Padded(n, w);
    assert (Padded(m, w) + s)[w..] == s && (Padded(n, w) + t)[w..] == t;
  }

  /** A separator changes nothing. */
  lemma SepLess(sep: string, s: string, t: string)
    ensures StringLess(sep + s, sep + t) <==> StringLess(s, t)
    ensures sep + s == sep + t <==> s == t
  {
    hide StringLess;
    StringLessConcat(sep, sep, s, t);
    NotLess(sep);
    assert (sep + s)[|sep|..] == s && (sep + t)[|sep|..] == t;
  }

  lemma {:induction false} NotLess(s: string)
    ensures !StringLess(s, s)
  {
    if s != "" { NotLess(s[1..]); }
  }

  lemma ClockLess(r: nat, q: nat, x: nat, y: nat)
    requires r < 86_400 && q < 86_400 && x < 1000 && y < 1000
    ensures StringLess(TimeText(r, x), TimeText(q, y)) <==> r < q || (r == q && x < y)
  {
    hide Padded, StringLess, Ten;
    Tens();
    var a, b := "." + (Padded(x, 3) + "Z"), "." + (Padded(y, 3) + "Z");
    FieldLess(x, y, 3, "Z", "Z");
    NotLess("Z");
    SepLess(".", Padded(x, 3) + "Z", Padded(y, 3) + "Z");
    FieldLess(r % 60, q % 60, 2, a, b);
    var a1, b1 := ":" + (Padded(r % 60, 2) + a), ":" + (Padded(q % 60, 2) + b);
    SepLess(":", Padded(r % 60, 2) + a, Padded(q % 60, 2) + b);
    FieldLess(r % 3600 / 60, q % 3600 / 60, 2, a1, b1);
    var a2, b2 := ":" + (Padded(r % 3600 / 60, 2) + a1), ":" + (Padded(q % 3600 / 60, 2) + b1);
    SepLess(":", Padded(r % 3600 / 60, 2) + a1, Padded(q % 3600 / 60, 2) + b1);
    FieldLess(r / 3600, q / 3600, 2, a2, b2);
    SepLess("T", Padded(r / 3600, 2) + a2, Padded(q / 3600, 2) + b2);
    TimeTextIs(r, x);
    TimeTextIs(q, y);
    HourMinuteSecond(r, q);
  }

  lemma TimeTextIs(r: nat, x: nat)
    ensures TimeText(r, x)
            == "T" + (Padded(r / 3600, 2) + (":" + (Padded(r % 3600 / 60, 2) + (":" + (Padded(r % 60, 2)
               + ("." + (Padded(x, 3) + "Z")))))))
  {
    hide Padded;
  }

  lemma HourMinuteSecond(r: nat, q: nat)
    ensures r < q <==>
      r / 3600 < q / 3600
      || (r / 3600 == q / 3600
          && (r % 3600 / 60 < q % 3600 / 60 || (r % 3600 / 60 == q % 3600 / 60 && r % 60 < q % 60)))
  {
    ClockFields(r);
    ClockFields(q);
    MixedRadix(r / 3600, r % 3600 / 60, r % 60, q / 3600, q % 3600 / 60, q % 60);
  }

  lemma ClockFields(r: nat)
    ensures r == 3600 * (r / 3600) + 60 * (r % 3600 / 60) + r % 60
    ensures 0 <= r % 3600 / 60 < 60
  {}

  lemma MixedRadix(h: nat, m: nat, s: nat, h': nat, m': nat, s': nat)
    requires m < 60 && s < 60 && m' < 60 && s' < 60
    ensures 3600 * h + 60 * m + s < 3600 * h' + 60 * m' + s'
            <==> h < h' || (h == h' && (m < m' || (m == m' && s < s')))
  {}

  lemma DateTextLess(a: Date, b: Date, s: string, t: string)
    requires ValidDate(a) && ValidDate(b) && 0 <= a.year <= 9999 && 0 <= b.year <= 9999
    ensures StringLess(DateText(a) + s, DateText(b) + t)
            <==> DateLess(a, b) || (a == b && StringLess(s, t))
  {
    hide Padded, StringLess, Ten;
    Tens();
    FieldLess(a.day, b.day, 2, s, t);
    var x, y := "-" + (Padded(a.day, 2) + s), "-" + (Padded(b.day, 2) + t);
    SepLess("-", Padded(a.day, 2) + s, Padded(b.day, 2) + t);
    FieldLess(a.month, b.month, 2, x, y);
    SepLess("-", Padded(a.month, 2) + x, Padded(b.month, 2) + y);
    FieldLess(a.year, b.year, 4, "-" + (Padded(a.month, 2) + x), "-" + (Padded(b.month, 2) + y));
    DateTextIs(a, s);
    DateTextIs(b, t);
  }

  lemma DateTextIs(d: Date, s: string)
    requires d.year >= 0 && d.month >= 0 && d.day >= 0
    ensures DateText(d) + s
            == Padded(d.year, 4) + ("-" + (Padded(d.month, 2) + ("-" + (Padded(d.day, 2) + s))))
  {
    hide Padded;
  }

  /** Timestamps sort as text exactly as they do in time, for years 0 to 9999
      (section 5.1 of RFC 3339). */
  lemma IsoSorts(secs: nat, millis: nat, secs': nat, millis': nat)
    requires millis < 1000 && millis' < 1000
    requires 0 <= CivilFromDays(secs / 86_400).year <= 9999
    requires 0 <= CivilFromDays(secs' / 86_400).year <= 9999
    ensures StringLess(Iso8601(secs, millis), Iso8601(secs', millis'))
            <==> secs < secs' || (secs == secs' && millis < millis')
  {
    hide StringLess, DateText, TimeText, ValidDate, CivilFromDays, DateLess, DayNumber;
    var a, b := secs / 86_400, secs' / 86_400;
    CivilCounts(a);
    CivilCounts(b);
    DateTextLess(CivilFromDays(a), CivilFromDays(b), TimeText(secs % 86_400, millis), TimeText(secs' % 86_400, millis'));
    ClockLess(secs % 86_400, secs' % 86_400, millis, millis');
    CivilBijection(CivilFromDays(a), a, b);
    CivilBijection(CivilFromDays(a), b, a);
    DaySplit(secs, secs');
  }

  lemma DaySplit(s: nat, t: nat)
    ensures s < t <==> s / 86_400 < t / 86_400 || (s / 86_400 == t / 86_400 && s % 86_400 < t % 86_400)
  {
    assert s == 86_400 * (s / 86_400) + s % 86_400;
    assert t == 86_400 * (t / 86_400) + t % 86_400;
  }

  // ----------------------------------------------------- reading a stamp back

  /** The characters of `t` from `i` up to `j` are digits and spell `n`. */
  predicate Spells(t: string, i: nat, j: nat, n: int) {
    && i <= j <= |t|
    && (forall k :: i <= k < j ==> IsDigit(t[k]))
    && ParseNat(t[i..j]) == n
  }

  /** A `date-time` of section 5.6 of RFC 3339 in UTC with three digits of fraction. */
  predicate IsStamp(t: string, d: Date, hour: int, minute: int, second: int, millis: int) {
    && |t| == 24
    && Spells(t, 0, 4, d.year) && t[4] == '-' && Spells(t, 5, 7, d.month) && t[7] == '-' && Spells(t, 8, 10, d.day)
    && t[10] == 'T'
    && Spells(t, 11, 13, hour) && t[13] == ':' && Spells(t, 14, 16, minute) && t[16] == ':'
    && Spells(t, 17, 19, second) && t[19] == '.' && Spells(t, 20, 23, millis) && t[23] == 'Z'
  }

  lemma {:induction false} FixedReads(n: nat, w: nat)
    requires n < Ten(w)
    ensures (forall i :: 0 <= i < w ==> IsDigit(Fixed(n, w)[i])) && ParseNat(Fixed(n, w)) == n
  {
    if w > 0 {
      FixedReads(n / 10, w - 1);
      assert Fixed(n, w)[..w - 1] == Fixed(n / 10, w - 1);
      assert Fixed(n, w)[w - 1] == Digit(n % 10);
    }
  }

  lemma PaddedReads(n: nat, w: nat)
    requires 1 <= w && n < Ten(w)
    ensures |Padded(n, w)| == w && Spells(Padded(n, w), 0, w, n)
  {
    PaddedIsFixed(n, w);
    FixedReads(n, w);
    assert Fixed(n, w)[0..w] == Fixed(n, w);
  }

  lemma SpellsInside(before: string, s: string, after: string, n: int)
    requires Spells(s, 0, |s|, n)
    ensures Spells(before + s + after, |before|, |before| + |s|, n)
  {
    var t := before + s + after;
    assert t[|before|..|before| + |s|] == s[0..|s|];
    assert forall k :: |before| <= k < |before| + |s| ==> t[k] == s[k - |before|];
  }

  lemma PartSpells(t: string, i: nat, j: nat, n: nat)
    requires i < j <= |t| && n < Ten(j - i) && t[i..j] == Padded(n, j - i)
    ensures Spells(t, i, j, n)
  {
    hide Padded;
    PaddedReads(n, j - i);
    SpellsInside(t[..i], t[i..j], t[j..], n);
    assert t[..i] + t[i..j] + t[j..] == t;
  }

  lemma Assembled(y: string, mo: string, d: string, h: string, mi: string, s: string, x: string)
    requires |y| == 4 && |mo| == |d| == |h| == |mi| == |s| == 2 && |x| == 3
    ensures var t := (y + "-" + mo + "-" + d) + ("T" + h + ":" + mi + ":" + s + "." + x + "Z");
      && |t| == 24
      && t[0..4] == y && t[5..7] == mo && t[8..10] == d && t[11..13] == h && t[14..16] == mi && t[17..19] == s
      && t[20..23] == x
      && t[4] == t[7] == '-' && t[10] == 'T' && t[13] == t[16] == ':' && t[19] == '.' && t[23] == 'Z'
  {}

  /** The stamp's digits name the day and the time of day of the clock's reading: read
      by the calendar's own rules, they count back to it. */
  lemma IsoReads(secs: nat, millis: nat) returns (d: Date, h: int, m: int, s: int)
    requires millis < 1000 && 0 <= CivilFromDays(secs / 86_400).year <= 9999
    ensures ValidDate(d) && 0 <= h < 24 && 0 <= m < 60 && 0 <= s < 60
    ensures IsStamp(Iso8601(secs, millis), d, h, m, s, millis)
    ensures 86_400 * DayNumber(d) + 3600 * h + 60 * m + s == secs
  {
    hide Padded, Spells, ValidDate, CivilFromDays, DayNumber, Ten;
    var rem := secs % 86_400;
    d := CivilFromDays(secs / 86_400);
    h, m, s := rem / 3600, rem % 3600 / 60, rem % 60;
    CivilCounts(secs / 86_400);
    DateIsShort(d);
    ClockFields(rem);
    Tens();
    PaddedReads(d.year, 4);
    PaddedReads(d.month, 2);
    PaddedReads(d.day, 2);
    PaddedReads(h, 2);
    PaddedReads(m, 2);
    PaddedReads(s, 2);
    PaddedReads(millis, 3);
    Assembled(Padded(d.year, 4), Padded(d.month, 2), Padded(d.day, 2), Padded(h, 2), Padded(m, 2), Padded(s, 2),
              Padded(millis, 3));
    var t := Iso8601(secs, millis);
    PartSpells(t, 0, 4, d.year);
    PartSpells(t, 5, 7, d.month);
    PartSpells(t, 8, 10, d.day);
    PartSpells(t, 11, 13, h);
    PartSpells(t, 14, 16, m);
    PartSpells(t, 17, 19, s);
    PartSpells(t, 20, 23, millis);
  }

  lemma DateIsShort(d: Date)
    requires ValidDate(d)
    ensures 1 <= d.month < 100 && 1 <= d.day < 100
  {}
}
