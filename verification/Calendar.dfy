/** The closed-form Gregorian conversion of crates/storage/src/presign.rs:63-75, against a
    calendar that counts day by day. */
module Calendar {

  datatype Date = Date(year: nat, month: nat, day: nat)

  // ---- The calendar ----

  predicate IsLeap(y: nat) {
    y % 4 == 0 && (y % 100 != 0 || y % 400 == 0)
  }

  function DaysInYear(y: nat): nat {
    if IsLeap(y) then 366 else 365
  }

  function DaysInMonth(y: nat, m: nat): nat {
    if m == 2 then (if IsLeap(y) then 29 else 28)
    else if m == 4 || m == 6 || m == 9 || m == 11 then 30
    else 31
  }

  predicate ValidDate(date: Date) {
    1970 <= date.year && 1 <= date.month <= 12 && 1 <= date.day <= DaysInMonth(date.year, date.month)
  }

  function NextDay(date: Date): Date {
    if date.day < DaysInMonth(date.year, date.month) then date.(day := date.day + 1)
    else if date.month < 12 then Date(date.year, date.month + 1, 1)
    else Date(date.year + 1, 1, 1)
  }

  /** The date `n` days after 1970-01-01, found by turning the pages one by one. */
  function DayByDay(n: nat): Date {
    if n == 0 then Date(1970, 1, 1) else NextDay(DayByDay(n - 1))
  }

  function DaysBeforeYear(y: nat): nat
    requires y >= 1970
  {
    if y == 1970 then 0 else DaysBeforeYear(y - 1) + DaysInYear(y - 1)
  }

  function DaysBeforeMonth(y: nat, m: nat): nat
    requires m >= 1
  {
    if m == 1 then 0 else DaysBeforeMonth(y, m - 1) + DaysInMonth(y, m - 1)
  }

  /** The number of a date: whole years, whole months, days. */
  function DayNumber(date: Date): nat
    requires ValidDate(date)
  {
    DaysBeforeYear(date.year) + DaysBeforeMonth(date.year, date.month) + date.day - 1
  }

  ghost predicate Before(a: Date, b: Date) {
    a.year < b.year || (a.year == b.year && (a.month < b.month || (a.month == b.month && a.day < b.day)))
  }

  // ---- The closed form ----

  /** Year of the 400-year era for a day of the era; years start on 1 March. */
  function YearOfEra(doe: nat): int {
    (doe - doe / 1460 + doe / 36524 - doe / 146096) / 365
  }

  /** Days of the era before the given year of it. */
  function YearStart(yoe: int): int {
    365 * yoe + yoe / 4 - yoe / 100
  }

  /** Month, counted from March, for a day of the year. */
  function MonthIndex(doy: int): int {
    (5 * doy + 2) / 153
  }

  /** Days of the year before the given month. */
  function MonthStart(mp: int): int {
    (153 * mp + 2) / 5
  }

  /** Month and day of a March-based year, and the calendar year they fall in. */
  function CivilDate(y: int, doy: int): (int, int, int) {
    var mp := MonthIndex(doy);
    var d := doy - MonthStart(mp) + 1;
    var m := if mp < 10 then mp + 3 else mp - 9;
    (if m <= 2 then y + 1 else y, m, d)
  }

  /** `days_to_ymd`, as integers; `NoUnderflow` shows they are the program's u64 values. */
  function DaysToYmd(days: nat): (int, int, int) {
    var z := days + 719468;
    var era := z / 146097;
    var doe := z % 146097;
    var yoe := YearOfEra(doe);
    CivilDate(yoe + era * 400, doe - YearStart(yoe))
  }

  // ---- Proof ----

  /** Length of a March-based year: it ends with the February of the next calendar year. */
  function MarchYearLength(yoe: nat): nat {
    DaysInYear(yoe + 1)
  }

  lemma YearDigits(yoe: nat)
    requires yoe < 400
    ensures var c, q, r := yoe / 100, yoe % 100 / 4, yoe % 4;
      yoe == 100 * c + 4 * q + r && yoe / 4 == 25 * c + q && c <= 3 && q <= 24 && r <= 3
  {
  }

  /** A 366th day means that the next calendar year is a leap year. */
  lemma LeapDay(yoe: nat, doy: nat)
    requires yoe < 400 && doy < MarchYearLength(yoe)
    ensures doy <= 365
    ensures doy == 365 ==> yoe % 4 == 3 && (yoe % 100 / 4 == 24 ==> yoe / 100 == 3)
  {
    if doy == 365 {
      YearDigits(yoe);
      assert (yoe + 1) % 4 == 0;
      if yoe % 100 / 4 == 24 {
        assert (yoe + 1) % 100 == 0 && (yoe + 1) % 400 == 0;
      }
    }
  }

  lemma Quotient1460(a: nat, q: nat)
    requires 1460 * q <= a < 1460 * (q + 1)
    ensures a / 1460 == q
  {
  }

  lemma Quotient36524(a: nat, q: nat)
    requires 36524 * q <= a < 36524 * (q + 1)
    ensures a / 36524 == q
  {
  }

  lemma Quotient365(a: nat, q: nat)
    requires 365 * q <= a < 365 * (q + 1)
    ensures a / 365 == q
  {
  }

  /** Centuries, leap cycles and years of an era, from the day: the corrections by 1460, 36524
      and 146096 leave 365 days to every year. */
  lemma YearFormula(c: nat, q: nat, r: nat, doy: nat)
    requires c <= 3 && q <= 24 && r <= 3 && doy <= 365
    requires doy == 365 ==> r == 3 && (q == 24 ==> c == 3)
    ensures var doe := 36524 * c + 1461 * q + 365 * r + doy;
      doe < 146097 && YearOfEra(doe) == 100 * c + 4 * q + r
  {
    var yoe := 100 * c + 4 * q + r;
    var doe := 36524 * c + 1461 * q + 365 * r + doy;
    var rest := 24 * c + q + 365 * r + doy;
    var extra := if rest >= 1460 then 1 else 0;
    var last := if doe == 146096 then 1 else 0;
    Quotient1460(doe, 25 * c + q + extra);
    Quotient36524(doe, c + last);
    Quotient146096(doe, last);
    Quotient365(365 * yoe + (doy - extra), yoe);
  }

  lemma Quotient146096(a: nat, q: nat)
    requires 146096 * q <= a < 146096 * (q + 1)
    ensures a / 146096 == q
  {
  }

  /** The day of an era is split back into year and day of the year. */
  lemma YearRecovered(yoe: nat, doy: nat)
    requires yoe < 400 && doy < MarchYearLength(yoe)
    ensures 0 <= YearStart(yoe) + doy < 146097
    ensures YearOfEra(YearStart(yoe) + doy) == yoe
  {
    var c, q, r := yoe / 100, yoe % 100 / 4, yoe % 4;
    YearDigits(yoe);
    LeapDay(yoe, doy);
    YearFormula(c, q, r, doy);
  }

  /** The day of a year is split back into month and day of the month. */
  lemma MonthRecovered(y: nat, m: nat, d: nat)
    requires 1 <= m <= 12 && 1 <= d <= DaysInMonth(y, m)
    ensures var mp := if m > 2 then m - 3 else m + 9; MonthIndex(MonthStart(mp) + d - 1) == mp
  {
  }

  function Leaps(y: int): int {
    y / 4 - y / 100 + y / 400
  }

  lemma {:induction false} YearsClosedForm(y: nat)
    requires y >= 1970
    ensures DaysBeforeYear(y) == 365 * (y - 1970) + Leaps(y - 1) - Leaps(1969)
  {
    if y > 1970 {
      YearsClosedForm(y - 1);
      LeapStep(y - 1);
    }
  }

  lemma LeapStep(y: nat)
    requires y > 0
    ensures Leaps(y) - Leaps(y - 1) == if IsLeap(y) then 1 else 0
  {
    Divisors(y);
    QuotientStep(y, 4);
    QuotientStep(y, 100);
    QuotientStep(y, 400);
  }

  lemma QuotientStep(y: nat, k: nat)
    requires y > 0 && (k == 4 || k == 100 || k == 400)
    ensures y / k - (y - 1) / k == if y % k == 0 then 1 else 0
  {
  }

  lemma Divisors(y: nat)
    ensures y % 400 == 0 ==> y % 100 == 0
    ensures y % 100 == 0 ==> y % 4 == 0
  {
    By4(25 * (y / 100), y % 100);
    By100(4 * (y / 400), y % 400);
    assert y == 4 * (25 * (y / 100)) + y % 100;
    assert y == 100 * (4 * (y / 400)) + y % 400;
  }

  /** 97 leap days per era. */
  lemma EraSplit(y: nat)
    ensures var era, yoe := y / 400, y % 400;
      && y == 400 * era + yoe
      && Leaps(y) == 97 * era + yoe / 4 - yoe / 100
      && IsLeap(yoe + 1) == IsLeap(y + 1)
  {
    var era, yoe := y / 400, y % 400;
    By4(100 * era, yoe);
    By4(100 * era, yoe + 1);
    By100(4 * era, yoe);
    By100(4 * era, yoe + 1);
    By400(era, yoe);
    By400(era, yoe + 1);
  }

  lemma By4(q: nat, a: nat)
    ensures (4 * q + a) / 4 == q + a / 4 && (4 * q + a) % 4 == a % 4
  {
  }

  lemma By100(q: nat, a: nat)
    ensures (100 * q + a) / 100 == q + a / 100 && (100 * q + a) % 100 == a % 100
  {
  }

  lemma By400(q: nat, a: nat)
    ensures (400 * q + a) / 400 == q + a / 400 && (400 * q + a) % 400 == a % 400
  {
  }

  lemma MonthsClosedForm(y: nat, m: nat)
    requires 1 <= m <= 12
    ensures DaysBeforeMonth(y, m) ==
      if m > 2 then MonthStart(m - 3) + 59 + (if IsLeap(y) then 1 else 0) else MonthStart(m + 9) - 306
  {
    if m > 1 {
      MonthsClosedForm(y, m - 1);
    }
  }

  /** A date's number, in eras, years of the era and days of the March-based year. */
  lemma DayNumberClosedForm(date: Date) returns (era: nat, yoe: nat, doy: nat)
    requires ValidDate(date)
    ensures yoe < 400 && doy < MarchYearLength(yoe)
    ensures DayNumber(date) + 719468 == 146097 * era + YearStart(yoe) + doy
    ensures 400 * era + yoe == if date.month > 2 then date.year else date.year - 1
    ensures doy == MonthStart(if date.month > 2 then date.month - 3 else date.month + 9) + date.day - 1
  {
    var y := if date.month > 2 then date.year else date.year - 1;
    era, yoe := y / 400, y % 400;
    doy := MonthStart(if date.month > 2 then date.month - 3 else date.month + 9) + date.day - 1;
    EraSplit(y);
    DayOfYearBound(y, date);
    NumberInMarchYears(date, y, doy);
  }

  lemma DayOfYearBound(y: nat, date: Date)
    requires ValidDate(date) && y == if date.month > 2 then date.year else date.year - 1
    ensures var month := if date.month > 2 then date.month - 3 else date.month + 9;
      0 <= MonthStart(month) + date.day - 1 < DaysInYear(y + 1)
  {
  }

  lemma LeapsTo1969()
    ensures Leaps(1969) == 477
  {
  }

  lemma NumberInMarchYears(date: Date, y: nat, doy: nat)
    requires ValidDate(date) && y == if date.month > 2 then date.year else date.year - 1
    requires doy == MonthStart(if date.month > 2 then date.month - 3 else date.month + 9) + date.day - 1
    ensures DayNumber(date) + 719468 == 365 * y + Leaps(y) + doy
  {
    hide IsLeap, MonthStart, DaysBeforeYear, DaysBeforeMonth, Leaps, DaysInMonth;
    YearsClosedForm(date.year);
    MonthsClosedForm(date.year, date.month);
    LeapsTo1969();
    if date.month > 2 {
      LeapStep(date.year);
    }
  }

  /** Every date is what the closed form makes of its number, and no subtraction on the way
      falls below zero. */
  lemma ClosedFormOfNumber(date: Date)
    requires ValidDate(date)
    ensures DaysToYmd(DayNumber(date)) == (date.year, date.month, date.day)
    ensures StaysUnsigned(DayNumber(date))
  {
    hide DayNumber, YearOfEra, YearStart, MonthIndex, MonthStart, MarchYearLength;
    var era, yoe, doy := DayNumberClosedForm(date);
    YearRecovered(yoe, doy);
    EraOfDay(DayNumber(date) + 719468, era, YearStart(yoe) + doy);
    MonthRecovered(date.year, date.month, date.day);
    EraUnsigned(YearStart(yoe) + doy);
    YearUnsigned(yoe);
  }

  lemma EraUnsigned(doe: nat)
    ensures doe / 1460 <= doe
    ensures doe / 146096 <= doe - doe / 1460 + doe / 36524
  {
  }

  lemma YearUnsigned(yoe: nat)
    ensures yoe / 100 <= 365 * yoe + yoe / 4
  {
  }

  lemma EraOfDay(z: nat, era: nat, doe: nat)
    requires z == 146097 * era + doe && doe < 146097
    ensures z / 146097 == era && z % 146097 == doe
  {
  }

  /** The minuends and subtrahends of `days_to_ymd`, in the order they are met. */
  predicate StaysUnsigned(days: nat) {
    var doe := (days + 719468) % 146097;
    var yoe := YearOfEra(doe);
    var doy := doe - YearStart(yoe);
    && doe / 1460 <= doe
    && doe / 146096 <= doe - doe / 1460 + doe / 36524
    && 0 <= yoe && yoe / 100 <= 365 * yoe + yoe / 4
    && 0 <= doy && MonthStart(MonthIndex(doy)) <= doy
  }

  lemma NumberOfNextDay(date: Date)
    requires ValidDate(date)
    ensures ValidDate(NextDay(date)) && DayNumber(NextDay(date)) == DayNumber(date) + 1
  {
    if date.month == 12 {
      YearOfMonths(date.year);
    }
  }

  lemma YearOfMonths(y: nat)
    ensures DaysBeforeMonth(y, 12) + 31 == DaysInYear(y)
  {
    MonthsClosedForm(y, 12);
  }

  lemma {:induction false} DayByDayNumber(n: nat)
    ensures ValidDate(DayByDay(n)) && DayNumber(DayByDay(n)) == n
  {
    if n > 0 {
      DayByDayNumber(n - 1);
      NumberOfNextDay(DayByDay(n - 1));
    }
  }

  /** The closed form is the calendar, for every day. */
  lemma DaysToYmdCorrect(n: nat)
    ensures var date := DayByDay(n);
      && ValidDate(date)
      && DaysToYmd(n) == (date.year, date.month, date.day)
      && DayNumber(date) == n
  {
    DayByDayNumber(n);
    ClosedFormOfNumber(DayByDay(n));
  }

  /** For every day number that a u64 count of seconds can give, no step of `days_to_ymd`
      leaves the range of u64. */
  lemma NoUnderflow(n: nat)
    requires n <= 0xFFFF_FFFF_FFFF_FFFF / 86400
    ensures StaysUnsigned(n)
    ensures n + 719468 <= 0xFFFF_FFFF_FFFF_FFFF
    ensures 0 <= DaysToYmd(n).0 <= n + 1970
  {
    DayByDayNumber(n);
    ClosedFormOfNumber(DayByDay(n));
    YearsPass(n);
  }

  lemma {:induction false} YearsPass(n: nat)
    ensures DayByDay(n).year <= n + 1970
  {
    if n > 0 {
      YearsPass(n - 1);
    }
  }

  /** Later days have later dates. */
  lemma {:induction false} DatesIncrease(a: nat, b: nat)
    requires a < b
    ensures Before(DayByDay(a), DayByDay(b))
    decreases b
  {
    DayByDayNumber(b - 1);
    if a < b - 1 {
      DatesIncrease(a, b - 1);
    }
  }

  /** The years around a full century: only every fourth century is a leap year. */
  lemma LeapYears()
    ensures IsLeap(2000) && IsLeap(2024) && IsLeap(2096) && IsLeap(2104) && IsLeap(2400)
    ensures !IsLeap(1999) && !IsLeap(2001) && !IsLeap(2002) && !IsLeap(2100) && !IsLeap(2200) && !IsLeap(2300)
  {
  }
}
