/** SigV4 timestamps: crates/storage/src/presign.rs:42-58. */
module Timestamps {
  import opened Wrappers
  import opened Bytes
  import opened Calendar
  import opened Decimals

  const SECONDS_PER_DAY := 86400
  /** 10000-01-01T00:00:00Z */
  const YEAR_10000 := 253402300800

  function Zeros(n: nat): Str {
    seq(n, _ => 48)
  }

  /** `{:0w}`: at least `w` digits. */
  function Pad(n: nat, w: nat): Str {
    var digits := Decimal(n);
    if |digits| < w then Zeros(w - |digits|) + digits else digits
  }

  function DateText(y: nat, m: nat, d: nat): Str {
    Pad(y, 4) + (Pad(m, 2) + Pad(d, 2))
  }

  function TimeText(secondOfDay: nat): Str {
    var hh, mm, ss := secondOfDay / 3600, secondOfDay % 3600 / 60, secondOfDay % 60;
    [84] + (Pad(hh, 2) + (Pad(mm, 2) + (Pad(ss, 2) + [90])))
  }

  /** `format_utc_datetime`: YYYYMMDDTHHMMSSZ. */
  function FormatUtc(unixSecs: nat): Str {
    var (y, m, d) := DaysToYmd(unixSecs / SECONDS_PER_DAY);
    DaysToYmdCorrect(unixSecs / SECONDS_PER_DAY);
    DateText(y, m, d) + TimeText(unixSecs % SECONDS_PER_DAY)
  }

  // ---- Fixed-width digits ----

  function FixedDigits(n: nat, w: nat): (r: Str)
    ensures |r| == w
  {
    if w == 0 then [] else FixedDigits(n / 10, w - 1) + [48 + n % 10]
  }

  lemma {:induction false} ZeroDigits(w: nat)
    ensures FixedDigits(0, w) == Zeros(w)
  {
    if w > 0 {
      ZeroDigits(w - 1);
      assert Zeros(w) == Zeros(w - 1) + [48];
    }
  }

  lemma MoreDigits(n: nat)
    requires n >= 10
    ensures |Decimal(n)| == |Decimal(n / 10)| + 1 && |Decimal(n)| > 1
    ensures Decimal(n) == Decimal(n / 10) + [48 + n % 10]
  {
    DecimalValue(n / 10);
  }

  lemma PadLonger(n: nat, w: nat)
    requires w > 1 && n >= 10
    ensures Pad(n, w) == Pad(n / 10, w - 1) + [48 + n % 10]
  {
    hide Decimal;
    MoreDigits(n);
    var digits := Decimal(n / 10);
    if |digits| < w - 1 {
      assert Zeros(w - |digits| - 1) + (digits + [48 + n % 10]) == Zeros(w - 1 - |digits|) + digits + [48 + n % 10];
    }
  }

  lemma OneDigit(n: nat)
    requires n < 10
    ensures Decimal(n) == [48 + n]
  {
  }

  lemma PadOfOne(n: nat)
    ensures n < 10 ==> Pad(n, 1) == FixedDigits(n, 1)
    ensures n >= 10 ==> |Pad(n, 1)| > 1
  {
    hide Decimal;
    if n < 10 {
      OneDigit(n);
      assert FixedDigits(n / 10, 0) == [];
    } else {
      MoreDigits(n);
    }
  }

  lemma {:induction false} PadIsFixed(n: nat, w: nat)
    requires w > 0
    ensures n < Pow10(w) ==> Pad(n, w) == FixedDigits(n, w)
    ensures n >= Pow10(w) ==> |Pad(n, w)| > w
    decreases w
  {
    hide Decimal, Pad;
    PowOfOne();
    if w == 1 {
      PadOfOne(n);
    } else if n < 10 {
      ZeroDigits(w - 1);
      PadOfDigit(n, w);
      PowPositive(w - 1);
    } else {
      PadIsFixed(n / 10, w - 1);
      PadLonger(n, w);
    }
  }

  lemma PowOfOne()
    ensures Pow10(1) == 10
  {
    assert Pow10(0) == 1;
  }

  lemma PadOfDigit(n: nat, w: nat)
    requires w > 1 && n < 10
    ensures Pad(n, w) == Zeros(w - 1) + [48 + n]
  {
    OneDigit(n);
  }

  lemma {:induction false} PowPositive(w: nat)
    ensures Pow10(w) >= 1
  {
    if w > 0 {
      PowPositive(w - 1);
    }
  }

  /** Numbers of one width are ordered as their digits are. */
  lemma {:induction false} DigitsOrdered(a: nat, b: nat, w: nat)
    requires a < Pow10(w) && b < Pow10(w)
    ensures Lt(FixedDigits(a, w), FixedDigits(b, w)) <==> a < b
    ensures FixedDigits(a, w) == FixedDigits(b, w) <==> a == b
  {
    if w > 0 {
      DigitsOrdered(a / 10, b / 10, w - 1);
      LtConcat(FixedDigits(a / 10, w - 1), [48 + a % 10], FixedDigits(b / 10, w - 1), [48 + b % 10]);
      var fa, fb := FixedDigits(a, w), FixedDigits(b, w);
      assert fa[..w - 1] == FixedDigits(a / 10, w - 1) && fb[..w - 1] == FixedDigits(b / 10, w - 1);
      assert fa[w - 1] == 48 + a % 10 && fb[w - 1] == 48 + b % 10;
    } else {
      LtIrreflexive([]);
    }
  }

  lemma PadOrdered(a: nat, b: nat, w: nat)
    requires w > 0 && a < Pow10(w) && b < Pow10(w)
    ensures |Pad(a, w)| == |Pad(b, w)| == w
    ensures Lt(Pad(a, w), Pad(b, w)) <==> a < b
    ensures Pad(a, w) == Pad(b, w) <==> a == b
  {
    PadIsFixed(a, w);
    PadIsFixed(b, w);
    DigitsOrdered(a, b, w);
  }

  // ---- Dates and times ----

  lemma Pow10Values()
    ensures Pow10(2) == 100 && Pow10(4) == 10000
  {
    assert Pow10(1) == 10;
    assert Pow10(3) == 1000;
  }

  lemma ConcatEqual(a: Str, b: Str, c: Str, d: Str)
    requires |a| == |c|
    ensures a + b == c + d <==> a == c && b == d
  {
    assert a == (a + b)[..|a|] && b == (a + b)[|a|..];
    assert c == (c + d)[..|c|] && d == (c + d)[|c|..];
  }

  lemma DateTextOrdered(a: Date, b: Date)
    requires ValidDate(a) && ValidDate(b) && a.year < 10000 && b.year < 10000
    ensures var s, t := DateText(a.year, a.month, a.day), DateText(b.year, b.month, b.day);
      |s| == |t| == 8 && (Lt(s, t) <==> Before(a, b)) && (s == t <==> a == b)
  {
    Pow10Values();
    PadOrdered(a.year, b.year, 4);
    PadOrdered(a.month, b.month, 2);
    PadOrdered(a.day, b.day, 2);
    LtConcat(Pad(a.month, 2), Pad(a.day, 2), Pad(b.month, 2), Pad(b.day, 2));
    LtConcat(Pad(a.year, 4), Pad(a.month, 2) + Pad(a.day, 2), Pad(b.year, 4), Pad(b.month, 2) + Pad(b.day, 2));
    ConcatEqual(Pad(a.month, 2), Pad(a.day, 2), Pad(b.month, 2), Pad(b.day, 2));
    ConcatEqual(Pad(a.year, 4), Pad(a.month, 2) + Pad(a.day, 2), Pad(b.year, 4), Pad(b.month, 2) + Pad(b.day, 2));
  }

  /** Clock order, component by component. */
  lemma ClockOrder(a: nat, b: nat)
    ensures a < b <==>
      || a / 3600 < b / 3600
      || (a / 3600 == b / 3600 && a % 3600 / 60 < b % 3600 / 60)
      || (a / 3600 == b / 3600 && a % 3600 / 60 == b % 3600 / 60 && a % 60 < b % 60)
  {
    assert a == 3600 * (a / 3600) + a % 3600 && b == 3600 * (b / 3600) + b % 3600;
    MinuteSplit(a);
    MinuteSplit(b);
  }

  lemma MinuteSplit(a: nat)
    ensures a % 3600 == 60 * (a % 3600 / 60) + a % 60
  {
    var h, rest := a / 3600, a % 3600;
    SixtyTimes(60 * h, rest);
  }

  lemma SixtyTimes(q: nat, a: nat)
    ensures (60 * q + a) % 60 == a % 60
  {
  }

  lemma TimeTextOrdered(a: nat, b: nat)
    requires a < SECONDS_PER_DAY && b < SECONDS_PER_DAY
    ensures |TimeText(a)| == |TimeText(b)| == 8
    ensures Lt(TimeText(a), TimeText(b)) <==> a < b
  {
    Pow10Values();
    var (h, m, s) := (a / 3600, a % 3600 / 60, a % 60);
    var (h', m', s') := (b / 3600, b % 3600 / 60, b % 60);
    PadOrdered(h, h', 2);
    PadOrdered(m, m', 2);
    PadOrdered(s, s', 2);
    ClockOrder(a, b);
    LtIrreflexive([90]);
    LtConcat(Pad(s, 2), [90], Pad(s', 2), [90]);
    LtConcat(Pad(m, 2), Pad(s, 2) + [90], Pad(m', 2), Pad(s', 2) + [90]);
    LtConcat(Pad(h, 2), Pad(m, 2) + (Pad(s, 2) + [90]), Pad(h', 2), Pad(m', 2) + (Pad(s', 2) + [90]));
    LtIrreflexive([84]);
    LtConcat([84], Pad(h, 2) + (Pad(m, 2) + (Pad(s, 2) + [90])), [84], Pad(h', 2) + (Pad(m', 2) + (Pad(s', 2) + [90])));
  }

  /** The calendar reaches the year 10000 on day 2932897. */
  lemma YearHasFourDigits(n: nat)
    ensures DayByDay(n).year < 10000 <==> n < YEAR_10000 / SECONDS_PER_DAY
  {
    var newYear := Date(10000, 1, 1);
    YearsClosedForm(10000);
    assert DayNumber(newYear) == 2932897;
    ClosedFormOfNumber(newYear);
    DaysToYmdCorrect(2932897);
    DayByDayNumber(n);
    if n < 2932897 {
      DatesIncrease(n, 2932897);
    } else if n > 2932897 {
      DatesIncrease(2932897, n);
    }
  }

  // ---- Main results ----

  lemma FormatParts(t: nat)
    ensures var date := DayByDay(t / SECONDS_PER_DAY);
      && ValidDate(date)
      && (date.year < 10000 <==> t < YEAR_10000)
      && FormatUtc(t) == DateText(date.year, date.month, date.day) + TimeText(t % SECONDS_PER_DAY)
  {
    DaysToYmdCorrect(t / SECONDS_PER_DAY);
    YearHasFourDigits(t / SECONDS_PER_DAY);
  }

  /** The text has its 16 characters exactly through the year 9999. */
  lemma FormatLength(t: nat)
    ensures |FormatUtc(t)| == 16 <==> t < YEAR_10000
  {
    FormatParts(t);
    Pow10Values();
    var date := DayByDay(t / SECONDS_PER_DAY);
    TimeTextOrdered(t % SECONDS_PER_DAY, t % SECONDS_PER_DAY);
    PadIsFixed(date.year, 4);
    PadOrdered(date.month, date.month, 2);
    PadOrdered(date.day, date.day, 2);
  }

  /** Through the year 9999 instants compare as their texts do, and two instants share the
      eight-character datestamp exactly when they fall on one UTC day. */
  lemma FormatOrdered(t: nat, u: nat)
    requires t < YEAR_10000 && u < YEAR_10000
    ensures Lt(FormatUtc(t), FormatUtc(u)) <==> t < u
    ensures FormatUtc(t) == FormatUtc(u) <==> t == u
    ensures |FormatUtc(t)| == |FormatUtc(u)| == 16
    ensures FormatUtc(t)[..8] == FormatUtc(u)[..8] <==> t / SECONDS_PER_DAY == u / SECONDS_PER_DAY
  {
    OneDirection(t, u);
    OneDirection(u, t);
    LtIrreflexive(FormatUtc(t));
  }

  lemma OneDirection(t: nat, u: nat)
    requires t < YEAR_10000 && u < YEAR_10000
    ensures Lt(FormatUtc(t), FormatUtc(u)) <==> t < u
    ensures |FormatUtc(t)| == |FormatUtc(u)| == 16
    ensures FormatUtc(t)[..8] == FormatUtc(u)[..8] <==> t / SECONDS_PER_DAY == u / SECONDS_PER_DAY
  {
    FormatParts(t);
    FormatParts(u);
    var m, n := t / SECONDS_PER_DAY, u / SECONDS_PER_DAY;
    var a, b := DayByDay(m), DayByDay(n);
    var x, y := DateText(a.year, a.month, a.day), DateText(b.year, b.month, b.day);
    DateTextOrdered(a, b);
    TimeTextOrdered(t % SECONDS_PER_DAY, u % SECONDS_PER_DAY);
    LtConcat(x, TimeText(t % SECONDS_PER_DAY), y, TimeText(u % SECONDS_PER_DAY));
    DaysOrdered(m, n);
    assert FormatUtc(t)[..8] == x && FormatUtc(u)[..8] == y;
  }

  lemma DaysOrdered(m: nat, n: nat)
    ensures Before(DayByDay(m), DayByDay(n)) <==> m < n
    ensures DayByDay(m) == DayByDay(n) <==> m == n
  {
    if m < n {
      DatesIncrease(m, n);
    } else if n < m {
      DatesIncrease(n, m);
    }
  }

  // ---- What the text says ----

  lemma {:induction false} FixedDigitsValue(n: nat, w: nat)
    requires n < Pow10(w)
    ensures AllDigits(FixedDigits(n, w)) && DigitsValue(FixedDigits(n, w)) == n
  {
    var s := FixedDigits(n, w);
    if w > 0 {
      FixedDigitsValue(n / 10, w - 1);
      assert s[..w - 1] == FixedDigits(n / 10, w - 1);
    }
  }

  /** A padded number that fits is as many digits as asked for, and they give the number. */
  lemma PadValue(n: nat, w: nat)
    requires w > 0 && n < Pow10(w)
    ensures |Pad(n, w)| == w && AllDigits(Pad(n, w)) && DigitsValue(Pad(n, w)) == n
  {
    PadIsFixed(n, w);
    FixedDigitsValue(n, w);
  }

  /** Some digits of a text, as a number. */
  function Number(s: Str, from: nat, to: nat): Option<nat>
    requires from <= to <= |s|
  {
    if AllDigits(s[from..to]) then Some(DigitsValue(s[from..to])) else None
  }

  lemma DatePart(y: nat, m: nat, d: nat)
    requires y < 10000 && m < 100 && d < 100
    ensures var s := DateText(y, m, d);
      |s| == 8 && Number(s, 0, 4) == Some(y) && Number(s, 4, 6) == Some(m) && Number(s, 6, 8) == Some(d)
  {
    hide Pad, AllDigits, DigitsValue;
    Pow10Values();
    PadValue(y, 4);
    PadValue(m, 2);
    PadValue(d, 2);
    var s := DateText(y, m, d);
    assert s[0..4] == Pad(y, 4) && s[4..6] == Pad(m, 2) && s[6..8] == Pad(d, 2);
  }

  lemma TimePart(h: nat, m: nat, sec: nat)
    requires h < 24 && m < 60 && sec < 60
    ensures var s := TimeText(3600 * h + 60 * m + sec);
      && |s| == 8 && s[0] == 84 && s[7] == 90
      && Number(s, 1, 3) == Some(h) && Number(s, 3, 5) == Some(m) && Number(s, 5, 7) == Some(sec)
  {
    hide Pad, AllDigits, DigitsValue;
    Pow10Values();
    PadValue(h, 2);
    PadValue(m, 2);
    PadValue(sec, 2);
    var t := 3600 * h + 60 * m + sec;
    assert t / 3600 == h && t % 3600 == 60 * m + sec && t % 3600 / 60 == m && t % 60 == sec;
    var s := TimeText(t);
    assert s[1..3] == Pad(h, 2) && s[3..5] == Pad(m, 2) && s[5..7] == Pad(sec, 2);
  }

  lemma NumberInside(a: Str, b: Str, from: nat, to: nat)
    requires from <= to
    ensures to <= |a| ==> Number(a + b, from, to) == Number(a, from, to)
    ensures to <= |b| ==> Number(a + b, |a| + from, |a| + to) == Number(b, from, to)
  {
    if to <= |a| {
      assert (a + b)[from..to] == a[from..to];
    }
    if to <= |b| {
      assert (a + b)[|a| + from..|a| + to] == b[from..to];
    }
  }

  /** Before the year 10000 the text is YYYYMMDDTHHMMSSZ of the instant: the first eight digits are
      year, month and day of the calendar counted day by day, the other six hour, minute and second
      of the day, with a T between them and a Z at the end. */
  lemma FormatSays(t: nat)
    requires t < YEAR_10000
    ensures var (s, date) := (FormatUtc(t), DayByDay(t / 86400));
      && |s| == 16 && s[8] == 'T' as int && s[15] == 'Z' as int
      && Number(s, 0, 4) == Some(date.year) && Number(s, 4, 6) == Some(date.month) && Number(s, 6, 8) == Some(date.day)
    ensures var s := FormatUtc(t);
      var (h, m, sec) := (Number(s, 9, 11), Number(s, 11, 13), Number(s, 13, 15));
      && h.Some? && m.Some? && sec.Some? && m.value < 60 && sec.value < 60
      && 3600 * h.value + 60 * m.value + sec.value == t % 86400
  {
    hide DateText, TimeText, FormatUtc, Number, DayByDay;
    FormatParts(t);
    var date, rest := DayByDay(t / 86400), t % 86400;
    var h, m, sec := rest / 3600, rest % 3600 / 60, rest % 60;
    assert rest == 3600 * h + 60 * m + sec && h < 24;
    var x, y := DateText(date.year, date.month, date.day), TimeText(rest);
    DateBounds(date);
    DatePart(date.year, date.month, date.day);
    TimePart(h, m, sec);
    NumberInside(x, y, 0, 4);
    NumberInside(x, y, 4, 6);
    NumberInside(x, y, 6, 8);
    NumberInside(x, y, 1, 3);
    NumberInside(x, y, 3, 5);
    NumberInside(x, y, 5, 7);
  }

  lemma DateBounds(date: Date)
    requires ValidDate(date)
    ensures date.month < 100 && date.day < 100
  {
  }

  /** The first second of all. */
  lemma EpochText()
    ensures FormatUtc(0) == [49, 57, 55, 48, 48, 49, 48, 49, 84, 48, 48, 48, 48, 48, 48, 90]
  {
    hide Pad, FixedDigits, FormatUtc, DayByDay;
    FormatParts(0);
    FirstDay();
    Pow10Values();
    PadIsFixed(1970, 4);
    PadIsFixed(1, 2);
    PadIsFixed(0, 2);
    DigitStep(1970, 3);
    DigitStep(197, 2);
    DigitStep(19, 1);
    DigitStep(1, 1);
    DigitStep(1, 0);
    DigitStep(0, 1);
    DigitStep(0, 0);
  }

  lemma FirstDay()
    ensures DayByDay(0) == Date(1970, 1, 1)
  {
  }

  lemma DigitStep(n: nat, w: nat)
    ensures FixedDigits(n, w + 1) == FixedDigits(n / 10, w) + [48 + n % 10]
    ensures FixedDigits(n, 0) == []
  {
  }
}
