/**
 The audit sink's UTC date: Hinnant's civil-from-days computation, proved equal to
 walking the proleptic Gregorian calendar one day at a time from 1970-01-01.
 */
module CivilDate {
  // ---- The calendar --------------------------------------------------------

  datatype Date = Date(year: int, month: int, day: int)

  predicate IsLeap(y: int) {
    y % 4 == 0 && (y % 100 != 0 || y % 400 == 0)
  }

  function DaysInMonth(y: int, m: int): int {
    if m == 2 then (if IsLeap(y) then 29 else 28)
    else if m == 4 || m == 6 || m == 9 || m == 11 then 30
    else 31
  }

  predicate Valid(d: Date) {
    1 <= d.month <= 12 && 1 <= d.day <= DaysInMonth(d.year, d.month)
  }

  function Tomorrow(d: Date): Date {
    if d.day < DaysInMonth(d.year, d.month) then d.(day := d.day + 1)
    else if d.month < 12 then Date(d.year, d.month + 1, 1)
    else Date(d.year + 1, 1, 1)
  }

  function Yesterday(d: Date): Date {
    if d.day > 1 then d.(day := d.day - 1)
    else if d.month > 1 then Date(d.year, d.month - 1, DaysInMonth(d.year, d.month - 1))
    else Date(d.year - 1, 12, 31)
  }

  // The date `n` days after 1970-01-01, one day at a time.
  function Walk(n: int): Date
    decreases if n < 0 then -n else n
  {
    if n == 0 then Date(1970, 1, 1)
    else if n > 0 then Tomorrow(Walk(n - 1))
    else Yesterday(Walk(n + 1))
  }

  predicate Before(a: Date, b: Date) {
    a.year < b.year || (a.year == b.year && (a.month < b.month || (a.month == b.month && a.day < b.day)))
  }

  // ---- The computation -----------------------------------------------------

  // `/` on i64, which truncates toward zero.
  function TruncDiv(a: int, b: int): int
    requires b > 0
  {
    if a >= 0 then a / b else -(-a / b)
  }

  function Era(z: int): int {
    if z >= 0 then TruncDiv(z, 146_097) else TruncDiv(z - 146_096, 146_097)
  }

  function YearOfEra(doe: int): int {
    (doe - doe / 1460 + doe / 36_524 - doe / 146_096) / 365
  }

  function DayOfYear(doe: int, yoe: int): int {
    doe - (365 * yoe + yoe / 4 - yoe / 100)
  }

  // Year, month and day from the March-based year and the day within it.
  function MonthAndDay(y: int, doy: int): Date {
    var mp := (5 * doy + 2) / 153;
    var d := doy - (153 * mp + 2) / 5 + 1;
    var m := if mp < 10 then mp + 3 else mp - 9;
    Date(y + (if m <= 2 then 1 else 0), m, d)
  }

  function CivilInEra(era: int, doe: int): Date {
    var yoe := YearOfEra(doe);
    MonthAndDay(yoe + era * 400, DayOfYear(doe, yoe))
  }

  function CivilFromDays(days: int): Date {
    var z := days + 719_468;
    var era := Era(z);
    CivilInEra(era, z - era * 146_097)
  }

  // `as i32`: keeps the low 32 bits.
  function AsI32(n: int): int {
    (n + 0x8000_0000) % 0x1_0000_0000 - 0x8000_0000
  }

  predicate FitsI32(n: int) {
    -0x8000_0000 <= n < 0x8000_0000
  }

  // `div_euclid` is Dafny's own division.
  function YmdFromUnixSecs(secs: int): Date {
    var date := CivilFromDays(secs / 86_400);
    date.(year := AsI32(date.year))
  }

  // A quotient is determined by where its multiples fall.
  lemma QuotientIs(a: int, b: int, q: int)
    requires b > 0 && q * b <= a < q * b + b
    ensures a / b == q && a % b == a - q * b
  {
    var k := a / b - q;
    assert b * k == a - q * b - a % b;
    assert k >= 1 ==> b * k >= b;
    assert k <= -1 ==> b * k <= -b;
  }

  // ---- Eras and March-based years ------------------------------------------

  lemma EraIsFloor(z: int)
    ensures 0 <= z - Era(z) * 146_097 < 146_097
  {
  }

  lemma CivilOfEra(era: int, doe: int)
    requires 0 <= doe < 146_097
    ensures CivilFromDays(era * 146_097 + doe - 719_468) == CivilInEra(era, doe)
  {
    hide CivilInEra;
    EraIsFloor(era * 146_097 + doe);
  }

  // Length of the year from 1 March of `yoe` to the end of February of the next.
  function YearLength(yoe: int): int {
    if (yoe + 1) % 4 == 0 && ((yoe + 1) % 100 != 0 || yoe == 399) then 366 else 365
  }

  function YearStart(yoe: int): int {
    365 * yoe + yoe / 4 - yoe / 100
  }

  // The division formula inverts the layout of the 400 years of an era.
  lemma YearOfEraInverts(yoe: int, doy: int)
    requires 0 <= yoe < 400 && 0 <= doy < YearLength(yoe)
    ensures 0 <= YearStart(yoe) + doy < 146_097
    ensures YearOfEra(YearStart(yoe) + doy) == yoe
    ensures DayOfYear(YearStart(yoe) + doy, yoe) == doy
  {
    var c, q, r := yoe / 100, yoe % 100 / 4, yoe % 100 % 4;
    QuotientIs(yoe, 4, 25 * c + q);
    LastYearOfCycle(yoe, c, q, r);
    FormulaInverts(c, q, r, doy);
  }

  // The same in terms of century `c`, cycle of four years `q` and year `r`.
  lemma FormulaInverts(c: int, q: int, r: int, doy: int)
    requires 0 <= c < 4 && 0 <= q < 25 && 0 <= r < 4
    requires 0 <= doy < 365 || (doy == 365 && r == 3 && (q < 24 || c == 3))
    ensures var doe := 36_524 * c + 1461 * q + 365 * r + doy;
            0 <= doe < 146_097 && YearOfEra(doe) == 100 * c + 4 * q + r
  {
    var doe := 36_524 * c + 1461 * q + 365 * r + doy;
    Quotients(c, q, r, doy, doe);
    QuotientIs(doe - doe / 1460 + c, 365, 100 * c + 4 * q + r);
  }

  lemma Quotients(c: int, q: int, r: int, doy: int, doe: int)
    requires 0 <= c < 4 && 0 <= q < 25 && 0 <= r < 4
    requires 0 <= doy < 365 || (doy == 365 && r == 3 && (q < 24 || c == 3))
    requires doe == 36_524 * c + 1461 * q + 365 * r + doy
    ensures doe / 36_524 - doe / 146_096 == c
    ensures doe / 1460 == 25 * c + q + (if 24 * c + q + 365 * r + doy < 1460 then 0 else 1)
  {
    var last := if doe == 146_096 then 1 else 0;
    QuotientIs(doe, 36_524, c + last);
    QuotientIs(doe, 146_096, last);
    QuotientIs(doe, 1460, 25 * c + q + (if 24 * c + q + 365 * r + doy < 1460 then 0 else 1));
  }

  // A March-based year is long only as the last of its cycle of four, and the last
  // cycle of a century has a long year only at the end of the era.
  lemma LastYearOfCycle(yoe: int, c: int, q: int, r: int)
    requires 0 <= c < 4 && 0 <= q < 25 && 0 <= r < 4 && yoe == 100 * c + 4 * q + r
    ensures YearLength(yoe) == 366 <==> r == 3 && (q < 24 || c == 3)
  {
    if r == 3 {
      QuotientIs(yoe + 1, 4, 25 * c + q + 1);
      QuotientIs(yoe + 1, 100, if q == 24 then c + 1 else c);
    } else {
      QuotientIs(yoe + 1, 4, 25 * c + q);
    }
  }

  // Every day of an era lies in one of its years.
  lemma DayHasYear(doe: int) returns (yoe: int, doy: int)
    requires 0 <= doe < 146_097
    ensures 0 <= yoe < 400 && 0 <= doy < YearLength(yoe) && doe == YearStart(yoe) + doy
  {
    var c := if doe == 146_096 then 3 else doe / 36_524;
    var inCentury := doe - 36_524 * c;
    var q := inCentury / 1461;
    var inCycle := inCentury - 1461 * q;
    var r := if inCycle == 1460 then 3 else inCycle / 365;
    yoe, doy := 100 * c + 4 * q + r, inCycle - 365 * r;
    QuotientIs(yoe, 4, 25 * c + q);
    QuotientIs(yoe, 100, c);
    LastYearOfCycle(yoe, c, q, r);
  }

  lemma LeapYearsRepeat(era: int, y: int)
    ensures IsLeap(y + era * 400) <==> IsLeap(y)
  {
    QuotientIs(y + era * 400, 4, y / 4 + 100 * era);
    QuotientIs(y + era * 400, 100, y / 100 + 4 * era);
    QuotientIs(y + era * 400, 400, y / 400 + era);
  }

  lemma LeapDayEndsYear(era: int, yoe: int)
    requires 0 <= yoe < 400
    ensures IsLeap(yoe + era * 400 + 1) <==> YearLength(yoe) == 366
  {
    LeapYearsRepeat(era, yoe + 1);
  }

  // ---- One day at a time ---------------------------------------------------

  // First day of the March-based month `mp`; the last entry closes the year.
  function MonthStart(mp: int): int
    requires 0 <= mp <= 12
  {
    [0, 31, 61, 92, 122, 153, 184, 214, 245, 275, 306, 337, 366][mp]
  }

  // The month formula agrees with the table.
  lemma MonthOf(doy: int) returns (mp: int)
    requires 0 <= doy < 366
    ensures 0 <= mp < 12 && MonthStart(mp) <= doy < MonthStart(mp + 1)
    ensures (5 * doy + 2) / 153 == mp && (153 * mp + 2) / 5 == MonthStart(mp)
  {
    mp := if doy < 31 then 0 else if doy < 61 then 1 else if doy < 92 then 2 else if doy < 122 then 3
          else if doy < 153 then 4 else if doy < 184 then 5 else if doy < 214 then 6 else if doy < 245 then 7
          else if doy < 275 then 8 else if doy < 306 then 9 else if doy < 337 then 10 else 11;
    QuotientIs(5 * doy + 2, 153, mp);
    QuotientIs(153 * mp + 2, 5, MonthStart(mp));
  }

  lemma MonthAndDayValid(y: int, doy: int)
    requires 0 <= doy < 365 || (doy == 365 && IsLeap(y + 1))
    ensures Valid(MonthAndDay(y, doy))
  {
    var mp := MonthOf(doy);
  }

  lemma MonthLength(y: int, mp: int)
    requires 0 <= mp < 11
    ensures DaysInMonth(y, if mp < 10 then mp + 3 else mp - 9) == MonthStart(mp + 1) - MonthStart(mp)
  {
  }

  lemma NextDayOfYear(y: int, doy: int)
    requires 0 <= doy < 364 || (doy == 364 && IsLeap(y + 1))
    ensures MonthAndDay(y, doy + 1) == Tomorrow(MonthAndDay(y, doy))
  {
    var mp := MonthOf(doy);
    var mp' := MonthOf(doy + 1);
    if mp < 11 {
      MonthLength(MonthAndDay(y, doy).year, mp);
    }
    if doy + 1 < MonthStart(mp + 1) {
      assert mp' == mp;
    } else {
      assert mp' == mp + 1;
    }
  }

  lemma NextYear(y: int)
    ensures MonthAndDay(y + 1, 0) == Tomorrow(MonthAndDay(y, if IsLeap(y + 1) then 365 else 364))
  {
  }

  lemma CivilOfYear(era: int, yoe: int, doy: int, doe: int)
    requires 0 <= yoe < 400 && 0 <= doy < YearLength(yoe) && doe == YearStart(yoe) + doy
    ensures 0 <= doe < 146_097 && CivilInEra(era, doe) == MonthAndDay(yoe + era * 400, doy)
  {
    YearOfEraInverts(yoe, doy);
  }

  lemma YearLengthBounds(yoe: int)
    ensures 365 <= YearLength(yoe) <= 366
  {
  }

  lemma StepInYear(era: int, yoe: int, doy: int, doe: int)
    requires 0 <= yoe < 400 && 0 <= doy && doy + 1 < YearLength(yoe) && doe == YearStart(yoe) + doy
    ensures CivilInEra(era, doe + 1) == Tomorrow(CivilInEra(era, doe))
  {
    hide CivilInEra, MonthAndDay, Tomorrow, YearStart, YearLength, IsLeap;
    YearLengthBounds(yoe);
    CivilOfYear(era, yoe, doy, doe);
    CivilOfYear(era, yoe, doy + 1, doe + 1);
    LeapDayEndsYear(era, yoe);
    NextDayOfYear(yoe + era * 400, doy);
  }

  lemma YearsAbut(yoe: int)
    requires 0 <= yoe < 399
    ensures YearStart(yoe + 1) == YearStart(yoe) + YearLength(yoe)
  {
    QuotientIs(yoe + 1, 4, if yoe % 4 == 3 then yoe / 4 + 1 else yoe / 4);
    QuotientIs(yoe + 1, 100, if yoe % 100 == 99 then yoe / 100 + 1 else yoe / 100);
  }

  lemma StepToNextYear(era: int, yoe: int, doe: int)
    requires 0 <= yoe < 399 && doe == YearStart(yoe) + YearLength(yoe) - 1
    ensures CivilInEra(era, doe + 1) == Tomorrow(CivilInEra(era, doe))
  {
    hide CivilInEra, MonthAndDay, Tomorrow, YearStart, YearLength, IsLeap;
    YearsAbut(yoe);
    YearLengthBounds(yoe);
    YearLengthBounds(yoe + 1);
    CivilOfYear(era, yoe, YearLength(yoe) - 1, doe);
    CivilOfYear(era, yoe + 1, 0, doe + 1);
    LeapDayEndsYear(era, yoe);
    NextYear(yoe + era * 400);
  }

  lemma StepToNextEra(era: int)
    ensures CivilInEra(era + 1, 0) == Tomorrow(CivilInEra(era, 146_096))
  {
    hide CivilInEra, MonthAndDay, Tomorrow;
    CivilOfYear(era, 399, 365, 146_096);
    CivilOfYear(era + 1, 0, 0, 0);
    LeapDayEndsYear(era, 399);
    NextYear(399 + era * 400);
  }

  lemma DateInEraValid(era: int, doe: int)
    requires 0 <= doe < 146_097
    ensures Valid(CivilInEra(era, doe))
  {
    var yoe, doy := DayHasYear(doe);
    hide CivilInEra, MonthAndDay, Valid, YearStart, YearLength, IsLeap;
    YearLengthBounds(yoe);
    CivilOfYear(era, yoe, doy, doe);
    LeapDayEndsYear(era, yoe);
    MonthAndDayValid(yoe + era * 400, doy);
  }

  lemma StepInEra(era: int, doe: int)
    requires 0 <= doe < 146_096
    ensures CivilInEra(era, doe + 1) == Tomorrow(CivilInEra(era, doe))
  {
    var yoe, doy := DayHasYear(doe);
    if doy + 1 < YearLength(yoe) {
      StepInYear(era, yoe, doy, doe);
    } else {
      StepToNextYear(era, yoe, doe);
    }
  }

  // `f` numbers the days of the calendar: each day's successor is tomorrow.
  ghost predicate Steps(f: int -> Date, days: int) {
    Valid(f(days)) && f(days + 1) == Tomorrow(f(days))
  }

  lemma CivilSteps(days: int)
    ensures Steps(CivilFromDays, days)
  {
    hide CivilInEra, Tomorrow, Valid, Era;
    var z := days + 719_468;
    EraIsFloor(z);
    var era := Era(z);
    var doe := z - era * 146_097;
    DateInEraValid(era, doe);
    if doe + 1 < 146_097 {
      CivilOfEra(era, doe + 1);
      StepInEra(era, doe);
    } else {
      CivilOfEra(era + 1, 0);
      StepToNextEra(era);
    }
  }

  lemma YesterdayUndoesTomorrow(d: Date)
    requires Valid(d)
    ensures Valid(Tomorrow(d)) && Yesterday(Tomorrow(d)) == d && Before(d, Tomorrow(d))
  {
  }

  // ---- Results -------------------------------------------------------------

  lemma {:induction false} StepsIsWalk(f: int -> Date, days: int)
    requires f(0) == Date(1970, 1, 1) && forall d :: Steps(f, d)
    ensures f(days) == Walk(days)
    decreases if days < 0 then -days else days
  {
    if days > 0 {
      StepsIsWalk(f, days - 1);
      assert Steps(f, days - 1);
    } else if days < 0 {
      StepsIsWalk(f, days + 1);
      assert Steps(f, days);
      YesterdayUndoesTomorrow(f(days));
    }
  }

  lemma {:induction false} StepsIsIncreasing(f: int -> Date, a: int, b: int)
    requires a < b && forall d :: Steps(f, d)
    ensures Before(f(a), f(b))
    decreases b - a
  {
    assert Steps(f, a);
    YesterdayUndoesTomorrow(f(a));
    if a + 1 < b {
      StepsIsIncreasing(f, a + 1, b);
    }
  }

  // The computed date is the calendar walk's, for every day before and after 1970.
  lemma CivilIsCalendarWalk(days: int)
    ensures Valid(CivilFromDays(days)) && CivilFromDays(days) == Walk(days)
  {
    assert CivilFromDays(0) == Date(1970, 1, 1);
    hide CivilFromDays;
    forall d ensures Steps(CivilFromDays, d) { CivilSteps(d); }
    StepsIsWalk(CivilFromDays, days);
    assert Steps(CivilFromDays, days);
  }

  lemma LaterDaysHaveLaterDates(a: int, b: int)
    requires a < b
    ensures Before(Walk(a), Walk(b))
  {
    forall d ensures Steps(Walk, d) {
      CivilSteps(d);
      CivilIsCalendarWalk(d);
      CivilIsCalendarWalk(d + 1);
    }
    StepsIsIncreasing(Walk, a, b);
  }

  // The result is the true UTC date if and only if its year fits in an i32.
  lemma YmdIsUtcDate(secs: int)
    ensures YmdFromUnixSecs(secs) == Walk(secs / 86_400) <==> FitsI32(Walk(secs / 86_400).year)
  {
    hide CivilFromDays, Walk;
    CivilIsCalendarWalk(secs / 86_400);
  }

  // There are such instants within the i64 the computation takes.
  lemma FarFutureDateIsWrong() returns (secs: int)
    ensures -0x8000_0000_0000_0000 <= secs < 0x8000_0000_0000_0000
    ensures YmdFromUnixSecs(secs) != Walk(secs / 86_400)
  {
    secs := 0x0100_0000_0000_0000;
    assert CivilFromDays(secs / 86_400).year >= 0x8000_0000;
    hide CivilFromDays, Walk, YmdFromUnixSecs;
    CivilIsCalendarWalk(secs / 86_400);
    YmdIsUtcDate(secs);
  }

  // Among instants whose year fits, two get the same date exactly when they share a UTC day.
  lemma SameDateIffSameDay(a: int, b: int)
    requires FitsI32(Walk(a / 86_400).year) && FitsI32(Walk(b / 86_400).year)
    ensures YmdFromUnixSecs(a) == YmdFromUnixSecs(b) <==> a / 86_400 == b / 86_400
  {
    hide CivilFromDays, Walk;
    CivilIsCalendarWalk(a / 86_400);
    CivilIsCalendarWalk(b / 86_400);
    if a / 86_400 < b / 86_400 {
      LaterDaysHaveLaterDates(a / 86_400, b / 86_400);
    } else if b / 86_400 < a / 86_400 {
      LaterDaysHaveLaterDates(b / 86_400, a / 86_400);
    }
  }

  // ---- The date as text ----------------------------------------------------

  function Digit(d: int): char
    requires 0 <= d < 10
  {
    '0' + d as char
  }

  // `{:0width}`: decimal digits, zero-filled on the left.
  function Padded(n: nat, width: nat): string
    decreases n, width
  {
    if n == 0 && width == 0 then ""
    else Padded(n / 10, if width == 0 then 0 else width - 1) + [Digit(n % 10)]
  }

  function Value(text: string): int {
    if text == "" then 0 else 10 * Value(text[..|text| - 1]) + (text[|text| - 1] as int - '0' as int)
  }

  lemma {:induction false} ValueOfPadded(n: nat, width: nat)
    ensures Value(Padded(n, width)) == n
    ensures |Padded(n, width)| >= width && forall c <- Padded(n, width) :: c != '-'
    decreases n, width
  {
    if n != 0 || width != 0 {
      var rest := Padded(n / 10, if width == 0 then 0 else width - 1);
      ValueOfPadded(n / 10, if width == 0 then 0 else width - 1);
      assert Padded(n, width)[..|Padded(n, width)| - 1] == rest;
    }
  }

  lemma TwoDigits(n: nat)
    requires n < 100
    ensures |Padded(n, 2)| == 2
  {
    assert Padded(n / 10 / 10, 0) == "";
    assert |Padded(n / 10, 1)| == 1;
  }

  // `{y:04}`; the sign takes one of the four places.
  function YearText(y: int): string {
    if y < 0 then "-" + Padded(-y, 3) else Padded(y, 4)
  }

  function DateText(d: Date): string
    requires Valid(d)
  {
    YearText(d.year) + ("-" + Padded(d.month, 2) + "-" + Padded(d.day, 2))
  }

  lemma YearTextInjective(y: int, z: int)
    requires YearText(y) == YearText(z)
    ensures y == z
  {
    hide Padded, Value;
    ValueOfPadded(if y < 0 then -y else y, if y < 0 then 3 else 4);
    ValueOfPadded(if z < 0 then -z else z, if z < 0 then 3 else 4);
    assert y >= 0 ==> YearText(y)[0] in Padded(y, 4);
    assert z >= 0 ==> YearText(z)[0] in Padded(z, 4);
    assert y < 0 ==> YearText(y)[1..] == Padded(-y, 3);
    assert z < 0 ==> YearText(z)[1..] == Padded(-z, 3);
  }

  lemma DateTextInjective(d: Date, e: Date)
    requires Valid(d) && Valid(e) && DateText(d) == DateText(e)
    ensures d == e
  {
    hide Padded, Value, YearText;
    TwoDigits(d.month);
    TwoDigits(d.day);
    TwoDigits(e.month);
    TwoDigits(e.day);
    SameSuffix(YearText(d.year), "-" + Padded(d.month, 2) + "-" + Padded(d.day, 2),
               YearText(e.year), "-" + Padded(e.month, 2) + "-" + Padded(e.day, 2));
    SameSuffix("-" + Padded(d.month, 2) + "-", Padded(d.day, 2), "-" + Padded(e.month, 2) + "-", Padded(e.day, 2));
    assert ("-" + Padded(d.month, 2) + "-")[1..3] == Padded(d.month, 2);
    assert ("-" + Padded(e.month, 2) + "-")[1..3] == Padded(e.month, 2);
    YearTextInjective(d.year, e.year);
    ValueOfPadded(d.month, 2);
    ValueOfPadded(d.day, 2);
    ValueOfPadded(e.month, 2);
    ValueOfPadded(e.day, 2);
  }

  lemma SameSuffix(a: string, s: string, b: string, t: string)
    requires a + s == b + t && |s| == |t|
    ensures a == b && s == t
  {
    assert a == (a + s)[..|a|] && b == (b + t)[..|b|];
    assert s == (a + s)[|a|..] && t == (b + t)[|b|..];
  }

  // The sink's day strings differ exactly when the UTC days do.
  lemma SameTextIffSameDay(a: int, b: int)
    requires FitsI32(Walk(a / 86_400).year) && FitsI32(Walk(b / 86_400).year)
    ensures Valid(YmdFromUnixSecs(a)) && Valid(YmdFromUnixSecs(b))
    ensures DateText(YmdFromUnixSecs(a)) == DateText(YmdFromUnixSecs(b)) <==> a / 86_400 == b / 86_400
  {
    hide CivilFromDays, Walk, DateText, Valid;
    CivilIsCalendarWalk(a / 86_400);
    CivilIsCalendarWalk(b / 86_400);
    YmdIsUtcDate(a);
    YmdIsUtcDate(b);
    SameDateIffSameDay(a, b);
    hide YmdFromUnixSecs;
    if DateText(YmdFromUnixSecs(a)) == DateText(YmdFromUnixSecs(b)) {
      DateTextInjective(YmdFromUnixSecs(a), YmdFromUnixSecs(b));
    }
  }

  // For a year of four digits: year, month and day, in this order, at fixed places.
  lemma DateTextShape(d: Date)
    requires Valid(d) && 0 <= d.year < 10_000
    ensures var t := DateText(d);
            && |t| == 10 && t[4] == '-' && t[7] == '-'
            && Value(t[..4]) == d.year && Value(t[5..7]) == d.month && Value(t[8..]) == d.day
  {
    hide Padded, Value;
    TwoDigits(d.month);
    TwoDigits(d.day);
    FourDigits(d.year);
    ValueOfPadded(d.year, 4);
    ValueOfPadded(d.month, 2);
    ValueOfPadded(d.day, 2);
    var t := DateText(d);
    assert t[..4] == Padded(d.year, 4) && t[5..7] == Padded(d.month, 2) && t[8..] == Padded(d.day, 2);
  }

  lemma FourDigits(n: nat)
    requires n < 10_000
    ensures |Padded(n, 4)| == 4
  {
    assert Padded(n / 10 / 10 / 10 / 10, 0) == "";
    assert |Padded(n / 10 / 10 / 10, 1)| == 1;
    assert |Padded(n / 10 / 10, 2)| == 2;
    assert |Padded(n / 10, 3)| == 3;
  }
}
