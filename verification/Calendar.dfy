/** Day numbers and Gregorian calendar dates. */
module Calendar {
  datatype Date = Date(year: int, month: int, day: int)

  // ---------------------------------------------------------------------
  // The calendar itself.
  // ---------------------------------------------------------------------

  predicate IsLeap(year: int) {
    year % 4 == 0 && (year % 100 != 0 || year % 400 == 0)
  }

  function DaysInMonth(year: int, month: int): int {
    if month == 2 then (if IsLeap(year) then 29 else 28)
    else if month == 4 || month == 6 || month == 9 || month == 11 then 30
    else 31
  }

  predicate IsDate(d: Date) {
    1 <= d.month <= 12 && 1 <= d.day <= DaysInMonth(d.year, d.month)
  }

  function NextDate(d: Date): Date {
    if d.day < DaysInMonth(d.year, d.month) then d.(day := d.day + 1)
    else if d.month < 12 then Date(d.year, d.month + 1, 1)
    else Date(d.year + 1, 1, 1)
  }

  // ---------------------------------------------------------------------
  // The two conversions.
  // ---------------------------------------------------------------------

  /** Integer division as the code performs it: towards zero. */
  function Quot(a: int, b: int): int
    requires b > 0
  {
    if a >= 0 then a / b else -((-a) / b)
  }

  function Rem(a: int, b: int): int
    requires b > 0
  {
    a - b * Quot(a, b)
  }

  /** Days since 1970-01-01. */
  function DaysFromCivil(date: Date): int {
    var y := if date.month <= 2 then date.year - 1 else date.year;
    var era := Quot(if y >= 0 then y else y - 399, 400);
    var yoe := y - era * 400;
    var mp := Rem(date.month + 9, 12);
    var doy := Quot(153 * mp + 2, 5) + date.day - 1;
    var doe := yoe * 365 + Quot(yoe, 4) - Quot(yoe, 100) + doy;
    era * 146097 + doe - 719468
  }

  function CivilFromDays(days: int): Date {
    var z := days + 719468;
    CivilInEra(EraOf(z), z - EraOf(z) * 146097)
  }

  function EraOf(z: int): int { Quot(if z >= 0 then z else z - 146096, 146097) }

  /** The date of day `doe` of an era. */
  function CivilInEra(era: int, doe: int): Date {
    var yoe := YearOfEra(doe);
    var y := yoe + era * 400;
    var doy := doe - (365 * yoe + Quot(yoe, 4) - Quot(yoe, 100));
    var mp := Quot(5 * doy + 2, 153);
    var d := doy - Quot(153 * mp + 2, 5) + 1;
    var m := if mp < 10 then mp + 3 else mp - 9;
    Date(if m <= 2 then y + 1 else y, m, d)
  }

  function YearOfEra(doe: int): int {
    Quot(doe - Quot(doe, 1460) + Quot(doe, 36524) - Quot(doe, 146096), 365)
  }

  // ---------------------------------------------------------------------
  // Years of an era, counted from March.
  // ---------------------------------------------------------------------

  /** The first day of year `yoe` of an era. */
  function YearStart(yoe: int): int { 365 * yoe + yoe / 4 - yoe / 100 }

  /** `doy` is a day of the March-based year `yoe`; its last day, 29 February,
      belongs to the next civil year. */
  predicate IsDayOfYear(yoe: int, doy: int) {
    && 0 <= yoe < 400 && 0 <= doy <= 365
    && (doy == 365 ==> IsLeap(yoe + 1))
  }

  /** A year of an era by century, four-year cycle and year of the cycle. */
  predicate IsCyclePosition(c: int, k: int, r: int) {
    0 <= c < 4 && 0 <= k < 25 && 0 <= r < 4
  }

  lemma YearStartByCycle(c: int, k: int, r: int)
    requires IsCyclePosition(c, k, r)
    ensures YearStart(100 * c + 4 * k + r) == 36524 * c + 1461 * k + 365 * r
    ensures IsLeap(100 * c + 4 * k + r + 1) <==> r == 3 && (k == 24 ==> c == 3)
  {
    var yoe := 100 * c + 4 * k + r;
    assert yoe / 4 == 25 * c + k && yoe / 100 == c;
    assert (yoe + 1) % 4 == 0 <==> r == 3;
    assert (yoe + 1) % 100 == 0 <==> k == 24 && r == 3;
    assert (yoe + 1) % 400 == 0 <==> c == 3 && k == 24 && r == 3;
  }

  lemma CorrectionTerms(c: int, k: int, r: int, doy: int)
    requires IsCyclePosition(c, k, r) && 0 <= doy <= 365
    requires doy == 365 ==> r == 3 && (k == 24 ==> c == 3)
    ensures YearOfEra(36524 * c + 1461 * k + 365 * r + doy) == 100 * c + 4 * k + r
  {
    var doe := 36524 * c + 1461 * k + 365 * r + doy;
    var over := if 24 * c + k + 365 * r + doy >= 1460 then 1 else 0;
    assert doe / 1460 == 25 * c + k + over;
    assert doe / 36524 - doe / 146096 == c;
    assert doe - doe / 1460 + doe / 36524 - doe / 146096 == 365 * (100 * c + 4 * k + r) + (doy - over);
  }

  /** The correction terms recover the year from the day of the era. */
  lemma YearOfEraCorrect(yoe: int, doy: int)
    requires IsDayOfYear(yoe, doy)
    ensures 0 <= YearStart(yoe) + doy < 146097
    ensures YearOfEra(YearStart(yoe) + doy) == yoe
  {
    var c, k, r := yoe / 100, yoe % 100 / 4, yoe % 4;
    assert yoe == 100 * c + 4 * k + r;
    YearStartByCycle(c, k, r);
    CorrectionTerms(c, k, r, doy);
  }

  /** Every day of an era belongs to one of its years. */
  lemma DayOfEraSplits(doe: int) returns (yoe: int, doy: int)
    requires 0 <= doe < 146097
    ensures IsDayOfYear(yoe, doy) && doe == YearStart(yoe) + doy
  {
    var c := if doe == 146096 then 3 else doe / 36524;
    var ofCentury := doe - 36524 * c;
    var k := ofCentury / 1461;
    var ofCycle := ofCentury - 1461 * k;
    var r := if ofCycle == 1460 then 3 else ofCycle / 365;
    yoe, doy := 100 * c + 4 * k + r, ofCycle - 365 * r;
    YearStartByCycle(c, k, r);
  }

  // ---------------------------------------------------------------------
  // Months of a March-based year.
  // ---------------------------------------------------------------------

  function MonthStart(mp: int): int { (153 * mp + 2) / 5 }

  /** Month `mp`, counted from March, has the length of its civil month. */
  lemma MonthLengths(mp: int, yoe: int)
    requires 0 <= mp < 12
    ensures var m := if mp < 10 then mp + 3 else mp - 9;
            var civilYear := if m <= 2 then yoe + 1 else yoe;
            DaysInMonth(civilYear, m) ==
              if mp == 11 then (if IsLeap(yoe + 1) then 29 else 28) else MonthStart(mp + 1) - MonthStart(mp)
  {
  }

  lemma LeapOfEra(yoe: int, era: int)
    ensures IsLeap(yoe + 400 * era) == IsLeap(yoe)
  {
    RemainderBy4(yoe, era);
    RemainderBy100(yoe, era);
    RemainderBy400(yoe, era);
  }

  lemma RemainderBy4(y: int, k: int)
    ensures (y + 400 * k) % 4 == y % 4
  {
    var q, r := y / 4, y % 4;
    assert y + 400 * k == 4 * (q + 100 * k) + r;
  }

  lemma RemainderBy100(y: int, k: int)
    ensures (y + 400 * k) % 100 == y % 100
  {
    var q, r := y / 100, y % 100;
    assert y + 400 * k == 100 * (q + 4 * k) + r;
  }

  lemma RemainderBy400(y: int, k: int)
    ensures (y + 400 * k) % 400 == y % 400
  {
    var q, r := y / 400, y % 400;
    assert y + 400 * k == 400 * (q + k) + r;
  }

  /** The month that a day of the year falls in. */
  lemma MonthOfDay(doy: int) returns (mp: int)
    requires 0 <= doy <= 365
    ensures mp == (5 * doy + 2) / 153 && 0 <= mp < 12
    ensures MonthStart(mp) <= doy && (mp < 11 ==> doy < MonthStart(mp + 1))
  {
    mp := (5 * doy + 2) / 153;
  }

  // ---------------------------------------------------------------------
  // The conversions, in terms of era, year of era and day of year.
  // ---------------------------------------------------------------------

  /** The shifted truncating division is a floor division. */
  lemma EraOfYear(era: int, yoe: int)
    requires 0 <= yoe < 400
    ensures var y := era * 400 + yoe; Quot(if y >= 0 then y else y - 399, 400) == era
  {
  }

  lemma EraOfDay(era: int, doe: int)
    requires 0 <= doe < 146097
    ensures EraOf(era * 146097 + doe) == era
  {
  }

  function CivilOf(era: int, yoe: int, doy: int): Date {
    var mp := (5 * doy + 2) / 153;
    var m := if mp < 10 then mp + 3 else mp - 9;
    var y := yoe + 400 * era;
    Date(if m <= 2 then y + 1 else y, m, doy - MonthStart(mp) + 1)
  }

  lemma FromDaysOf(days: int, era: int, yoe: int, doy: int)
    requires IsDayOfYear(yoe, doy) && days == era * 146097 + YearStart(yoe) + doy - 719468
    ensures CivilFromDays(days) == CivilOf(era, yoe, doy)
  {
    var doe := YearStart(yoe) + doy;
    YearOfEraCorrect(yoe, doy);
    FromEra(days, era, doe);
    InEra(era, yoe, doy);
  }

  lemma FromEra(days: int, era: int, doe: int)
    requires 0 <= doe < 146097 && days + 719468 == era * 146097 + doe
    ensures CivilFromDays(days) == CivilInEra(era, doe)
  {
    EraOfDay(era, doe);
    var z := days + 719468;
    assert z == era * 146097 + doe && EraOf(z) == era;
    assert z - EraOf(z) * 146097 == doe;
  }

  lemma InEra(era: int, yoe: int, doy: int)
    requires IsDayOfYear(yoe, doy) && YearOfEra(YearStart(yoe) + doy) == yoe
    ensures CivilInEra(era, YearStart(yoe) + doy) == CivilOf(era, yoe, doy)
  {
    assert Quot(yoe, 4) == yoe / 4 && Quot(yoe, 100) == yoe / 100;
    assert Quot(5 * doy + 2, 153) == (5 * doy + 2) / 153;
  }

  lemma CivilOfIsDate(era: int, yoe: int, doy: int)
    requires IsDayOfYear(yoe, doy)
    ensures IsDate(CivilOf(era, yoe, doy))
  {
    var mp := MonthOfDay(doy);
    LeapOfEra(yoe + 1, era);
    MonthLengths(mp, yoe + 400 * era);
  }

  lemma ToDaysOf(era: int, yoe: int, doy: int)
    requires IsDayOfYear(yoe, doy)
    ensures DaysFromCivil(CivilOf(era, yoe, doy)) == era * 146097 + YearStart(yoe) + doy - 719468
  {
    var mp := MonthOfDay(doy);
    EraOfYear(era, yoe);
    assert Rem(CivilOf(era, yoe, doy).month + 9, 12) == mp;
  }

  /** The next day of an era, year and day of year. */
  function Step(era: int, yoe: int, doy: int): (int, int, int) {
    if doy < (if IsLeap(yoe + 1) then 365 else 364) then (era, yoe, doy + 1)
    else if yoe < 399 then (era, yoe + 1, 0)
    else (era + 1, 0, 0)
  }

  lemma YearLength(yoe: int)
    requires 0 <= yoe < 399
    ensures YearStart(yoe + 1) == YearStart(yoe) + (if IsLeap(yoe + 1) then 366 else 365)
  {
    assert (yoe + 1) / 4 == yoe / 4 + (if (yoe + 1) % 4 == 0 then 1 else 0);
    assert (yoe + 1) / 100 == yoe / 100 + (if (yoe + 1) % 100 == 0 then 1 else 0);
  }

  lemma StepIsNextDay(era: int, yoe: int, doy: int)
    requires IsDayOfYear(yoe, doy)
    ensures var (e, y, d) := Step(era, yoe, doy);
            IsDayOfYear(y, d) && e * 146097 + YearStart(y) + d == era * 146097 + YearStart(yoe) + doy + 1
  {
    if yoe < 399 { YearLength(yoe); }
  }

  lemma StepIsNextDate(era: int, yoe: int, doy: int)
    requires IsDayOfYear(yoe, doy)
    ensures var (e, y, d) := Step(era, yoe, doy);
            CivilOf(e, y, d) == NextDate(CivilOf(era, yoe, doy))
  {
    var (e, y, d) := Step(era, yoe, doy);
    if y == yoe && e == era {
      WithinYear(era, yoe, doy);
    } else {
      AcrossYears(era, yoe, doy);
    }
  }

  lemma WithinYear(era: int, yoe: int, doy: int)
    requires IsDayOfYear(yoe, doy) && doy < (if IsLeap(yoe + 1) then 365 else 364)
    ensures CivilOf(era, yoe, doy + 1) == NextDate(CivilOf(era, yoe, doy))
  {
    var mp := MonthOfDay(doy);
    LeapOfEra(yoe + 1, era);
    MonthLengths(mp, yoe + 400 * era);
    var next := MonthOfDay(doy + 1);
  }

  lemma AcrossYears(era: int, yoe: int, doy: int)
    requires IsDayOfYear(yoe, doy) && doy >= (if IsLeap(yoe + 1) then 365 else 364)
    ensures var (e, y, d) := Step(era, yoe, doy); CivilOf(e, y, d) == NextDate(CivilOf(era, yoe, doy))
  {
    LeapOfEra(yoe + 1, era);
  }

  /** The era, year and day behind a date. */
  lemma DateSplits(d: Date) returns (era: int, yoe: int, doy: int)
    requires IsDate(d)
    ensures IsDayOfYear(yoe, doy) && d == CivilOf(era, yoe, doy)
  {
    var y := if d.month <= 2 then d.year - 1 else d.year;
    var mp := if d.month <= 2 then d.month + 9 else d.month - 3;
    era, yoe, doy := y / 400, y % 400, MonthStart(mp) + d.day - 1;
    LeapOfEra(yoe + 1, era);
    MonthLengths(mp, yoe + 400 * era);
  }

  // ---------------------------------------------------------------------
  // The theorems.
  // ---------------------------------------------------------------------

  lemma EpochIsDayZero()
    ensures DaysFromCivil(Date(1970, 1, 1)) == 0
  {
  }

  /** The era, year and day behind a day number. */
  lemma DaysSplit(days: int) returns (era: int, yoe: int, doy: int)
    ensures IsDayOfYear(yoe, doy) && days == era * 146097 + YearStart(yoe) + doy - 719468
  {
    var z := days + 719468;
    era := z / 146097;
    yoe, doy := DayOfEraSplits(z % 146097);
  }

  /** From day number to date and back. */
  lemma DaysRoundTrip(days: int)
    ensures IsDate(CivilFromDays(days))
    ensures DaysFromCivil(CivilFromDays(days)) == days
  {
    var era, yoe, doy := DaysSplit(days);
    FromDaysOf(days, era, yoe, doy);
    CivilOfIsDate(era, yoe, doy);
    ToDaysOf(era, yoe, doy);
  }

  /** From date to day number and back. */
  lemma DateRoundTrip(d: Date)
    requires IsDate(d)
    ensures CivilFromDays(DaysFromCivil(d)) == d
  {
    var era, yoe, doy := DateSplits(d);
    ToDaysOf(era, yoe, doy);
    FromDaysOf(DaysFromCivil(d), era, yoe, doy);
  }

  /** Consecutive day numbers are consecutive dates: with day zero, this says
      which date every day number stands for. */
  lemma NextDayIsNextDate(days: int)
    ensures CivilFromDays(days + 1) == NextDate(CivilFromDays(days))
  {
    var era, yoe, doy := DaysSplit(days);
    var (e, y, d) := Step(era, yoe, doy);
    StepIsNextDay(era, yoe, doy);
    FromDaysOf(days, era, yoe, doy);
    FromDaysOf(days + 1, e, y, d);
    StepIsNextDate(era, yoe, doy);
  }
}
