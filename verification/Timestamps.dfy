/** What timestamps look like, character by character: the shapes the parser
    accepts beyond the printed one, and the columns of the printed one. */
module Timestamps {
  import opened Wrappers
  import opened Text
  import opened Decimal
  import opened Calendar
  import opened Iso8601

  // ---------------------------------------------------------------------
  // Reference: the written forms and their times.
  // ---------------------------------------------------------------------

  /** The parts of a written time: numerals, digits behind the point if there is
      one, and what stands for the zone. */
  datatype Written = Written(
    year: string, month: string, day: string,
    hour: string, minute: string, second: string, fraction: Option<string>,
    zone: WrittenZone)

  datatype WrittenZone =
    | NoZone
    | Zulu
    | Hours(sign: char, hours: string)
    | HoursAndMinutes(sign: char, hours: string, minutes: string)

  function ZoneText(z: WrittenZone): string {
    match z
    case NoZone => ""
    case Zulu => "Z"
    case Hours(sign, hours) => [sign] + hours
    case HoursAndMinutes(sign, hours, minutes) => [sign] + hours + ":" + minutes
  }

  function DatePart(t: Written): string { t.year + "-" + t.month + "-" + t.day }

  function SecondPart(t: Written): string {
    if t.fraction.Some? then t.second + "." + t.fraction.value else t.second
  }

  function ClockPart(t: Written): string { t.hour + ":" + t.minute + ":" + SecondPart(t) }

  function TextOf(t: Written): string { DatePart(t) + "T" + ClockPart(t) + ZoneText(t.zone) }

  /** `ms` is the fraction in milliseconds; digits after the third do not count. */
  ghost predicate IsMillis(fraction: Option<string>, ms: int) {
    if fraction.None? then ms == 0
    else
      var digits := fraction.value;
      && AllDigits(digits)
      && ms == if |digits| == 0 then 0
               else if |digits| == 1 then ValueOf(digits) * 100
               else if |digits| == 2 then ValueOf(digits) * 10
               else ValueOf(digits[..3])
  }

  /** `offset` is the zone's distance from universal time in minutes. */
  ghost predicate IsOffset(z: WrittenZone, offset: int) {
    match z
    case NoZone => offset == 0
    case Zulu => offset == 0
    case Hours(sign, hours) =>
      && (sign == '+' || sign == '-')
      && exists h :: IsNumeral(hours, h) && offset == if sign == '-' then -60 * h else 60 * h
    case HoursAndMinutes(sign, hours, minutes) =>
      && (sign == '+' || sign == '-')
      && exists h, m :: IsNumeral(hours, h) && IsNumeral(minutes, m)
                        && offset == if sign == '-' then -60 * h - m else 60 * h + m
  }

  /** Milliseconds since day zero. */
  function TimeOf(days: int, hour: int, minute: int, second: int, millis: int): int {
    (((days * 24 + hour) * 60 + minute) * 60 + second) * 1000 + millis
  }

  /** The numerals of `t` name these fields and this offset. */
  ghost predicate Names(t: Written, f: Fields, offset: int) {
    && IsNumeral(t.year, f.date.year) && IsNumeral(t.month, f.date.month) && IsNumeral(t.day, f.date.day)
    && IsNumeral(t.hour, f.hour) && IsNumeral(t.minute, f.minute) && IsNumeral(t.second, f.second)
    && IsMillis(t.fraction, f.millis) && IsOffset(t.zone, offset)
  }

  // ---------------------------------------------------------------------
  // Parsing reads them.
  // ---------------------------------------------------------------------

  lemma {:induction false} ValueWithZeros(digits: string, k: nat)
    requires AllDigits(digits)
    ensures AllDigits(digits + Zeros(k))
    ensures ValueOf(digits + Zeros(k)) == ValueOf(digits) * (if k == 0 then 1 else if k == 1 then 10
                                                             else if k == 2 then 100 else 1000) || k > 3
  {
    if k == 0 {
      assert digits + Zeros(0) == digits;
    } else {
      ValueWithZeros(digits, k - 1);
      assert (digits + Zeros(k))[..|digits + Zeros(k)| - 1] == digits + Zeros(k - 1);
    }
  }

  lemma FirstDigits(digits: string, n: nat)
    requires AllDigits(digits) && n <= |digits|
    ensures AllDigits(digits[..n])
  {
  }

  lemma {:induction false} ValueBound(digits: string)
    requires AllDigits(digits) && |digits| <= 3
    ensures ValueOf(digits) < 1000
    ensures |digits| <= 2 ==> ValueOf(digits) < 100
    ensures |digits| <= 1 ==> ValueOf(digits) < 10
  {
    if digits != "" { ValueBound(digits[..|digits| - 1]); }
  }

  lemma MillisRead(digits: string, ms: int)
    requires IsMillis(Some(digits), ms)
    ensures ParseMillis(digits) == Some(ms)
  {
    var k := if |digits| < 3 then 3 - |digits| else 0;
    var padded := digits + Zeros(k);
    ValueWithZeros(digits, k);
    FirstDigits(padded, 3);
    ValueBound(padded[..3]);
    ParseDigits(padded[..3]);
    if |digits| < 3 { assert padded[..3] == padded; } else { assert padded == digits; }
  }

  lemma SecondsRead(t: Written, f: Fields, offset: int)
    requires Names(t, f, offset)
    ensures SecondsOf(SecondPart(t)) == Some((f.second, f.millis))
    ensures forall e :: !IsDigit(e) && e != '.' ==> e !in SecondPart(t)
  {
    if t.fraction.Some? {
      var digits := t.fraction.value;
      MillisRead(digits, f.millis);
      SplitOnceJoined(t.second, '.', digits);
      assert t.second + "." + digits == t.second + ['.'] + digits;
      forall e | !IsDigit(e) && e != '.' ensures e !in SecondPart(t) { JoinedHasNo(t.second, '.', digits, e); }
    } else {
      assert '.' !in t.second;
      assert SplitOnce(t.second, '.').None?;
    }
  }

  lemma ClockRead(t: Written, f: Fields, offset: int)
    requires Names(t, f, offset)
    ensures ParseClock(f.date, ClockPart(t)) == Some(f)
    ensures 'T' !in ClockPart(t) && 'Z' !in ClockPart(t) && NoSign(ClockPart(t)) && ClockPart(t) != ""
  {
    SecondsRead(t, f, offset);
    ParseClockParts(f, t.hour, t.minute, SecondPart(t));
    assert ClockPart(t) == t.hour + [':'] + t.minute + [':'] + SecondPart(t);
    ThreeHaveNo(t.hour, ':', t.minute, SecondPart(t), '+');
    ThreeHaveNo(t.hour, ':', t.minute, SecondPart(t), '-');
  }

  lemma DateRead(t: Written, f: Fields, offset: int)
    requires Names(t, f, offset)
    ensures ParseDate(DatePart(t)) == Some(f.date)
    ensures 'T' !in DatePart(t) && 'Z' !in DatePart(t)
  {
    SplitNumerals(t.year, f.date.year, t.month, f.date.month, t.day, f.date.day, '-');
    DateOfNumerals(t.year, t.month, t.day, f.date);
  }

  lemma NoSignFound(s: string)
    requires NoSign(s)
    ensures LastSignIn(s).None?
  {
  }

  lemma ZeroParses()
    ensures ParseI64("0") == Some(0) && ParseI64("00") == Some(0)
  {
    assert "0"[..0] == "" && "00"[..1] == "0";
    ParseDigits("0");
    ParseDigits("00");
  }

  lemma DefaultZone()
    ensures ParseOffsetMinutes("+00:00") == Some(0)
  {
    ZeroParses();
    assert "+00:00"[1..] == "00" + [':'] + "00";
    SplitTwo("00", "00", ':');
  }

  /** A zone of its own is split off the clock and read; without one the default
      is universal time. */
  lemma ZoneRead(z: WrittenZone, offset: int, clock: string)
    requires IsOffset(z, offset) && (z.Hours? || z.HoursAndMinutes?)
    requires clock != "" && NoSign(clock)
    ensures SplitTime(clock + ZoneText(z)) == (clock, ZoneText(z)) && 'Z' !in ZoneText(z)
    ensures ParseOffsetMinutes(ZoneText(z)) == Some(offset)
  {
    var text := ZoneText(z);
    if z.Hours? {
      HoursRead(z.sign, z.hours, offset);
      SplitTimeOf(clock, text);
    } else {
      HoursAndMinutesRead(z.sign, z.hours, z.minutes, offset);
      SplitTimeOf(clock, text);
    }
  }

  lemma HoursRead(sign: char, hours: string, offset: int)
    requires IsOffset(Hours(sign, hours), offset)
    ensures var text := [sign] + hours;
            ParseOffsetMinutes(text) == Some(offset) && 'Z' !in text && IsSign(text[0]) && NoSign(text[1..])
  {
    var text := [sign] + hours;
    assert text[1..] == hours && ':' !in hours && 'Z' !in hours;
    SplitWhole(hours, ':');
    ZeroParses();
  }

  lemma HoursAndMinutesRead(sign: char, hours: string, minutes: string, offset: int)
    requires IsOffset(HoursAndMinutes(sign, hours, minutes), offset)
    ensures var text := [sign] + hours + ":" + minutes;
            ParseOffsetMinutes(text) == Some(offset) && 'Z' !in text && IsSign(text[0]) && NoSign(text[1..])
  {
    var h, m :| IsNumeral(hours, h) && IsNumeral(minutes, m)
                && offset == if sign == '-' then -60 * h - m else 60 * h + m;
    SignedParts(sign, hours, minutes);
    SignedOffsetRead(sign, hours, h, minutes, m, [sign] + hours + ":" + minutes);
  }

  lemma SignedParts(sign: char, hours: string, minutes: string)
    ensures ([sign] + hours + ":" + minutes)[0] == sign
    ensures ([sign] + hours + ":" + minutes)[1..] == hours + [':'] + minutes
  {
  }

  lemma SignedOffsetRead(sign: char, hours: string, h: int, minutes: string, m: int, text: string)
    requires (sign == '+' || sign == '-') && IsNumeral(hours, h) && IsNumeral(minutes, m)
    requires text != "" && text[0] == sign && text[1..] == hours + [':'] + minutes
    ensures ParseOffsetMinutes(text) == Some(if sign == '-' then -60 * h - m else 60 * h + m)
    ensures 'Z' !in text && IsSign(text[0]) && NoSign(text[1..])
  {
    OffsetParts(hours, h, minutes, m);
    SignedOffsetIs(sign == '-', hours, h, minutes, m);
    SignApart(sign, text);
  }

  lemma SignedOffsetIs(negative: bool, hours: string, h: int, minutes: string, m: int)
    requires IsNumeral(hours, h) && IsNumeral(minutes, m)
    ensures SignedOffset(negative, hours, minutes) == Some(if negative then -60 * h - m else 60 * h + m)
  {
  }

  lemma SignApart(sign: char, text: string)
    requires (sign == '+' || sign == '-') && text != "" && text[0] == sign && 'Z' !in text[1..]
    ensures 'Z' !in text
  {
    assert text == [sign] + text[1..];
  }

  lemma WithoutZone(clock: string)
    requires NoSign(clock)
    ensures SplitTime(clock) == (clock, "+00:00")
    ensures clock != "" ==> SplitTime(clock + "+00:00") == (clock, "+00:00")
  {
    NoSignFound(clock);
    if clock != "" { SplitTimeOf(clock, "+00:00"); }
  }

  lemma TimeRead(t: Written, f: Fields, offset: int)
    requires Names(t, f, offset)
    ensures ParseFields(TextOf(t)) == Some((f, offset))
  {
    DateRead(t, f, offset);
    ClockRead(t, f, offset);
    PartsRead(DatePart(t), ClockPart(t), t.zone, f, offset);
  }

  /** The date, the clock and the zone, each readable, one after the other. */
  lemma PartsRead(d: string, c: string, zone: WrittenZone, f: Fields, offset: int)
    requires ParseDate(d) == Some(f.date) && 'T' !in d && 'Z' !in d
    requires ParseClock(f.date, c) == Some(f) && c != "" && 'T' !in c && 'Z' !in c && NoSign(c)
    requires IsOffset(zone, offset)
    ensures ParseFields(d + "T" + c + ZoneText(zone)) == Some((f, offset))
  {
    DefaultZone();
    WithoutZone(c);
    match zone
    case NoZone => PartsWithout(d, c, f);
    case Zulu => SplitDateTime(d, c, "");
    case Hours(_, _) => PartsWith(d, c, zone, f, offset);
    case HoursAndMinutes(_, _, _) => PartsWith(d, c, zone, f, offset);
  }

  lemma PartsWithout(d: string, c: string, f: Fields)
    requires ParseDate(d) == Some(f.date) && 'T' !in d && 'Z' !in d
    requires ParseTime(f.date, c) == Some((f, 0)) && 'Z' !in c
    ensures ParseFields(d + "T" + c + "") == Some((f, 0))
  {
    SplitDateTime(d, c, "");
    assert c + "" == c;
  }

  lemma PartsWith(d: string, c: string, zone: WrittenZone, f: Fields, offset: int)
    requires ParseDate(d) == Some(f.date) && 'T' !in d && 'Z' !in d
    requires ParseClock(f.date, c) == Some(f) && c != "" && 'Z' !in c && NoSign(c)
    requires IsOffset(zone, offset) && (zone.Hours? || zone.HoursAndMinutes?)
    ensures ParseFields(d + "T" + c + ZoneText(zone)) == Some((f, offset))
  {
    ZoneRead(zone, offset, c);
    SplitDateTime(d, c, ZoneText(zone));
  }

  /** A written time parses to its fields on the calendar less its offset,
      whichever of the forms it is written in. */
  lemma WrittenTimeParses(t: Written, f: Fields, offset: int)
    requires Names(t, f, offset)
    ensures ParseIso8601Ms(TextOf(t))
            == Some(TimeOf(DaysFromCivil(f.date), f.hour, f.minute - offset, f.second, f.millis))
  {
    TimeRead(t, f, offset);
    FieldsGiveTime(TextOf(t), f, offset);
  }

  lemma FieldsGiveTime(text: string, f: Fields, offset: int)
    requires ParseFields(text) == Some((f, offset))
    ensures ParseIso8601Ms(text)
            == Some(TimeOf(DaysFromCivil(f.date), f.hour, f.minute - offset, f.second, f.millis))
  {
    assert ParseIso8601Ms(text) == Some(EpochMillis(f, offset));
    TimeOfFields(f, offset, DaysFromCivil(f.date));
  }

  lemma TimeOfFields(f: Fields, offset: int, days: int)
    requires days == DaysFromCivil(f.date)
    ensures EpochMillis(f, offset) == TimeOf(days, f.hour, f.minute - offset, f.second, f.millis)
  {
  }

  /** Without a `T` there is no time. */
  lemma NoTimeWithoutT(text: string)
    requires 'T' !in text
    ensures ParseIso8601Ms(text).None?
  {
    var normalized := ReplaceFirst(text, 'Z', "+00:00");
    NoneReplaced(text);
    assert SplitOnce(normalized, 'T').None?;
  }

  lemma NoneReplaced(text: string)
    requires 'T' !in text
    ensures 'T' !in ReplaceFirst(text, 'Z', "+00:00")
  {
    var i := FirstIndexOf(text, 'Z');
    if i.Some? {
      var before, after := text[..i.value], text[i.value + 1..];
      assert 'T' !in before && 'T' !in after && 'T' !in "+00:00";
      assert 'T' !in before + "+00:00" + after;
    }
  }

  // ---------------------------------------------------------------------
  // The printed form.
  // ---------------------------------------------------------------------

  lemma {:induction false} YearWidth(n: nat)
    requires n < 10000
    ensures |Padded(n, 4)| == 4
  {
    DigitsWidth(n / 10);
  }

  /** Two columns that read as the number. */
  ghost predicate InColumn(text: string, from: nat, to: nat, n: int) {
    from <= to <= |text| && IsNumeral(text[from..to], n)
  }

  lemma DateColumns(date: Date)
    requires 0 <= date.year < 10000 && 0 <= date.month < 100 && 0 <= date.day < 100
    ensures var text := DateText(date);
            && |text| == 10 && text[4] == '-' && text[7] == '-'
            && text[0..4] == Padded(date.year, 4) && text[5..7] == Padded(date.month, 2)
            && text[8..10] == Padded(date.day, 2)
  {
    YearWidth(date.year);
    PaddedWidth(date.month);
    PaddedWidth(date.day);
    ThreeColumns(Padded(date.year, 4), '-', Padded(date.month, 2), Padded(date.day, 2));
  }

  lemma ThreeColumns(a: string, sep: char, b: string, c: string)
    ensures var text := a + [sep] + b + [sep] + c;
            && |text| == |a| + |b| + |c| + 2 && text[|a|] == sep && text[|a| + 1 + |b|] == sep
            && text[0..|a|] == a && text[|a| + 1..|a| + 1 + |b|] == b && text[|a| + |b| + 2..] == c
  {
  }

  lemma ClockColumns(f: Fields)
    requires InColumns(f)
    ensures var text := ClockText(f);
            && |text| == 12 && text[2] == ':' && text[5] == ':' && text[8] == '.'
            && text[0..2] == Padded(f.hour, 2) && text[3..5] == Padded(f.minute, 2)
            && text[6..8] == Padded(f.second, 2) && text[9..12] == Padded(f.millis, 3)
  {
    PaddedWidth(f.hour);
    PaddedWidth(f.minute);
    PaddedWidth(f.second);
    PaddedWidth(f.millis);
    var second, millis := Padded(f.second, 2), Padded(f.millis, 3);
    var last := second + "." + millis;
    ThreeColumns(Padded(f.hour, 2), ':', Padded(f.minute, 2), last);
    LastColumns(Padded(f.hour, 2) + ":" + Padded(f.minute, 2) + ":", second, millis);
  }

  lemma LastColumns(front: string, second: string, millis: string)
    requires |front| == 6 && |second| == 2 && |millis| == 3
    ensures var text := front + second + "." + millis;
            && |text| == 12 && text[8] == '.' && text[6..8] == second && text[9..12] == millis
            && (forall i, j :: 0 <= i <= j <= 6 ==> text[i..j] == front[i..j])
            && (forall k :: 0 <= k < 6 ==> text[k] == front[k])
  {
  }

  lemma JoinedColumns(date: string, clock: string)
    requires |date| == 10 && |clock| == 12
    ensures var text := date + "T" + clock + "Z";
            && |text| == 24 && text[10] == 'T' && text[23] == 'Z'
            && (forall i, j :: 0 <= i <= j <= 10 ==> text[i..j] == date[i..j])
            && (forall i, j :: 0 <= i <= j <= 12 ==> text[11 + i..11 + j] == clock[i..j])
  {
    var text := date + "T" + clock + "Z";
    assert text[..10] == date && text[11..23] == clock;
    forall i, j | 0 <= i <= j <= 10 ensures text[i..j] == date[i..j] { }
    forall i, j | 0 <= i <= j <= 12 ensures text[11 + i..11 + j] == clock[i..j] { }
  }

  lemma PrintedFields(f: Fields)
    requires InColumns(f) && f.date.year < 10000
    ensures var text := Timestamp(f, Utc);
            && |text| == 24 && text[4] == '-' && text[7] == '-' && text[10] == 'T'
            && text[13] == ':' && text[16] == ':' && text[19] == '.' && text[23] == 'Z'
            && InColumn(text, 0, 4, f.date.year) && InColumn(text, 5, 7, f.date.month)
            && InColumn(text, 8, 10, f.date.day) && InColumn(text, 11, 13, f.hour)
            && InColumn(text, 14, 16, f.minute) && InColumn(text, 17, 19, f.second)
            && InColumn(text, 20, 23, f.millis)
  {
    var d, c := DateText(f.date), ClockText(f);
    DateColumns(f.date);
    ClockColumns(f);
    JoinedColumns(d, c);
    PaddedRoundTrip(f.date.year, 4);
    PaddedRoundTrip(f.date.month, 2);
    PaddedRoundTrip(f.date.day, 2);
    PaddedRoundTrip(f.hour, 2);
    PaddedRoundTrip(f.minute, 2);
    PaddedRoundTrip(f.second, 2);
    PaddedRoundTrip(f.millis, 3);
  }

  lemma FieldsOnClock(epochMillis: int)
    requires FitsI64(epochMillis) && 0 <= YearOf(epochMillis)
    ensures var f := FieldsOf(epochMillis);
            && InColumns(f) && f.date.year == YearOf(epochMillis) && IsDate(f.date)
            && 0 <= f.hour < 24 && 0 <= f.minute < 60 && 0 <= f.second < 60 && 0 <= f.millis < 1000
            && epochMillis == TimeOf(DaysFromCivil(f.date), f.hour, f.minute, f.second, f.millis)
  {
    var f := FieldsOf(epochMillis);
    FieldsDetermineTime(epochMillis);
    TimeOfFields(f, 0, DaysFromCivil(f.date));
    DaysRoundTrip(epochMillis / 1000 / 86400);
    ClockFields(epochMillis / 1000 % 86400);
  }

  /** A time of the years 0 to 9999 prints as 24 characters of fixed columns, and
      the columns hold its calendar date and time of day. */
  lemma PrintedColumns(epochMillis: int) returns (f: Fields)
    requires FitsI64(epochMillis) && 0 <= YearOf(epochMillis) < 10000
    ensures IsDate(f.date) && 0 <= f.hour < 24 && 0 <= f.minute < 60 && 0 <= f.second < 60 && 0 <= f.millis < 1000
    ensures epochMillis
            == TimeOf(DaysFromCivil(f.date), f.hour, f.minute, f.second, f.millis)
    ensures var text := FormatIso8601(epochMillis);
            && |text| == 24 && text[4] == '-' && text[7] == '-' && text[10] == 'T'
            && text[13] == ':' && text[16] == ':' && text[19] == '.' && text[23] == 'Z'
            && InColumn(text, 0, 4, f.date.year) && InColumn(text, 5, 7, f.date.month)
            && InColumn(text, 8, 10, f.date.day) && InColumn(text, 11, 13, f.hour)
            && InColumn(text, 14, 16, f.minute) && InColumn(text, 17, 19, f.second)
            && InColumn(text, 20, 23, f.millis)
  {
    f := FieldsOf(epochMillis);
    FieldsOnClock(epochMillis);
    PrintedFields(f);
  }
}
