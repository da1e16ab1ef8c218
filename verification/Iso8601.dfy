/** Timestamps of the shape YYYY-MM-DDTHH:MM:SS.sss followed by Z or a numeric
    offset (the date-time production of section 5.6 of RFC 3339). */
module Iso8601 {
  import opened Wrappers
  import opened Text
  import opened Decimal
  import opened Calendar

  // ---------------------------------------------------------------------
  // Signs.
  // ---------------------------------------------------------------------

  function LastSignIn(s: string): (r: Option<nat>)
    ensures r.Some? ==> r.value < |s| && IsSign(s[r.value]) && NoSign(s[r.value + 1..])
    ensures r.None? ==> NoSign(s)
  {
    if s == "" then None
    else if IsSign(s[|s| - 1]) then Some(|s| - 1)
    else LastSignIn(s[..|s| - 1])
  }

  predicate IsSign(c: char) { c == '+' || c == '-' }

  predicate NoSign(s: string) { forall k :: 0 <= k < |s| ==> !IsSign(s[k]) }

  // ---------------------------------------------------------------------
  // Formatting and parsing.
  // ---------------------------------------------------------------------

  datatype Fields = Fields(date: Date, hour: int, minute: int, second: int, millis: int)

  function FieldsOf(epochMillis: int): Fields {
    var totalSeconds, millis := epochMillis / 1000, epochMillis % 1000;
    var days, secondsOfDay := totalSeconds / 86400, totalSeconds % 86400;
    Fields(CivilFromDays(days), secondsOfDay / 3600, secondsOfDay % 3600 / 60, secondsOfDay % 60, millis)
  }

  function DateText(date: Date): string {
    Padded(date.year, 4) + "-" + Padded(date.month, 2) + "-" + Padded(date.day, 2)
  }

  function ClockText(f: Fields): string {
    Padded(f.hour, 2) + ":" + Padded(f.minute, 2) + ":" + Padded(f.second, 2) + "." + Padded(f.millis, 3)
  }

  datatype Zone = Utc | Offset(negative: bool, hours: nat, minutes: nat)

  predicate ZoneInColumns(z: Zone) {
    z.Offset? ==> z.hours < 100 && z.minutes < 100
  }

  function OffsetText(z: Zone): string
    requires z.Offset?
  {
    [if z.negative then '-' else '+'] + (Padded(z.hours, 2) + ":" + Padded(z.minutes, 2))
  }

  function Timestamp(f: Fields, z: Zone): string {
    DateText(f.date) + "T" + ClockText(f) + if z.Utc? then "Z" else OffsetText(z)
  }

  function FormatIso8601(epochMillis: int): string {
    Timestamp(FieldsOf(epochMillis), Utc)
  }

  function SignedOffset(negative: bool, h: string, m: string): Option<int> {
    var hours :- ParseI64(h);
    var minutes :- ParseI64(m);
    Some(if negative then -(hours * 60 + minutes) else hours * 60 + minutes)
  }

  function ParseOffsetMinutes(offset: string): Option<int> {
    if offset == "" then Some(0)
    else
      var parts := Split(offset[1..], ':');
      SignedOffset(offset[0] == '-', parts[0], if |parts| > 1 then parts[1] else "0")
  }

  function DateOf(y: string, m: string, d: string): Option<Date> {
    var year :- ParseI64(y);
    var month :- ParseI64(m);
    var day :- ParseI64(d);
    Some(Date(year, month, day))
  }

  function ParseDate(text: string): Option<Date> {
    var parts := Split(text, '-');
    if |parts| < 3 then None else DateOf(parts[0], parts[1], parts[2])
  }

  function ParseMillis(frac: string): Option<int> {
    var padded := frac + Zeros(if |frac| < 3 then 3 - |frac| else 0);
    ParseI64(padded[..3])
  }

  function SecondsOf(text: string): Option<(int, int)> {
    match SplitOnce(text, '.')
    case Some((whole, frac)) =>
      var second :- ParseI64(whole);
      var millis :- ParseMillis(frac);
      Some((second, millis))
    case None =>
      var second :- ParseI64(text);
      Some((second, 0))
  }

  function ClockOf(date: Date, h: string, m: string, s: string): Option<Fields> {
    var hour :- ParseI64(h);
    var minute :- ParseI64(m);
    var (second, millis) :- SecondsOf(s);
    Some(Fields(date, hour, minute, second, millis))
  }

  function ParseClock(date: Date, text: string): Option<Fields> {
    var parts := Split(text, ':');
    if |parts| < 3 then None else ClockOf(date, parts[0], parts[1], parts[2])
  }

  /** The clock and, when the last sign is not in front, the offset. */
  function SplitTime(timePart: string): (string, string) {
    match LastSignIn(timePart)
    case Some(i) => if i > 0 then (timePart[..i], timePart[i..]) else (timePart, "+00:00")
    case None => (timePart, "+00:00")
  }

  function ParseTime(date: Date, timePart: string): Option<(Fields, int)> {
    var (clock, zone) := SplitTime(timePart);
    var fields :- ParseClock(date, clock);
    var offset :- ParseOffsetMinutes(zone);
    Some((fields, offset))
  }

  /** The numeric fields and the offset in minutes. */
  function ParseFields(timestamp: string): Option<(Fields, int)> {
    var (datePart, timePart) :- SplitOnce(ReplaceFirst(timestamp, 'Z', "+00:00"), 'T');
    var date :- ParseDate(datePart);
    ParseTime(date, timePart)
  }

  function EpochSeconds(f: Fields, offset: int): int {
    DaysFromCivil(f.date) * 86400 + f.hour * 3600 + f.minute * 60 + f.second - offset * 60
  }

  function EpochMillis(f: Fields, offset: int): int {
    EpochSeconds(f, offset) * 1000 + f.millis
  }

  function ParseIso8601Ms(timestamp: string): Option<int> {
    var (f, offset) :- ParseFields(timestamp);
    Some(EpochMillis(f, offset))
  }

  // ---------------------------------------------------------------------
  // Parsing undoes printing.
  // ---------------------------------------------------------------------

  lemma {:induction false} LastSignJoined(a: string, sign: char, b: string)
    requires IsSign(sign) && NoSign(b)
    ensures LastSignIn(a + [sign] + b) == Some(|a|)
  {
    var s := a + [sign] + b;
    if b == "" {
      assert s[|s| - 1] == sign;
    } else {
      LastSignJoined(a, sign, b[..|b| - 1]);
      assert s[..|s| - 1] == a + [sign] + b[..|b| - 1];
      assert s[|s| - 1] == b[|b| - 1];
    }
  }

  /** Fields that fit their columns; the date need not be a calendar date. */
  predicate InColumns(f: Fields) {
    && 0 <= f.date.year <= I64_MAX
    && 0 <= f.date.month < 100 && 0 <= f.date.day < 100
    && 0 <= f.hour < 100 && 0 <= f.minute < 100 && 0 <= f.second < 100
    && 0 <= f.millis < 1000
  }

  function OffsetMinutes(z: Zone): int {
    if z.Utc? then 0
    else if z.negative then -(z.hours * 60 + z.minutes)
    else z.hours * 60 + z.minutes
  }

  lemma JoinedHasNo(a: string, sep: char, b: string, c: char)
    requires c !in a && c != sep && c !in b
    ensures c !in a + [sep] + b
  {
  }

  lemma SplitWhole(c: string, sep: char)
    requires sep !in c
    ensures Split(c, sep) == [c]
  {
  }

  lemma SplitTwo(b: string, c: string, sep: char)
    requires sep !in b && sep !in c
    ensures Split(b + [sep] + c, sep) == [b, c]
  {
    SplitJoined(b, sep, c);
    SplitWhole(c, sep);
  }

  lemma JoinedRest(a: string, sep: string, b: string, c: string)
    ensures a + sep + b + sep + c == a + sep + (b + sep + c)
  {
  }

  lemma SplitThree(a: string, b: string, c: string, sep: char)
    requires sep !in a && sep !in b && sep !in c
    ensures Split(a + [sep] + b + [sep] + c, sep) == [a, b, c]
  {
    var rest := b + [sep] + c;
    SplitTwo(b, c, sep);
    SplitJoined(a, sep, rest);
    JoinedRest(a, [sep], b, c);
  }

  lemma ThreeHaveNo(a: string, sep: char, b: string, d: string, c: char)
    requires c !in a && c != sep && c !in b && c !in d
    ensures c !in a + [sep] + b + [sep] + d
  {
    JoinedHasNo(a, sep, b, c);
    JoinedHasNo(a + [sep] + b, sep, d, c);
  }

  lemma ParsePrintedDate(d: Date)
    requires 0 <= d.year <= I64_MAX && 0 <= d.month < 100 && 0 <= d.day < 100
    ensures ParseDate(DateText(d)) == Some(d)
    ensures 'T' !in DateText(d) && 'Z' !in DateText(d)
  {
    var y, m, n := Padded(d.year, 4), Padded(d.month, 2), Padded(d.day, 2);
    PaddedRoundTrip(d.year, 4);
    PaddedRoundTrip(d.month, 2);
    PaddedRoundTrip(d.day, 2);
    SplitNumerals(y, d.year, m, d.month, n, d.day, '-');
    DateOfNumerals(y, m, n, d);
  }

  lemma DateOfNumerals(y: string, m: string, n: string, d: Date)
    requires IsNumeral(y, d.year) && IsNumeral(m, d.month) && IsNumeral(n, d.day)
    ensures DateOf(y, m, n) == Some(d)
  {
  }

  lemma SplitNumerals(a: string, x: int, b: string, y: int, c: string, z: int, sep: char)
    requires IsNumeral(a, x) && IsNumeral(b, y) && IsNumeral(c, z) && !IsDigit(sep)
    ensures Split(a + [sep] + b + [sep] + c, sep) == [a, b, c]
    ensures forall e :: !IsDigit(e) && e != sep ==> e !in a + [sep] + b + [sep] + c
  {
    SplitThree(a, b, c, sep);
    forall e | !IsDigit(e) && e != sep ensures e !in a + [sep] + b + [sep] + c {
      ThreeHaveNo(a, sep, b, c, e);
    }
  }

  lemma SecondsText(s: string, second: int, ms: string, millis: int)
    requires IsNumeral(s, second) && IsNumeral(ms, millis) && |ms| == 3
    ensures SecondsOf(s + ['.'] + ms) == Some((second, millis))
    ensures forall e :: !IsDigit(e) && e != '.' ==> e !in s + ['.'] + ms
  {
    SplitOnceJoined(s, '.', ms);
    assert ms + Zeros(0) == ms && ms[..3] == ms;
    forall e | !IsDigit(e) && e != '.' ensures e !in s + ['.'] + ms {
      JoinedHasNo(s, '.', ms, e);
    }
  }

  lemma ParsePrintedClock(f: Fields)
    requires InColumns(f)
    ensures ParseClock(f.date, ClockText(f)) == Some(f)
    ensures 'T' !in ClockText(f) && 'Z' !in ClockText(f) && ClockText(f) != ""
  {
    PaddedRoundTrip(f.hour, 2);
    PaddedRoundTrip(f.minute, 2);
    PaddedRoundTrip(f.second, 2);
    PaddedRoundTrip(f.millis, 3);
    PaddedWidth(f.millis);
    ClockOfNumerals(f, Padded(f.hour, 2), Padded(f.minute, 2), Padded(f.second, 2), Padded(f.millis, 3));
  }

  lemma ClockOfNumerals(f: Fields, h: string, m: string, s: string, ms: string)
    requires IsNumeral(h, f.hour) && IsNumeral(m, f.minute) && IsNumeral(s, f.second)
    requires IsNumeral(ms, f.millis) && |ms| == 3
    ensures var text := h + ":" + m + ":" + s + "." + ms;
            && ParseClock(f.date, text) == Some(f)
            && 'T' !in text && 'Z' !in text && text != ""
  {
    SecondsText(s, f.second, ms, f.millis);
    ParseClockParts(f, h, m, s + ['.'] + ms);
    JoinedClock(h, m, s, ms);
  }

  lemma JoinedClock(h: string, m: string, s: string, ms: string)
    ensures h + ":" + m + ":" + s + "." + ms == h + [':'] + m + [':'] + (s + ['.'] + ms)
  {
  }

  lemma ParseClockParts(f: Fields, h: string, m: string, rest: string)
    requires IsNumeral(h, f.hour) && IsNumeral(m, f.minute) && SecondsOf(rest) == Some((f.second, f.millis))
    requires forall e :: !IsDigit(e) && e != '.' ==> e !in rest
    ensures var text := h + [':'] + m + [':'] + rest;
            && ParseClock(f.date, text) == Some(f)
            && 'T' !in text && 'Z' !in text
  {
    SplitThree(h, m, rest, ':');
    ThreeHaveNo(h, ':', m, rest, 'T');
    ThreeHaveNo(h, ':', m, rest, 'Z');
    assert ClockOf(f.date, h, m, rest) == Some(f);
  }

  lemma ParsePrintedOffset(z: Zone)
    requires z.Offset? && ZoneInColumns(z)
    ensures ParseOffsetMinutes(OffsetText(z)) == Some(OffsetMinutes(z))
    ensures IsSign(OffsetText(z)[0]) && NoSign(OffsetText(z)[1..]) && 'Z' !in OffsetText(z)
  {
    var h, m := Padded(z.hours, 2), Padded(z.minutes, 2);
    PaddedRoundTrip(z.hours, 2);
    PaddedRoundTrip(z.minutes, 2);
    OffsetOfNumerals(z, h, m);
  }

  lemma OffsetOfNumerals(z: Zone, h: string, m: string)
    requires z.Offset? && IsNumeral(h, z.hours) && IsNumeral(m, z.minutes)
    ensures var text := [if z.negative then '-' else '+'] + (h + [':'] + m);
            && ParseOffsetMinutes(text) == Some(OffsetMinutes(z))
            && IsSign(text[0]) && NoSign(text[1..]) && 'Z' !in text
  {
    var text := [if z.negative then '-' else '+'] + (h + [':'] + m);
    assert text[1..] == h + [':'] + m;
    OffsetParts(h, z.hours, m, z.minutes);
    SignedNumerals(z, h, m);
  }

  lemma SignedNumerals(z: Zone, h: string, m: string)
    requires z.Offset? && IsNumeral(h, z.hours) && IsNumeral(m, z.minutes)
    ensures SignedOffset(z.negative, h, m) == Some(OffsetMinutes(z))
  {
  }

  lemma OffsetParts(h: string, hours: int, m: string, minutes: int)
    requires IsNumeral(h, hours) && IsNumeral(m, minutes)
    ensures Split(h + [':'] + m, ':') == [h, m]
    ensures NoSign(h + [':'] + m) && 'Z' !in h + [':'] + m
  {
    SplitJoined(h, ':', m);
    assert Split(m, ':') == [m];
    JoinedHasNo(h, ':', m, 'Z');
    JoinedHasNo(h, ':', m, '+');
    JoinedHasNo(h, ':', m, '-');
  }

  lemma SplitTimeOf(c: string, o: string)
    requires c != "" && o != "" && IsSign(o[0]) && NoSign(o[1..])
    ensures SplitTime(c + o) == (c, o)
  {
    LastSignJoined(c, o[0], o[1..]);
    assert c + o == c + [o[0]] + o[1..];
  }

  lemma SplitDateTime(d: string, c: string, o: string)
    requires 'T' !in d && 'Z' !in d && 'Z' !in c && 'Z' !in o
    ensures SplitOnce(ReplaceFirst(d + "T" + c + o, 'Z', "+00:00"), 'T') == Some((d, c + o))
    ensures SplitOnce(ReplaceFirst(d + "T" + c + "Z", 'Z', "+00:00"), 'T') == Some((d, c + "+00:00"))
  {
    JoinedHasNo(d, 'T', c, 'Z');
    assert 'Z' !in d + "T" + c + o;
    SplitOnceJoined(d, 'T', c + o);
    assert d + "T" + c + o == d + ['T'] + (c + o);
    ReplaceJoined(d + "T" + c, 'Z', "", "+00:00");
    assert d + "T" + c + "Z" == (d + "T" + c) + ['Z'] + "";
    SplitOnceJoined(d, 'T', c + "+00:00");
    assert (d + "T" + c) + "+00:00" + "" == d + ['T'] + (c + "+00:00");
  }

  /** Any printed timestamp parses back to its fields and its offset. */
  lemma ParsePrinted(f: Fields, z: Zone)
    requires InColumns(f) && ZoneInColumns(z)
    ensures ParseFields(Timestamp(f, z)) == Some((f, OffsetMinutes(z)))
  {
    var zone := if z.Utc? then Offset(false, 0, 0) else z;
    var d, c, o := DateText(f.date), ClockText(f), OffsetText(zone);
    ParsePrintedDate(f.date);
    ParsePrintedClock(f);
    ParsePrintedOffset(zone);
    SplitTimeOf(c, o);
    SplitDateTime(d, c, o);
    ZeroOffsetText();
  }

  lemma ZeroOffsetText()
    ensures OffsetText(Offset(false, 0, 0)) == "+00:00"
  {
    assert Digits(0) == "0" && Zeros(1) == "0";
    assert Padded(0, 2) == "00";
  }

  // ---------------------------------------------------------------------
  // The round trip over the 64-bit range.
  // ---------------------------------------------------------------------

  lemma ClockFields(secondsOfDay: int)
    requires 0 <= secondsOfDay < 86400
    ensures var h, m, s := secondsOfDay / 3600, secondsOfDay % 3600 / 60, secondsOfDay % 60;
            0 <= h < 24 && 0 <= m < 60 && 0 <= s < 60 && h * 3600 + m * 60 + s == secondsOfDay
  {
  }

  lemma YearBound(days: int)
    requires -200000000000 <= days <= 200000000000
    ensures -1000000000 <= CivilFromDays(days).year <= 1000000000
  {
    var era, yoe, doy := DaysSplit(days);
    FromDaysOf(days, era, yoe, doy);
  }

  lemma DayBound(epochMillis: int)
    requires FitsI64(epochMillis)
    ensures -200000000000 <= epochMillis / 1000 / 86400 <= 200000000000
  {
  }

  function YearOf(epochMillis: int): int {
    CivilFromDays(epochMillis / 1000 / 86400).year
  }

  /** The fields of a time are in their columns exactly from year 0 onward,
      and always determine the time. */
  lemma FieldsDetermineTime(epochMillis: int)
    requires FitsI64(epochMillis)
    ensures InColumns(FieldsOf(epochMillis)) <==> YearOf(epochMillis) >= 0
    ensures EpochMillis(FieldsOf(epochMillis), 0) == epochMillis
  {
    var days := epochMillis / 1000 / 86400;
    DayBound(epochMillis);
    DaysRoundTrip(days);
    YearBound(days);
    ClockFields(epochMillis / 1000 % 86400);
    FieldsFromDate(epochMillis, CivilFromDays(days));
  }

  lemma FieldsFromDate(epochMillis: int, date: Date)
    requires date == CivilFromDays(epochMillis / 1000 / 86400)
    requires IsDate(date) && DaysFromCivil(date) == epochMillis / 1000 / 86400 && date.year <= 1000000000
    ensures FieldsOf(epochMillis).date == date
    ensures InColumns(FieldsOf(epochMillis)) <==> date.year >= 0
    ensures EpochMillis(FieldsOf(epochMillis), 0) == epochMillis
  {
    ClockFields(epochMillis / 1000 % 86400);
  }

  /** The terms of the day number, most significant first. */
  predicate DateNoOverflow(date: Date) {
    var y := if date.month <= 2 then date.year - 1 else date.year;
    var era := Quot(if y >= 0 then y else y - 399, 400);
    var yoe := y - era * 400;
    var doy := Quot(153 * Rem(date.month + 9, 12) + 2, 5) + date.day - 1;
    var doe := yoe * 365 + Quot(yoe, 4) - Quot(yoe, 100) + doy;
    && FitsI64(y) && FitsI64(y - 399) && FitsI64(era * 400) && FitsI64(yoe * 365) && FitsI64(doy) && FitsI64(doe)
    && FitsI64(era * 146097) && FitsI64(era * 146097 + doe)
  }

  /** Every intermediate of the parser's arithmetic stays in 64 bits. */
  predicate NoOverflow(f: Fields, offset: int) {
    && DateNoOverflow(f.date)
    && FitsI64(DaysFromCivil(f.date)) && FitsI64(DaysFromCivil(f.date) * 86400)
    && FitsI64(DaysFromCivil(f.date) * 86400 + f.hour * 3600)
    && FitsI64(DaysFromCivil(f.date) * 86400 + f.hour * 3600 + f.minute * 60)
    && FitsI64(DaysFromCivil(f.date) * 86400 + f.hour * 3600 + f.minute * 60 + f.second)
    && FitsI64(EpochSeconds(f, offset)) && FitsI64(EpochSeconds(f, offset) * 1000)
    && FitsI64(EpochSeconds(f, offset) * 1000 + f.millis)
  }

  lemma LeadingSignIsRejected(text: string)
    requires text != "" && text[0] == '-'
    ensures ParseFields(text).None?
  {
    var normalized := ReplaceFirst(text, 'Z', "+00:00");
    assert normalized[0] == '-';
    var split := SplitOnce(normalized, 'T');
    if split.Some? {
      var d := split.value.0;
      assert d[0] == '-';
      SplitJoined("", '-', d[1..]);
      assert d == "" + ['-'] + d[1..];
    }
  }

  lemma NegativeYearIsRejected(f: Fields)
    requires f.date.year < 0
    ensures ParseIso8601Ms(Timestamp(f, Utc)).None?
  {
    assert Padded(f.date.year, 4)[0] == '-';
    LeadingSignIsRejected(Timestamp(f, Utc));
  }

  lemma ParsePrintedMs(f: Fields, z: Zone)
    requires InColumns(f) && ZoneInColumns(z)
    ensures ParseIso8601Ms(Timestamp(f, z)) == Some(EpochMillis(f, OffsetMinutes(z)))
  {
    ParsePrinted(f, z);
  }

  /** Formatting a time and parsing it gives the time back, exactly from year
      0 onward; before year 0 the parser rejects the printed sign. */
  lemma FormatRoundTrip(epochMillis: int)
    requires FitsI64(epochMillis)
    ensures ParseIso8601Ms(FormatIso8601(epochMillis)) == if YearOf(epochMillis) >= 0 then Some(epochMillis) else None
  {
    var f := FieldsOf(epochMillis);
    FieldsDetermineTime(epochMillis);
    if YearOf(epochMillis) >= 0 {
      ParsePrintedMs(f, Utc);
    } else {
      NegativeYearIsRejected(f);
    }
  }

  /** Whoever parses a printed time from year 0 onward overflows nowhere. */
  lemma RoundTripStaysIn64Bits(epochMillis: int)
    requires FitsI64(epochMillis) && YearOf(epochMillis) >= 0
    ensures ParseFields(FormatIso8601(epochMillis)) == Some((FieldsOf(epochMillis), 0))
    ensures NoOverflow(FieldsOf(epochMillis), 0)
  {
    FieldsDetermineTime(epochMillis);
    ParsePrinted(FieldsOf(epochMillis), Utc);
    YearZeroOnward(epochMillis);
  }

  lemma SmallYearsFit(date: Date)
    requires IsDate(date) && -1000000000 <= date.year <= 1000000000
    ensures DateNoOverflow(date)
  {
    var y := if date.month <= 2 then date.year - 1 else date.year;
    EraOfYear(y / 400, y % 400);
    assert y / 400 * 400 + y % 400 == y;
  }

  lemma YearZeroOnward(epochMillis: int)
    requires FitsI64(epochMillis) && YearOf(epochMillis) >= 0
    ensures NoOverflow(FieldsOf(epochMillis), 0)
  {
    var days := epochMillis / 1000 / 86400;
    DayBound(epochMillis);
    DaysRoundTrip(days);
    YearBound(days);
    SmallYearsFit(CivilFromDays(days));
    FieldsDetermineTime(epochMillis);
    ClockFields(epochMillis / 1000 % 86400);
  }

  /** Every intermediate of the formatter's arithmetic stays in 64 bits. */
  predicate FormatNoOverflow(epochMillis: int) {
    var seconds := epochMillis / 1000;
    var days, ofDay := seconds / 86400, seconds % 86400;
    && FitsI64(seconds) && FitsI64(epochMillis % 1000) && FitsI64(days) && FitsI64(ofDay)
    && CivilNoOverflow(days)
  }

  /** The terms of the civil date of a day number, in the order of the code. */
  predicate CivilNoOverflow(days: int) {
    var z := days + 719468;
    var era := EraOf(z);
    var doe := z - era * 146097;
    var yoe := YearOfEra(doe);
    var doy := doe - (365 * yoe + Quot(yoe, 4) - Quot(yoe, 100));
    && FitsI64(z) && FitsI64(z - 146096) && FitsI64(era * 146097) && FitsI64(doe)
    && FitsI64(doe - Quot(doe, 1460) + Quot(doe, 36524) - Quot(doe, 146096))
    && FitsI64(era * 400) && FitsI64(yoe + era * 400 + 1) && FitsI64(365 * yoe) && FitsI64(doy)
    && FitsI64(5 * doy + 2) && FitsI64(153 * Quot(5 * doy + 2, 153) + 2)
  }

  lemma SmallDaysFit(days: int)
    requires -200000000000 <= days <= 200000000000
    ensures CivilNoOverflow(days)
  {
    var era, yoe, doy := DaysSplit(days);
    var doe := YearStart(yoe) + doy;
    YearOfEraCorrect(yoe, doy);
    EraOfDay(era, doe);
    assert days + 719468 == era * 146097 + doe;
  }

  /** The formatter overflows on no 64-bit time. */
  lemma FormatStaysIn64Bits(epochMillis: int)
    requires FitsI64(epochMillis)
    ensures FormatNoOverflow(epochMillis)
  {
    DayBound(epochMillis);
    SmallDaysFit(epochMillis / 1000 / 86400);
  }

  lemma OffsetIsLinear(f: Fields, offset: int)
    ensures EpochMillis(f, offset) == EpochMillis(f, 0) - offset * 60000
  {
  }

  /** A numeric offset shifts the result by exactly that offset. */
  lemma OffsetShifts(f: Fields, z: Zone)
    requires InColumns(f) && ZoneInColumns(z)
    ensures ParseIso8601Ms(Timestamp(f, z)) == Some(EpochMillis(f, OffsetMinutes(z)))
    ensures EpochMillis(f, OffsetMinutes(z)) == EpochMillis(f, 0) - OffsetMinutes(z) * 60000
  {
    ParsePrintedMs(f, z);
    OffsetIsLinear(f, OffsetMinutes(z));
  }

  const YEAR_ZERO_DAY: int := -719528
  const YEAR_ZERO_MS: int := -62167219200000

  lemma YearZeroDay(days: int)
    ensures CivilFromDays(days).year >= 0 <==> days >= YEAR_ZERO_DAY
  {
    var era, yoe, doy := DaysSplit(days);
    FromDaysOf(days, era, yoe, doy);
    YearZeroOfEra(era, yoe, doy);
  }

  lemma YearZeroOfEra(era: int, yoe: int, doy: int)
    requires IsDayOfYear(yoe, doy)
    ensures CivilOf(era, yoe, doy).year >= 0 <==> era * 146097 + YearStart(yoe) + doy >= -60
  {
    var mp := MonthOfDay(doy);
    YearOfEraCorrect(yoe, doy);
  }

  /** Year 0 begins at one fixed millisecond. */
  lemma YearZeroStarts(epochMillis: int)
    ensures YearOf(epochMillis) >= 0 <==> epochMillis >= YEAR_ZERO_MS
  {
    YearZeroDay(epochMillis / 1000 / 86400);
    DayFloor(epochMillis);
  }

  /** The last millisecond before year 0 does not come back. */
  lemma BeforeYearZero()
    ensures ParseIso8601Ms(FormatIso8601(YEAR_ZERO_MS - 1)).None?
  {
    YearZeroStarts(YEAR_ZERO_MS - 1);
    FormatRoundTrip(YEAR_ZERO_MS - 1);
  }

  lemma DayFloor(epochMillis: int)
    ensures epochMillis / 1000 / 86400 >= YEAR_ZERO_DAY <==> epochMillis >= YEAR_ZERO_MS
  {
  }
}
