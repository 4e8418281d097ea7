/** Timestamps as text: the printer of the `list` output and the reader of `--since`,
    in the date-time form of section 5.6 of RFC 3339, always in UTC. */
module Timestamps {
  import opened Common
  import opened Calendar
  import opened Decimal

  const DAY_MS: int := 86_400_000
  /** 0000-01-01T00:00:00.000Z. */
  const YEAR_ZERO_MS: int := -62_167_219_200_000

  predicate IsI64(x: int) {
    I64_MIN <= x <= I64_MAX
  }

  // ----- Printing -----

  function AsI32(x: int): int {
    (x + 0x8000_0000) % 0x1_0000_0000 - 0x8000_0000
  }

  function AsU8(x: int): (r: nat) {
    x % 256
  }

  /** The date as the narrowing casts leave it. */
  function NarrowCivil(days: int): Date {
    Narrowed(CivilFromDays(days))
  }

  function Narrowed(date: Date): Date {
    Date(AsI32(date.year), AsU8(date.month), AsU8(date.day))
  }

  /** Zero padding that counts a sign as one of the places. */
  function PaddedSigned(n: int, width: nat): string {
    if n >= 0 then Padded(n, width) else "-" + Padded(-n, if width == 0 then 0 else width - 1)
  }

  function Joined(x: string, y: string, z: string, sep: char): string {
    x + [sep] + y + [sep] + z
  }

  function FormatDate(year: int, month: nat, day: nat): string {
    Joined(PaddedSigned(year, 4), Padded(month, 2), Padded(day, 2), '-')
  }

  function FormatTime(hour: nat, minute: nat, second: nat): string {
    Joined(Padded(hour, 2), Padded(minute, 2), Padded(second, 2), ':')
  }

  function Format(ms: int): string {
    var secs := ms / 1_000;
    var (date, secsOfDay) := (NarrowCivil(secs / 86_400), secs % 86_400);
    FormatDate(date.year, date.month, date.day) + "T"
    + FormatTime(secsOfDay / 3_600, secsOfDay % 3_600 / 60, secsOfDay % 60) + "." + Padded(ms % 1_000, 3) + "Z"
  }

  // ----- Reading -----

  /** Around the first `c`. */
  function SplitOnce(s: string, c: char): Option<(string, string)> {
    if s == [] then None
    else if s[0] == c then Some(([], s[1..]))
    else
      match SplitOnce(s[1..], c)
      case None => None
      case Some((a, b)) => Some(([s[0]] + a, b))
  }

  function Split(s: string, c: char): (parts: seq<string>)
    ensures parts != []
    decreases |s|
  {
    match SplitOnce(s, c)
    case None => [s]
    case Some((a, b)) => SplitOnceShrinks(s, c); [a] + Split(b, c)
  }

  lemma SplitOnceShrinks(s: string, c: char)
    ensures SplitOnce(s, c).Some? ==> |SplitOnce(s, c).value.1| < |s|
  {
  }

  /** Reading an integer: one optional sign, then at least one digit, within bounds. */
  function ParseInt(s: string, signed: bool, max: nat): Option<int> {
    if s == [] || ((s[0] == '+' || s[0] == '-') && |s| == 1) then None
    else
      var negative := signed && s[0] == '-';
      var digits := if s[0] == '+' || negative then s[1..] else s;
      if !AllDigits(digits) then None
      else
        var v := if negative then 0 - Value(digits) else Value(digits);
        if 0 - max - 1 <= v <= max then Some(v) else None
  }

  function ParseI32(s: string): Option<int> {
    ParseInt(s, true, 0x7fff_ffff)
  }

  function ParseU32(s: string): Option<int> {
    ParseInt(s, false, 0xffff_ffff)
  }

  function ParseDate(date: string): Option<Date> {
    var parts := Split(date, '-');
    if |parts| < 3 then None
    else
      match (ParseI32(parts[0]), ParseU32(parts[1]), ParseU32(parts[2]))
      case (Some(year), Some(month), Some(day)) => Some(Date(year, month, day))
      case _ => None
  }

  /** Seconds of the day; the fields are not bounded by the clock. */
  function ParseTime(time: string): Option<int> {
    var parts := Split(time, ':');
    if |parts| < 3 then None
    else
      match (ParseU32(parts[0]), ParseU32(parts[1]), ParseU32(parts[2]))
      case (Some(hour), Some(minute), Some(sec)) => Some(hour * 3_600 + minute * 60 + sec)
      case _ => None
  }

  function Parse(s: string): Option<int> {
    if s == [] || s[|s| - 1] != 'Z' then None
    else
      match SplitOnce(s[..|s| - 1], 'T')
      case None => None
      case Some((date, rest)) =>
        var (time, frac) := match SplitOnce(rest, '.') case Some(p) => p case None => (rest, "0");
        Assemble(ParseDate(date), ParseTime(time), ParseU32(frac))
  }

  function Assemble(date: Option<Date>, secs: Option<int>, millis: Option<int>): Option<int> {
    if date.None? || secs.None? || millis.None? then None
    else
      match DaysFromCivil(date.value)
      case None => None
      case Some(days) => Some(days * DAY_MS + secs.value * 1_000 + millis.value)
  }

  // ----- Text lemmas -----

  lemma {:induction false} SplitOnceAt(a: string, c: char, b: string)
    requires c !in a
    ensures SplitOnce(a + [c] + b, c) == Some((a, b))
  {
    var s := a + [c] + b;
    if a == [] {
      assert s[1..] == b;
    } else {
      assert s[0] == a[0] && a[0] in a && s[1..] == a[1..] + [c] + b;
      SplitOnceAt(a[1..], c, b);
      assert [a[0]] + a[1..] == a;
    }
  }

  lemma {:induction false} SplitOnceNone(s: string, c: char)
    requires c !in s
    ensures SplitOnce(s, c) == None
  {
    if s != [] { SplitOnceNone(s[1..], c); }
  }

  lemma SplitJoined(x: string, y: string, z: string, sep: char)
    requires AllDigits(x) && AllDigits(y) && AllDigits(z) && !IsDigit(sep)
    ensures Split(Joined(x, y, z, sep), sep) == [x, y, z]
  {
    assert Joined(x, y, z, sep) == x + [sep] + (y + [sep] + z);
    SplitOnceAt(x, sep, y + [sep] + z);
    SplitOnceAt(y, sep, z);
    SplitOnceNone(z, sep);
    assert Split(z, sep) == [z];
    assert Split(y + [sep] + z, sep) == [y, z];
  }

  lemma DigitsOnly(x: string, c: char)
    requires AllDigits(x) && !IsDigit(c)
    ensures c !in x
  {
  }

  lemma NotInJoined(x: string, y: string, z: string, sep: char, c: char)
    requires c !in x && AllDigits(y) && AllDigits(z) && !IsDigit(c) && c != sep
    ensures c !in Joined(x, y, z, sep)
  {
  }

  lemma PaddedParses(n: nat, width: nat, max: nat, signed: bool)
    requires n <= max
    ensures AllDigits(Padded(n, width)) && ParseInt(Padded(n, width), signed, max) == Some(n)
  {
    PaddedReads(n, width);
    assert IsDigit(Padded(n, width)[0]);
  }

  lemma JoinedDateParses(y: string, m: string, d: string, date: Date)
    requires AllDigits(y) && AllDigits(m) && AllDigits(d)
    requires ParseI32(y) == Some(date.year) && ParseU32(m) == Some(date.month) && ParseU32(d) == Some(date.day)
    ensures ParseDate(Joined(y, m, d, '-')) == Some(date) && 'T' !in Joined(y, m, d, '-')
  {
    SplitJoined(y, m, d, '-');
    DigitsOnly(y, 'T');
    NotInJoined(y, m, d, '-', 'T');
  }

  lemma JoinedTimeParses(h: string, m: string, s: string, hour: int, minute: int, second: int)
    requires AllDigits(h) && AllDigits(m) && AllDigits(s)
    requires ParseU32(h) == Some(hour) && ParseU32(m) == Some(minute) && ParseU32(s) == Some(second)
    ensures ParseTime(Joined(h, m, s, ':')) == Some(hour * 3_600 + minute * 60 + second) && '.' !in Joined(h, m, s, ':')
  {
    SplitJoined(h, m, s, ':');
    DigitsOnly(h, '.');
    NotInJoined(h, m, s, ':', '.');
  }

  lemma DateParses(year: nat, month: nat, day: nat)
    requires year <= 0x7fff_ffff && month <= 0xffff_ffff && day <= 0xffff_ffff
    ensures ParseDate(FormatDate(year, month, day)) == Some(Date(year, month, day))
    ensures 'T' !in FormatDate(year, month, day)
  {
    PaddedParses(year, 4, 0x7fff_ffff, true);
    PaddedParses(month, 2, 0xffff_ffff, false);
    PaddedParses(day, 2, 0xffff_ffff, false);
    JoinedDateParses(Padded(year, 4), Padded(month, 2), Padded(day, 2), Date(year, month, day));
  }

  lemma NegativeYearIsRefused(year: int, month: nat, day: nat)
    requires year < 0
    ensures ParseDate(FormatDate(year, month, day)) == None && 'T' !in FormatDate(year, month, day)
  {
    var y, m, d := Padded(-year, 3), Padded(month, 2), Padded(day, 2);
    PaddedReads(-year, 3);
    PaddedReads(month, 2);
    PaddedReads(day, 2);
    NotInJoined("-" + y, m, d, '-', 'T');
    EmptyFirst("-" + y, m, d);
  }

  lemma EmptyFirst(x: string, y: string, z: string)
    requires x != [] && x[0] == '-'
    ensures ParseDate(Joined(x, y, z, '-')) == None
  {
    var s := Joined(x, y, z, '-');
    assert s[0] == '-';
    assert Split(s, '-')[0] == [];
  }

  lemma TimeParses(hour: nat, minute: nat, second: nat)
    requires hour <= 0xffff_ffff && minute <= 0xffff_ffff && second <= 0xffff_ffff
    ensures ParseTime(FormatTime(hour, minute, second)) == Some(hour * 3_600 + minute * 60 + second)
    ensures '.' !in FormatTime(hour, minute, second)
  {
    PaddedParses(hour, 2, 0xffff_ffff, false);
    PaddedParses(minute, 2, 0xffff_ffff, false);
    PaddedParses(second, 2, 0xffff_ffff, false);
    JoinedTimeParses(Padded(hour, 2), Padded(minute, 2), Padded(second, 2), hour, minute, second);
  }

  lemma PartsParse(date: string, time: string, frac: string)
    requires 'T' !in date && '.' !in time
    ensures Parse(date + "T" + time + "." + frac + "Z") == Assemble(ParseDate(date), ParseTime(time), ParseU32(frac))
  {
    var s, rest := date + "T" + time + "." + frac + "Z", time + "." + frac;
    assert s[..|s| - 1] == date + "T" + rest;
    SplitOnceAt(date, 'T', rest);
    SplitOnceAt(time, '.', frac);
  }

  // ----- The laws -----

  /** Within a day count, no unsigned subtraction goes below zero. */
  lemma NothingUnderflows(days: int)
    ensures var z := days + EPOCH; var doe := z - EraOf(z) * ERA; var doy := doe - YearStart(YearOfEra(doe));
            && 0 <= doe < ERA && 0 <= YearOfEra(doe) < 400 && 0 <= doy < 366
            && 0 <= doy - MonthStart(MonthOfYear(doy))
  {
    var era, yoe, doy := Unpack(days);
    InEra(yoe, doy);
    EraIsFloor(era, YearStart(yoe) + doy);
    YearOfEraIsExact(YearStart(yoe) + doy, yoe);
    YearLength(era, yoe);
    MonthIsExact(doy);
  }

  /** For every 64-bit reading no narrowing cast loses anything and the shifted day count
      stays in range. */
  lemma CastsLoseNothing(ms: int)
    requires IsI64(ms)
    ensures IsI64(ms / DAY_MS + EPOCH) && NarrowCivil(ms / DAY_MS) == CivilFromDays(ms / DAY_MS)
  {
    var days := ms / DAY_MS;
    var era, yoe, doy := Unpack(days);
    CivilUnpacks(era, yoe, doy);
    DayRoundTrip(days);
    NarrowYear(days, era, yoe, doy);
    DateInMonth(era, yoe, MonthOfYear(doy), doy - MonthStart(MonthOfYear(doy)) + 1) by { YearLength(era, yoe); MonthIsExact(doy); }
    NarrowingIsExact(CivilFromDays(days));
  }

  lemma NarrowingIsExact(date: Date)
    requires ValidDate(date) && -0x8000_0000 <= date.year <= 0x7fff_ffff
    ensures Narrowed(date) == date
  {
  }

  lemma NarrowYear(days: int, era: int, yoe: int, doy: int)
    requires InYear(yoe, doy) && days == Packed(era, yoe, doy) && I64_MIN / DAY_MS <= days <= I64_MAX / DAY_MS
    ensures -0x8000_0000 < yoe + era * 400 < 0x7fff_ffff
  {
    InEra(yoe, doy);
  }

  lemma YearIsNatural(days: int)
    ensures CivilFromDays(days).year >= 0 <==> days >= YEAR_ZERO_MS / DAY_MS
  {
    var era, yoe, doy := Unpack(days);
    CivilUnpacks(era, yoe, doy);
    InEra(yoe, doy);
    YearLength(era, yoe);
    MonthIsExact(doy);
    if era == -1 && yoe < 399 { YearsAreOrdered(yoe, 399); }
  }

  lemma SameDay(ms: int)
    ensures ms / 1_000 / 86_400 == ms / DAY_MS
    ensures ms == ms / DAY_MS * DAY_MS + ms / 1_000 % 86_400 * 1_000 + ms % 1_000
  {
  }

  lemma AssembledInstant(ms: int, date: Date, h: nat, m: nat, s: nat)
    requires DaysFromCivil(date) == Some(ms / DAY_MS) && ms / 1_000 % 86_400 == h * 3_600 + m * 60 + s
    ensures Assemble(Some(date), Some(h * 3_600 + m * 60 + s), Some(ms % 1_000)) == Some(ms)
  {
    SameDay(ms);
  }

  lemma FormatIsJoined(ms: int, h: nat, m: nat, s: nat)
    requires IsI64(ms)
    requires var secs := ms / 1_000 % 86_400; h == secs / 3_600 && m == secs % 3_600 / 60 && s == secs % 60
    ensures var date := CivilFromDays(ms / DAY_MS);
            && ValidDate(date) && date.year <= 0x7fff_ffff
            && Format(ms) == FormatDate(date.year, date.month, date.day) + "T" + FormatTime(h, m, s)
                           + "." + Padded(ms % 1_000, 3) + "Z"
  {
    SameDay(ms);
    CastsLoseNothing(ms);
    DayRoundTrip(ms / DAY_MS);
  }

  lemma ClockFields(secs: nat) returns (h: nat, m: nat, s: nat)
    requires secs < 86_400
    ensures h == secs / 3_600 && m == secs % 3_600 / 60 && s == secs % 60
    ensures h < 24 && m < 60 && s < 60 && secs == h * 3_600 + m * 60 + s
  {
    h, m, s := secs / 3_600, secs % 3_600 / 60, secs % 60;
  }

  /** Reading what was printed gives the same instant back, for every 64-bit reading from
      the year 0 on; earlier ones print a minus sign the reader refuses. */
  lemma PrintedTimestampReads(ms: int)
    requires IsI64(ms)
    ensures Parse(Format(ms)) == if ms >= YEAR_ZERO_MS then Some(ms) else None
  {
    var date := CivilFromDays(ms / DAY_MS);
    var h, m, s := ClockFields(ms / 1_000 % 86_400);
    FormatIsJoined(ms, h, m, s);
    YearIsNatural(ms / DAY_MS);
    TimeParses(h, m, s);
    PaddedParses(ms % 1_000, 3, 0xffff_ffff, false);
    if date.year >= 0 {
      DateParses(date.year, date.month, date.day);
      DayRoundTrip(ms / DAY_MS);
      AssembledInstant(ms, date, h, m, s);
    } else {
      NegativeYearIsRefused(date.year, date.month, date.day);
    }
    PartsParse(FormatDate(date.year, date.month, date.day), FormatTime(h, m, s), Padded(ms % 1_000, 3));
  }

  /** A piece of text is a number of the given value. */
  ghost predicate Shows(s: string, n: int) {
    AllDigits(s) && Value(s) == n
  }

  /** The shape of section 5.6 of RFC 3339: fields of four and two digits, three for the
      fraction, at fixed places. */
  ghost predicate DateTimeShape(s: string, date: Date, h: int, m: int, sec: int, millis: int) {
    && |s| == 24 && s[4] == '-' && s[7] == '-' && s[10] == 'T' && s[13] == ':' && s[16] == ':' && s[19] == '.' && s[23] == 'Z'
    && Shows(s[0..4], date.year) && Shows(s[5..7], date.month) && Shows(s[8..10], date.day)
    && Shows(s[11..13], h) && Shows(s[14..16], m) && Shows(s[17..19], sec) && Shows(s[20..23], millis)
  }

  lemma JoinedInPlace(x: string, y: string, z: string, sep: char)
    requires |y| == 2 && |z| == 2
    ensures var (t, n) := (Joined(x, y, z, sep), |x|);
            && |t| == n + 6 && t[n] == sep && t[n + 3] == sep
            && t[0..n] == x && t[n + 1..n + 3] == y && t[n + 4..n + 6] == z
  {
  }

  lemma HalvesInPlace(date: string, time: string, f: string)
    requires |date| == 10 && |time| == 8 && |f| == 3
    ensures var t := date + "T" + time + "." + f + "Z";
            && |t| == 24 && t[10] == 'T' && t[19] == '.' && t[23] == 'Z'
            && t[0..10] == date && t[11..19] == time && t[20..23] == f
  {
  }

  lemma FieldsInPlace(y: string, mo: string, d: string, h: string, mi: string, s: string, f: string)
    requires |y| == 4 && |mo| == 2 && |d| == 2 && |h| == 2 && |mi| == 2 && |s| == 2 && |f| == 3
    ensures var t := Joined(y, mo, d, '-') + "T" + Joined(h, mi, s, ':') + "." + f + "Z";
            && |t| == 24 && t[4] == '-' && t[7] == '-' && t[10] == 'T' && t[13] == ':' && t[16] == ':' && t[19] == '.' && t[23] == 'Z'
            && t[0..4] == y && t[5..7] == mo && t[8..10] == d && t[11..13] == h && t[14..16] == mi && t[17..19] == s && t[20..23] == f
  {
    var date, time := Joined(y, mo, d, '-'), Joined(h, mi, s, ':');
    var t := date + "T" + time + "." + f + "Z";
    JoinedInPlace(y, mo, d, '-');
    JoinedInPlace(h, mi, s, ':');
    HalvesInPlace(date, time, f);
    DateSlices(t);
    TimeSlices(t);
  }

  lemma DateSlices(t: string)
    requires |t| == 24
    ensures var u := t[0..10]; t[4] == u[4] && t[7] == u[7] && t[0..4] == u[0..4] && t[5..7] == u[5..7] && t[8..10] == u[8..10]
  {
  }

  lemma TimeSlices(t: string)
    requires |t| == 24
    ensures var v := t[11..19]; t[13] == v[2] && t[16] == v[5] && t[11..13] == v[0..2] && t[14..16] == v[3..5] && t[17..19] == v[6..8]
  {
  }

  /** Every reading in a year of four digits prints in that shape, with its civil date and
      its time of day. */
  lemma FormatHasShape(ms: int) returns (h: nat, m: nat, s: nat)
    requires IsI64(ms) && 0 <= CivilFromDays(ms / 86_400_000).year <= 9_999
    ensures h < 24 && m < 60 && s < 60 && h * 3_600 + m * 60 + s == ms / 1_000 % 86_400
    ensures DateTimeShape(Format(ms), CivilFromDays(ms / 86_400_000), h, m, s, ms % 1_000)
  {
    var date := CivilFromDays(ms / DAY_MS);
    h, m, s := ClockFields(ms / 1_000 % 86_400);
    FormatIsJoined(ms, h, m, s);
    PaddedShows(date.year);
    PaddedShows(date.month);
    PaddedShows(date.day);
    PaddedShows(h);
    PaddedShows(m);
    PaddedShows(s);
    PaddedShows(ms % 1_000);
    FieldsInPlace(Padded(date.year, 4), Padded(date.month, 2), Padded(date.day, 2),
                  Padded(h, 2), Padded(m, 2), Padded(s, 2), Padded(ms % 1_000, 3));
  }

  lemma PaddedShows(n: nat)
    ensures Shows(Padded(n, 2), n) && Shows(Padded(n, 3), n) && Shows(Padded(n, 4), n)
    ensures n < 100 ==> |Padded(n, 2)| == 2
    ensures n < 1_000 ==> |Padded(n, 3)| == 3
    ensures n < 10_000 ==> |Padded(n, 4)| == 4
  {
    PaddedReads(n, 2);
    PaddedReads(n, 3);
    PaddedReads(n, 4);
    PaddedWidth(n);
  }

  ghost predicate Number(s: string) {
    AllDigits(s) && s != [] && Value(s) <= 0x7fff_ffff
  }

  /** The milliseconds of a date and a time, if there is such a day. */
  function Instant(date: Date, secs: int, millis: int): Option<int> {
    match DaysFromCivil(date)
    case None => None
    case Some(days) => Some(days * 86_400_000 + secs * 1_000 + millis)
  }

  lemma AssembleIsInstant(date: Date, secs: int, millis: int)
    ensures Assemble(Some(date), Some(secs), Some(millis)) == Instant(date, secs, millis)
  {
  }

  /** What the reader makes of a date and a time it can read: the day is checked, the time
      of day is not. */
  lemma ShapeParses(date: string, time: string, f: string, day: Date, secs: int, millis: int)
    requires 'T' !in date && '.' !in time
    requires ParseDate(date) == Some(day) && ParseTime(time) == Some(secs) && ParseU32(f) == Some(millis)
    ensures Parse(date + "T" + time + "." + f + "Z") == Instant(day, secs, millis)
  {
    PartsParse(date, time, f);
    SameAssembly(ParseDate(date), ParseTime(time), ParseU32(f), day, secs, millis);
  }

  /** The same without a fraction. */
  lemma ShapeParsesWhole(date: string, time: string, day: Date, secs: int)
    requires 'T' !in date && '.' !in time && ParseDate(date) == Some(day) && ParseTime(time) == Some(secs)
    ensures Parse(date + "T" + time + "Z") == Instant(day, secs, 0)
  {
    var s := date + "T" + time + "Z";
    assert s[..|s| - 1] == date + "T" + time;
    SplitOnceAt(date, 'T', time);
    SplitOnceNone(time, '.');
    ZeroParses();
    SameAssembly(ParseDate(date), ParseTime(time), ParseU32("0"), day, secs, 0);
  }

  lemma ZeroParses()
    ensures ParseU32("0") == Some(0)
  {
    assert AllDigits("0") && "0"[..0] == [] && Value("0") == Value("0"[..0]) * 10;
  }

  /** Only texts ending in Z are read. */
  lemma ZoneIsRequired(s: string)
    requires s == [] || s[|s| - 1] != 'Z'
    ensures Parse(s) == None
  {
  }

  lemma SameAssembly(date: Option<Date>, secs: Option<int>, millis: Option<int>, d: Date, s: int, m: int)
    requires date == Some(d) && secs == Some(s) && millis == Some(m)
    ensures Assemble(date, secs, millis) == Instant(d, s, m)
  {
    AssembleIsInstant(d, s, m);
  }

  /** Any digits are read as their decimal value, up to 31 bits. */
  lemma NumberParses(s: string)
    requires Number(s)
    ensures ParseI32(s) == Some(Value(s)) && ParseU32(s) == Some(Value(s))
  {
    assert IsDigit(s[0]);
  }
}
